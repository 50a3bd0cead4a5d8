/** One zone of the page allocator: `zone_alloc`, `zone_free`, page references
    and `pmm_add_region`. */
module BuddyZone {
  import opened Arithmetic
  import opened BuddyBlocks
  import opened Lists

  // What one step does to the invariant ---------------------------------------

  /** Nothing but references and recorded orders changes. */
  ghost predicate SameRoots(p: Pages, p': Pages) {
    p.Keys == p'.Keys && forall x :: x in p ==> p[x].maxOrder == p'[x].maxOrder
  }

  lemma SameRootsKeep(p: Pages, p': Pages, blocks: Blocks)
    requires SameRoots(p, p')
    ensures RootsOk(p) ==> RootsOk(p')
    ensures Tiled(p, blocks) ==> Tiled(p', blocks)
    ensures Coalesced(p, blocks) ==> Coalesced(p', blocks)
  {
    hide Pow2, Base, In, Buddy, Aligned;
    assert forall h :: BlockOk(p, blocks, h) ==> BlockOk(p', blocks, h);
    assert forall h :: LoneAt(p, blocks, h) ==> LoneAt(p', blocks, h);
  }

  ghost predicate HeadsOk(pages: Pages, blocks: Blocks) {
    forall h :: HeadOk(pages, blocks, h)
  }

  ghost predicate CountsOk(orders: seq<seq<int>>, npages: seq<int>) {
    |orders| == |npages| && forall k :: 0 <= k < |npages| ==> npages[k] == |orders[k]|
  }

  lemma Rebuild(pages: Pages, pages': Pages, blocks: Blocks, orders: seq<seq<int>>, npages: seq<int>)
    requires RootsOk(pages) && SameRoots(pages, pages') && Tiled(pages, blocks) && Coalesced(pages, blocks)
    requires HeadsOk(pages', blocks) && ListsOk(orders, blocks) && CountsOk(orders, npages)
    ensures ZoneOk(pages', blocks, orders, npages)
  {
    hide RootsOk, Tiled, Coalesced, HeadOk;
    SameRootsKeep(pages, pages', blocks);
  }

  /** Changing the blocks leaves list `k` right when the free blocks of that
      order stay the same. */
  lemma ListKept(list: seq<int>, blocks: Blocks, blocks': Blocks, k: nat)
    requires ListOk(list, blocks, k)
    requires forall h :: (h in blocks && blocks[h] == Block(k, Free)) <==> (h in blocks' && blocks'[h] == Block(k, Free))
    ensures ListOk(list, blocks', k)
  {
  }

  lemma Distribute(a: int, b: int, x: int)
    ensures a * x == b * x + (a - b) * x
  {
  }

  lemma {:induction false} FreeSet(orders: seq<seq<int>>, i: nat, k: nat, list: seq<int>)
    requires |orders| == BUDDY_ORDERS && i <= BUDDY_ORDERS && k < BUDDY_ORDERS
    ensures FreeFrom(orders[k := list], i) == FreeFrom(orders, i) + if i <= k then (|list| - |orders[k]|) * Pow2(k) else 0
    decreases BUDDY_ORDERS - i
  {
    if i < BUDDY_ORDERS {
      FreeSet(orders, i + 1, k, list);
      if i == k {
        Distribute(|list|, |orders[k]|, Pow2(k));
      }
    }
  }

  function WithOrder(pages: Pages, h: int, k: nat): Pages
    requires h in pages
  {
    pages[h := pages[h].(order := k)]
  }

  function WithShares(pages: Pages, h: int, n: nat): Pages
    requires h in pages
  {
    pages[h := pages[h].(shares := n)]
  }

  /** Take the first block of list `k` off it. */
  lemma TakeOk(pages: Pages, blocks: Blocks, orders: seq<seq<int>>, npages: seq<int>, k: nat)
    requires ZoneOk(pages, blocks, orders, npages) && k < BUDDY_ORDERS && orders[k] != []
    ensures var h := orders[k][0]; h in blocks && h in pages && blocks[h] == Block(k, Free) && pages[h].shares == 0
    ensures ZoneOk(pages, SetUse(blocks, orders[k][0], Limbo), orders[k := orders[k][1..]], npages[k := npages[k] - 1])
  {
    hide RootsOk, Tiled, Coalesced;
    var h := orders[k][0];
    assert ListOk(orders[k], blocks, k);
    HeadBlock(pages, blocks, h);
    assert HeadOk(pages, blocks, h);
    var b := SetUse(blocks, h, Limbo);
    SetUseTiled(pages, blocks, h, Limbo);
    SetUseCoalesced(pages, blocks, h, Limbo);
    var orders' := orders[k := orders[k][1..]];
    forall j | 0 <= j < BUDDY_ORDERS ensures ListOk(orders'[j], b, j) {
      assert ListOk(orders[j], blocks, j);
      if j == k { TailOk(orders[k], blocks, k); } else { ListKept(orders[j], blocks, b, j); }
    }
    forall x ensures HeadOk(pages, b, x) { assert HeadOk(pages, blocks, x); }
    Rebuild(pages, pages, b, orders', npages[k := npages[k] - 1]);
  }

  lemma TailOk(list: seq<int>, blocks: Blocks, k: nat)
    requires ListOk(list, blocks, k) && list != []
    ensures ListOk(list[1..], SetUse(blocks, list[0], Limbo), k)
  {
    var b := SetUse(blocks, list[0], Limbo);
    forall h ensures h in list[1..] <==> h in b && b[h] == Block(k, Free) {
      assert h in list <==> h == list[0] || h in list[1..];
    }
  }

  lemma MaxOrder(pages: Pages, h: int)
    requires RootsOk(pages) && h in pages
    ensures pages[h].maxOrder < BUDDY_ORDERS
  {
  }

  lemma HeadBlock(pages: Pages, blocks: Blocks, h: int)
    requires Tiled(pages, blocks) && h in blocks
    ensures h in pages && blocks[h].order <= pages[h].maxOrder && Aligned(h, blocks[h].order)
  {
    assert BlockOk(pages, blocks, h);
  }

  lemma AppendOk(list: seq<int>, blocks: Blocks, blocks': Blocks, k: nat, x: int)
    requires ListOk(list, blocks, k) && x !in list
    requires forall h :: (h in blocks' && blocks'[h] == Block(k, Free)) <==> (h in blocks && blocks[h] == Block(k, Free)) || h == x
    ensures ListOk(list + [x], blocks', k) && ListOk([x] + list, blocks', k)
  {
  }

  /** Split the block `h` in hand: the upper half goes on its list. */
  lemma SplitOk(pages: Pages, blocks: Blocks, orders: seq<seq<int>>, npages: seq<int>, h: int)
    requires ZoneOk(pages, blocks, orders, npages) && h in blocks && blocks[h].use == Limbo && 0 < blocks[h].order < BUDDY_ORDERS
    ensures var k := blocks[h].order - 1;
            var h' := h + Pow2(k);
            h in pages && h' in pages && h' != h &&
            ZoneOk(WithOrder(WithOrder(pages, h', k), h, k), Split(blocks, h), orders[k := orders[k] + [h']], npages[k := npages[k] + 1])
  {
    hide RootsOk, Tiled, Coalesced, Pow2;
    var k := blocks[h].order - 1;
    var h' := h + Pow2(k);
    var b := Split(blocks, h);
    SplitTiled(pages, blocks, h);
    SplitCoalesced(pages, blocks, h);
    var pages' := WithOrder(WithOrder(pages, h', k), h, k);
    var orders' := orders[k := orders[k] + [h']];
    forall j | 0 <= j < BUDDY_ORDERS ensures ListOk(orders'[j], b, j) {
      assert ListOk(orders[j], blocks, j);
      if j == k { AppendOk(orders[k], blocks, b, k, h'); } else { ListKept(orders[j], blocks, b, j); }
    }
    forall x ensures HeadOk(pages', b, x) { assert HeadOk(pages, blocks, x); }
    Rebuild(pages, pages', b, orders', npages[k := npages[k] + 1]);
  }

  /** Merge the block `h` in hand with its free buddy. */
  lemma MergeOk(pages: Pages, blocks: Blocks, orders: seq<seq<int>>, npages: seq<int>, h: int)
    requires ZoneOk(pages, blocks, orders, npages) && h in blocks && h in pages && blocks[h].use == Limbo
    requires blocks[h].order < pages[h].maxOrder
    requires var b := Buddy(h, blocks[h].order); b in blocks && blocks[b] == Block(blocks[h].order, Free)
    ensures var k := blocks[h].order;
            var b := Buddy(h, k);
            b != h && b in pages && k < BUDDY_ORDERS && b in orders[k] && Lower(h, k) in pages && pages[Lower(h, k)].maxOrder == pages[h].maxOrder &&
            ZoneOk(WithOrder(WithOrder(pages, b, k + 1), h, k + 1), Merge(blocks, h), orders[k := Without(orders[k], b)], npages[k := npages[k] - 1])
  {
    hide RootsOk, Tiled, Coalesced, Pow2, Aligned, Buddy, Lower;
    var k := blocks[h].order;
    var b := Buddy(h, k);
    MaxOrder(pages, h);
    HeadBlock(pages, blocks, h);
    BuddyIsHead(pages, blocks, h);
    BuddyHalves(h, k);
    MergeTiled(pages, blocks, h);
    MergeCoalesced(pages, blocks, h);
    var blocks' := Merge(blocks, h);
    var pages' := WithOrder(WithOrder(pages, b, k + 1), h, k + 1);
    assert ListOk(orders[k], blocks, k);
    WithoutOk(orders[k], b);
    var orders' := orders[k := Without(orders[k], b)];
    forall j | 0 <= j < BUDDY_ORDERS ensures ListOk(orders'[j], blocks', j) {
      assert ListOk(orders[j], blocks, j);
      if j != k { ListKept(orders[j], blocks, blocks', j); }
    }
    forall x ensures HeadOk(pages', blocks', x) { assert HeadOk(pages, blocks, x); }
    Rebuild(pages, pages', blocks', orders', npages[k := npages[k] - 1]);
  }

  /** Put the block `h` in hand on its list. */
  lemma PutOk(pages: Pages, blocks: Blocks, orders: seq<seq<int>>, npages: seq<int>, h: int)
    requires ZoneOk(pages, blocks, orders, npages) && h in blocks && blocks[h].use == Limbo
    requires h in pages && blocks[h].order < pages[h].maxOrder ==>
               !(Buddy(h, blocks[h].order) in blocks && blocks[Buddy(h, blocks[h].order)] == Block(blocks[h].order, Free))
    ensures var k := blocks[h].order;
            k < BUDDY_ORDERS && h in pages && pages[h].order == k &&
            ZoneOk(pages, SetUse(blocks, h, Free), orders[k := [h] + orders[k]], npages[k := npages[k] + 1])
  {
    hide Tiled, Coalesced, Pow2, Aligned, Buddy;
    var k := blocks[h].order;
    HeadBlock(pages, blocks, h);
    var b := SetUse(blocks, h, Free);
    SetUseTiled(pages, blocks, h, Free);
    SetUseCoalesced(pages, blocks, h, Free);
    var orders' := orders[k := [h] + orders[k]];
    forall j | 0 <= j < BUDDY_ORDERS ensures ListOk(orders'[j], b, j) {
      assert ListOk(orders[j], blocks, j);
      if j == k { AppendOk(orders[k], blocks, b, k, h); } else { ListKept(orders[j], blocks, b, j); }
    }
    assert HeadOk(pages, blocks, h);
    forall x ensures HeadOk(pages, b, x) { assert HeadOk(pages, blocks, x); }
    Rebuild(pages, pages, b, orders', npages[k := npages[k] + 1]);
  }

  /** References come and go at the head of a block off the lists. */
  lemma SharesOk(pages: Pages, blocks: Blocks, orders: seq<seq<int>>, npages: seq<int>, h: int, n: nat)
    requires ZoneOk(pages, blocks, orders, npages) && h in blocks && blocks[h].use != Free
    ensures h in pages
    ensures ZoneOk(WithShares(pages, h, n), SetUse(blocks, h, if n > 0 then Allocated else Limbo), orders, npages)
  {
    hide RootsOk, Tiled, Coalesced;
    var use := if n > 0 then Allocated else Limbo;
    HeadBlock(pages, blocks, h);
    var b := SetUse(blocks, h, use);
    SetUseTiled(pages, blocks, h, use);
    SetUseCoalesced(pages, blocks, h, use);
    forall j | 0 <= j < BUDDY_ORDERS ensures ListOk(orders[j], b, j) {
      assert ListOk(orders[j], blocks, j);
      ListKept(orders[j], blocks, b, j);
    }
    forall x ensures HeadOk(WithShares(pages, h, n), b, x) { assert HeadOk(pages, blocks, x); }
    Rebuild(pages, WithShares(pages, h, n), b, orders, npages);
  }

  // Climbing -----------------------------------------------------------------

  /** The merge loop from block `h` of order `k` up to order `m`: does it stop
      at a buddy that has no references and the right order, but is on no list? */
  ghost predicate MeetsLimbo(blocks: Blocks, h: int, k: nat, m: nat)
    decreases m - k
  {
    k < m &&
    var b := Buddy(h, k);
    b in blocks &&
    (blocks[b] == Block(k, Limbo) || (blocks[b] == Block(k, Free) && MeetsLimbo(blocks, Lower(h, k), k + 1, m)))
  }

  /** Merging at the bottom does not change what the loop meets further up. */
  lemma {:induction false} ClimbOn(blocks: Blocks, blocks': Blocks, h: int, k: nat, m: nat)
    requires Aligned(h, k) && (forall x :: !(h <= x < h + Pow2(k)) ==> (x in blocks <==> x in blocks') && (x in blocks ==> blocks[x] == blocks'[x]))
    ensures MeetsLimbo(blocks, h, k, m) <==> MeetsLimbo(blocks', h, k, m)
    decreases m - k
  {
    if k < m {
      BuddyHalves(h, k);
      ClimbOn(blocks, blocks', Lower(h, k), k + 1, m);
    }
  }

  /** One caller at a time: with nothing else in limbo the loop never stops so. */
  lemma {:induction false} NoLimbo(blocks: Blocks, h: int, k: nat, m: nat)
    requires Aligned(h, k) && forall x :: x in blocks && !(h <= x < h + Pow2(k)) ==> blocks[x].use != Limbo
    ensures !MeetsLimbo(blocks, h, k, m)
    decreases m - k
  {
    if k < m {
      BuddyHalves(h, k);
      NoLimbo(blocks, Lower(h, k), k + 1, m);
    }
  }

  class Zone {
    var pages: Pages
    const orders: array<seq<int>>
    const npages: array<int>
    var maxZoneOrder: nat
    var freePages: int      // what this zone adds to `free_pagecnt`
    ghost var blocks: Blocks

    ghost predicate Ok()
      reads this, orders, npages
    {
      orders != (npages as object) && ZoneOk(pages, blocks, orders[..], npages[..])
    }

    ghost predicate Valid()
      reads this, orders, npages
    {
      && Ok() && freePages == FreeFrom(orders[..], 0)
      && forall p :: p in pages ==> pages[p].maxOrder <= maxZoneOrder
    }

    /** `pmm_zone_init`. */
    constructor ()
      ensures Valid() && pages == map[] && fresh(orders) && fresh(npages)
    {
      pages, maxZoneOrder, freePages, blocks := map[], 0, 0, map[];
      orders := new seq<int>[BUDDY_ORDERS](_ => []);
      npages := new int[BUDDY_ORDERS](_ => 0);
      new;
      assert forall k :: 0 <= k < BUDDY_ORDERS ==> ListOk(orders[..][k], blocks, k);
      NoneFree(orders[..], 0);
    }

    /** Take the first block off list `order`. */
    method Take(order: nat) returns (page: int)
      requires Ok() && order < BUDDY_ORDERS && orders[order] != []
      modifies this`blocks, orders, npages
      ensures Ok() && page == old(orders[order][0]) && page in old(blocks) && old(blocks[page]) == Block(order, Free) && page in pages
      ensures blocks == SetUse(old(blocks), page, Limbo) && page in blocks && blocks[page] == Block(order, Limbo)
      ensures page !in Outstanding(old(blocks)) && Outstanding(blocks) == Outstanding(old(blocks))[page := Block(order, Limbo)]
      ensures FreeFrom(orders[..], 0) + Pow2(order) == FreeFrom(old(orders[..]), 0)
    {
      hide ZoneOk, FreeFrom, Pow2, Outstanding;
      Lengths(pages, blocks, orders[..], npages[..]);
      TakeOk(pages, blocks, orders[..], npages[..], order);
      FreeSet(orders[..], 0, order, orders[order][1..]);
      Once(orders[order], Pow2(order));
      OutstandingUse(blocks, orders[order][0], Limbo);
      page := orders[order][0];
      orders[order] := orders[order][1..];
      npages[order] := npages[order] - 1;
      blocks := SetUse(blocks, page, Limbo);
      assert orders[..] == old(orders[..])[order := old(orders[order])[1..]];
      assert npages[..] == old(npages[..])[order := old(npages[order]) - 1];
    }

    /** `zone_alloc`. */
    method ZoneAlloc(desired: nat) returns (page: int, ok: bool)
      requires Valid() && desired < BUDDY_ORDERS
      modifies this, orders, npages
      ensures Valid() && SameRoots(old(pages), pages)
      ensures ok <==> exists g :: FreeBlock(old(blocks), g, desired)
      ensures !ok ==> blocks == old(blocks) && pages == old(pages) && freePages == old(freePages)
      ensures ok ==> exists o: nat :: FirstFit(old(orders[..]), desired, o) && page == old(orders[..])[o][0]
      ensures ok ==> page in pages && pages[page].shares == 1 && page !in Outstanding(old(blocks))
      ensures ok ==> Outstanding(blocks) == Outstanding(old(blocks))[page := Block(desired, Allocated)]
      ensures ok ==> freePages == old(freePages) - Pow2(desired)
    {
      hide ZoneOk, FreeFrom, Pow2, FreeBlock, Outstanding, SetUse;
      Lengths(pages, blocks, orders[..], npages[..]);
      if desired > maxZoneOrder {
        TooLarge(pages, blocks, maxZoneOrder, desired, orders[..], npages[..]);
        return -1, false;
      }
      if npages[desired] > 0 {
        FirstIsFree(pages, blocks, orders[..], npages[..], desired, desired);
        page := Take(desired);
        ok := true;
        Claim(page, desired);
        assert FirstFit(old(orders[..]), desired, desired);
        return;
      }
      var order := desired + 1;
      while order < BUDDY_ORDERS && orders[order] == []
        invariant desired < order <= BUDDY_ORDERS
        invariant forall o :: desired <= o < order ==> orders[o] == []
      {
        order := order + 1;
      }
      if order >= BUDDY_ORDERS {
        NoFreeBlock(pages, blocks, orders[..], npages[..], desired);
        return -1, false;
      }
      FirstIsFree(pages, blocks, orders[..], npages[..], desired, order);
      assert FirstFit(old(orders[..]), desired, order);
      page := Take(order);
      ok := true;
      SplitDown(page, order, desired);
      Claim(page, desired);
    }

    /** The block in hand gets its first reference; `free_pagecnt` is lowered. */
    method Claim(page: int, desired: nat)
      requires Ok() && page in blocks && page in pages && blocks[page] == Block(desired, Limbo)
      requires freePages == FreeFrom(orders[..], 0) + Pow2(desired)
      modifies this`pages, this`freePages, this`blocks
      ensures Ok() && freePages == FreeFrom(orders[..], 0) && freePages == old(freePages) - Pow2(desired)
      ensures blocks == SetUse(old(blocks), page, Allocated) && SameRoots(old(pages), pages)
      ensures pages == WithShares(old(pages), page, 1)
      ensures Outstanding(blocks) == Outstanding(old(blocks))[page := Block(desired, Allocated)]
    {
      hide ZoneOk, FreeFrom, Pow2, Outstanding;
      OutstandingUse(blocks, page, Allocated);
      SharesOk(pages, blocks, orders[..], npages[..], page, 1);
      pages := pages[page := pages[page].(shares := 1)];
      blocks := SetUse(blocks, page, Allocated);
      freePages := freePages - Pow2(desired);
    }

    /** The split loop of `zone_alloc`. */
    method SplitDown(page: int, order0: nat, desired: nat)
      requires Ok() && page in blocks && page in pages && blocks[page] == Block(order0, Limbo) && desired <= order0 < BUDDY_ORDERS
      modifies this`pages, this`blocks, orders, npages
      ensures Ok() && SameRoots(old(pages), pages) && page in blocks && page in pages && blocks[page] == Block(desired, Limbo)
      ensures Outstanding(blocks) == Outstanding(old(blocks))[page := Block(desired, Limbo)]
      ensures FreeFrom(orders[..], 0) + Pow2(desired) == FreeFrom(old(orders[..]), 0) + Pow2(order0)
    {
      hide ZoneOk, FreeFrom, Pow2, SameRoots, Outstanding;
      var order := order0;
      var buddy := page + Pow2(order) / 2;
      Lengths(pages, blocks, orders[..], npages[..]);
      HeadExact(pages, blocks, orders[..], npages[..], page);
      SplitStart(pages, blocks, page);
      while order != desired
        invariant desired <= order <= order0 && page in pages && page in blocks && blocks[page] == Block(order, Limbo)
        invariant ZoneOk(WithOrder(pages, page, order), blocks, orders[..], npages[..])
        invariant SameRoots(old(pages), pages) && buddy == page + Pow2(order) / 2
        invariant Outstanding(blocks) == Outstanding(old(blocks))[page := Block(order, Limbo)]
        invariant FreeFrom(orders[..], 0) + Pow2(order) == FreeFrom(old(orders[..]), 0) + Pow2(order0)
        decreases order
      {
        Pow2Step(order - 1);
        order := order - 1;
        ghost var before := pages;
        PutBuddy(page, buddy, order);
        SameRootsTrans(old(pages), before, pages);
        buddy := page + Pow2(order) / 2;
      }
      SplitEnd(pages, page, desired);
      pages := pages[page := pages[page].(order := desired)];
    }

    /** One turn of the split loop: the upper half goes to the tail of its list. */
    method PutBuddy(page: int, buddy: int, order: nat)
      requires page in pages && page in blocks && blocks[page] == Block(order + 1, Limbo) && order + 1 < BUDDY_ORDERS
      requires ZoneOk(WithOrder(pages, page, order + 1), blocks, orders[..], npages[..]) && orders != (npages as object)
      requires buddy == page + Pow2(order)
      modifies this`pages, this`blocks, orders, npages
      ensures page in pages && blocks == Split(old(blocks), page) && SameRoots(old(pages), pages)
      ensures ZoneOk(WithOrder(pages, page, order), blocks, orders[..], npages[..])
      ensures Outstanding(blocks) == Outstanding(old(blocks))[page := Block(order, Limbo)]
      ensures FreeFrom(orders[..], 0) == FreeFrom(old(orders[..]), 0) + Pow2(order)
    {
      hide ZoneOk, FreeFrom, Pow2, Outstanding;
      Lengths(WithOrder(pages, page, order + 1), blocks, orders[..], npages[..]);
      SplitOk(WithOrder(pages, page, order + 1), blocks, orders[..], npages[..], page);
      SplitOutstanding(WithOrder(pages, page, order + 1), blocks, orders[..], npages[..], page);
      FreeSet(orders[..], 0, order, orders[order] + [buddy]);
      orders[order] := orders[order] + [buddy];
      npages[order] := npages[order] + 1;
      pages := pages[buddy := pages[buddy].(order := order)];
      blocks := Split(blocks, page);
      assert orders[..] == old(orders[..])[order := old(orders[order]) + [buddy]];
      assert npages[..] == old(npages[..])[order := old(npages[order]) + 1];
      assert WithOrder(pages, page, order) == WithOrder(WithOrder(WithOrder(old(pages), page, order + 1), buddy, order), page, order);
    }

    // Giving back ----------------------------------------------------------

    /** `page_ref`. */
    method Ref(page: int)
      requires Valid() && page in blocks && blocks[page].use == Allocated
      modifies this`pages, this`blocks
      ensures Valid() && page in old(pages) && pages == WithShares(old(pages), page, old(pages[page].shares) + 1) && blocks == old(blocks)
    {
      hide ZoneOk, FreeFrom;
      HeadIn(pages, blocks, orders[..], npages[..], page);
      SharesOk(pages, blocks, orders[..], npages[..], page, pages[page].shares + 1);
      pages := pages[page := pages[page].(shares := pages[page].shares + 1)];
      blocks := SetUse(blocks, page, Allocated);
    }

    /** The decrement of `page_deref`: the last one leaves the block in limbo,
        for this caller to hand to `zone_free`. */
    method Deref(page: int) returns (last: bool)
      requires Valid() && page in blocks && blocks[page].use == Allocated
      modifies this`pages, this`blocks
      ensures Valid() && page in pages && page in old(pages) && old(pages[page].shares) >= 1
      ensures pages == WithShares(old(pages), page, old(pages[page].shares) - 1)
      ensures last <==> old(pages[page].shares) == 1
      ensures blocks == if last then SetUse(old(blocks), page, Limbo) else old(blocks)
      ensures SameRoots(old(pages), pages)
    {
      hide ZoneOk, FreeFrom;
      HeadIn(pages, blocks, orders[..], npages[..], page);
      HeadExact(pages, blocks, orders[..], npages[..], page);
      SharesOk(pages, blocks, orders[..], npages[..], page, pages[page].shares - 1);
      last := pages[page].shares == 1;
      pages := pages[page := pages[page].(shares := pages[page].shares - 1)];
      blocks := SetUse(blocks, page, if last then Limbo else Allocated);
    }

    /** `zone_free`; `ok` is false where it stops on "buddy page not on list". */
    method ZoneFree(page0: int, order0: nat) returns (ok: bool)
      requires Valid() && page0 in blocks && page0 in pages && blocks[page0] == Block(order0, Limbo)
      modifies this`pages, this`blocks, this`freePages, orders, npages
      ensures ok <==> !MeetsLimbo(old(blocks), page0, order0, old(pages[page0].maxOrder))
      ensures ok ==> Valid() && SameRoots(old(pages), pages)
      ensures ok ==> Outstanding(blocks) == Outstanding(old(blocks)) - {page0}
      ensures ok ==> freePages == old(freePages) + Pow2(order0)
    {
      hide ZoneOk, FreeFrom, Pow2, Outstanding, SetUse, Buddy, Lower, Aligned;
      var page, order := page0, order0;
      ghost var m := pages[page].maxOrder;
      Lengths(pages, blocks, orders[..], npages[..]);
      FreeStart(pages, blocks, page0);
      while order < pages[page].maxOrder
        invariant Ok() && page in pages && page in blocks && blocks[page] == Block(order, Limbo) && pages[page].maxOrder == m
        invariant MeetsLimbo(blocks, page, order, m) <==> MeetsLimbo(old(blocks), page0, order0, m)
        invariant SameRoots(old(pages), pages)
        invariant page !in Outstanding(old(blocks)) - {page0}
        invariant Outstanding(blocks) == (Outstanding(old(blocks)) - {page0})[page := Block(order, Limbo)]
        invariant freePages == old(freePages) == FreeFrom(orders[..], 0) + Pow2(order) - Pow2(order0)
        decreases m - order
      {
        var buddy := Buddy(page, order);
        BuddyTest(pages, blocks, orders[..], npages[..], page);
        if pages[buddy].shares > 0 || pages[buddy].order != pages[page].order {
          break;
        }
        if buddy !in orders[order] {
          return false;
        }
        page := MergeUp(page, buddy, order);
        order := order + 1;
      }
      PutBack(page, order);
      MapDrop(Outstanding(old(blocks)) - {page0}, page, Block(order, Limbo));
      ok := true;
      freePages := freePages + Pow2(order0);
    }

    /** One turn of the merge loop. */
    method MergeUp(page: int, buddy: int, order: nat) returns (lower: int)
      requires Ok() && page in pages && page in blocks && blocks[page] == Block(order, Limbo) && order < pages[page].maxOrder
      requires buddy == Buddy(page, order) && buddy in blocks && blocks[buddy] == Block(order, Free)
      modifies this`pages, this`blocks, orders, npages
      ensures Ok() && lower == Lower(page, order) && lower in pages && lower in blocks && blocks[lower] == Block(order + 1, Limbo)
      ensures pages[lower].maxOrder == old(pages[page].maxOrder) && SameRoots(old(pages), pages)
      ensures MeetsLimbo(blocks, lower, order + 1, pages[lower].maxOrder) <==> MeetsLimbo(old(blocks), lower, order + 1, pages[lower].maxOrder)
      ensures lower == page || lower !in Outstanding(old(blocks))
      ensures Outstanding(blocks) == (Outstanding(old(blocks)) - {page})[lower := Block(order + 1, Limbo)]
      ensures FreeFrom(orders[..], 0) + Pow2(order + 1) == FreeFrom(old(orders[..]), 0) + Pow2(order)
    {
      hide ZoneOk, FreeFrom, Pow2, Outstanding, Buddy, Lower, Merge, MeetsLimbo;
      Lengths(pages, blocks, orders[..], npages[..]);
      MergeOk(pages, blocks, orders[..], npages[..], page);
      MergeOutstanding(pages, blocks, orders[..], npages[..], page);
      HeadExact(pages, blocks, orders[..], npages[..], page);
      HeadExact(pages, blocks, orders[..], npages[..], buddy);
      FreeSet(orders[..], 0, order, Without(orders[order], buddy));
      RemoveCount(pages, blocks, orders[..], npages[..], order, buddy);
      Pow2Step(order);
      lower := if buddy < page then buddy else page;
      LowerIs(page, order);
      npages[order] := npages[order] - 1;
      orders[order] := Without(orders[order], buddy);
      pages := pages[buddy := pages[buddy].(order := pages[buddy].order + 1)];
      pages := pages[page := pages[page].(order := pages[page].order + 1)];
      blocks := Merge(blocks, page);
      assert orders[..] == old(orders[..])[order := Without(old(orders[order]), buddy)];
      assert npages[..] == old(npages[..])[order := old(npages[order]) - 1];
    }

    /** The end of `zone_free`: the block goes to the head of its list. */
    method PutBack(page: int, order: nat)
      requires Ok() && page in pages && page in blocks && blocks[page] == Block(order, Limbo)
      requires order < pages[page].maxOrder ==> !(Buddy(page, order) in blocks && blocks[Buddy(page, order)] == Block(order, Free))
      modifies this`blocks, orders, npages
      ensures Ok() && pages[page].order == order && blocks == SetUse(old(blocks), page, Free)
      ensures Outstanding(blocks) == Outstanding(old(blocks)) - {page}
      ensures FreeFrom(orders[..], 0) == FreeFrom(old(orders[..]), 0) + Pow2(order)
    {
      hide ZoneOk, FreeFrom, Pow2, Outstanding, Buddy, SetUse;
      Lengths(pages, blocks, orders[..], npages[..]);
      PutOk(pages, blocks, orders[..], npages[..], page);
      OutstandingUse(blocks, page, Free);
      FreeSet(orders[..], 0, order, [page] + orders[order]);
      npages[order] := npages[order] + 1;
      orders[order] := [page] + orders[order];
      blocks := SetUse(blocks, page, Free);
      assert orders[..] == old(orders[..])[order := [page] + old(orders[order])];
      assert npages[..] == old(npages[..])[order := old(npages[order]) + 1];
    }

    /** `page_deref` by a single caller: the page is either still referenced, or
        its block is back among the free ones. */
    method Release(page: int) returns (ok: bool)
      requires Valid() && page in blocks && blocks[page].use == Allocated
      requires forall h :: h in blocks ==> blocks[h].use != Limbo
      modifies this, orders, npages
      ensures ok && Valid() && SameRoots(old(pages), pages) && page in old(pages)
      ensures old(pages[page].shares) > 1 ==> blocks == old(blocks) && freePages == old(freePages)
      ensures old(pages[page].shares) == 1 ==> Outstanding(blocks) == Outstanding(old(blocks)) - {page}
      ensures old(pages[page].shares) == 1 ==> freePages == old(freePages) + Pow2(old(blocks[page].order))
    {
      hide ZoneOk, FreeFrom, Pow2, Outstanding;
      HeadIn(pages, blocks, orders[..], npages[..], page);
      HeadExact(pages, blocks, orders[..], npages[..], page);
      ghost var before := pages;
      var last := Deref(page);
      ok := true;
      if last {
        ghost var mid := pages;
        OutstandingUse(old(blocks), page, Limbo);
        OutstandingDrop(old(blocks), page, Block(old(blocks[page].order), Limbo));
        NoLimbo(blocks, page, blocks[page].order, pages[page].maxOrder);
        ok := ZoneFree(page, pages[page].order);
        SameRootsTrans(before, mid, pages);
      }
    }

    /** `pmm_add_region` for the pages `[base, end)`, of which the first `used`
        hold the descriptor. */
    method AddRegion(base: int, used: nat, end: int)
      requires Valid() && base + used <= end && forall p :: base <= p < end ==> p !in pages
      modifies this, orders, npages
      ensures Valid() && Outstanding(blocks) == Outstanding(old(blocks))
      ensures forall p :: p in pages <==> p in old(pages) || base + used <= p < end
      ensures forall p :: p in old(pages) ==> pages[p] == old(pages)[p]
      ensures forall p :: base + used <= p < end ==> Greedy(Base(p, pages[p].maxOrder), end, pages[p].maxOrder)
      ensures freePages == old(freePages) + (end - base - used)
    {
      hide ZoneOk, FreeFrom, Pow2, Outstanding, Base, Aligned, Greedy, AddPages;
      Lengths(pages, blocks, orders[..], npages[..]);
      freePages := freePages + (end - base - used);
      var i := base + used;
      while i < end
        invariant base + used <= i <= end && Ok() && Outstanding(blocks) == Outstanding(old(blocks))
        invariant forall p :: p in pages <==> p in old(pages) || base + used <= p < i
        invariant forall p :: p in old(pages) ==> pages[p] == old(pages)[p]
        invariant forall p :: base + used <= p < i ==> Greedy(Base(p, pages[p].maxOrder), end, pages[p].maxOrder)
        invariant forall p :: p in pages ==> pages[p].maxOrder <= maxZoneOrder
        invariant freePages == old(freePages) + (end - base - used)
        invariant old(freePages) + (i - base - used) == FreeFrom(orders[..], 0)
        decreases end - i
      {
        var maxOrder := ChooseOrder(i, end);
        Lengths(pages, blocks, orders[..], npages[..]);
        maxZoneOrder := if maxOrder > maxZoneOrder then maxOrder else maxZoneOrder;
        AddBlock(i, maxOrder);
        forall p | i <= p < i + Pow2(maxOrder) ensures Base(p, maxOrder) == i {
          BaseIs(p, i, maxOrder);
        }
        i := i + Pow2(maxOrder);
      }
    }

    /** The block at `i`: its pages, its place on the list. */
    method AddBlock(i: int, order: nat)
      requires Ok() && order < BUDDY_ORDERS && Aligned(i, order)
      requires forall p :: i <= p < i + Pow2(order) ==> p !in pages
      modifies this`pages, this`blocks, orders, npages
      ensures Ok() && Outstanding(blocks) == Outstanding(old(blocks))
      ensures pages == AddPages(old(pages), i, i + Pow2(order), order)
      ensures FreeFrom(orders[..], 0) == FreeFrom(old(orders[..]), 0) + Pow2(order)
    {
      hide ZoneOk, FreeFrom, Pow2, Outstanding, Aligned, AddPages;
      Lengths(pages, blocks, orders[..], npages[..]);
      AddBlockOk(pages, blocks, orders[..], npages[..], i, order);
      FreeSet(orders[..], 0, order, orders[order] + [i]);
      NewFree(blocks, i, order);
      AddNone(pages, i, order);
      var j := i;
      while j < i + Pow2(order)
        modifies this`pages
        invariant i <= j <= i + Pow2(order) && pages == AddPages(old(pages), i, j, order)
      {
        AddOne(old(pages), i, j, order);
        pages := pages[j := Page(0, order, order)];
        j := j + 1;
      }
      orders[order] := orders[order] + [i];
      npages[order] := npages[order] + 1;
      blocks := blocks[i := Block(order, Free)];
      assert orders[..] == old(orders[..])[order := old(orders[order]) + [i]];
      assert npages[..] == old(npages[..])[order := old(npages[order]) + 1];
    }
  }

  /** The choice of `pmm_add_region`: the largest aligned block that ends before
      `end`, strictly, unless it is a single page. */
  ghost predicate Greedy(i: int, end: int, order: nat) {
    && order < BUDDY_ORDERS && Aligned(i, order) && (order > 0 ==> i + Pow2(order) < end)
    && (order == BUDDY_ORDERS - 1 || !Aligned(i, order + 1) || i + Pow2(order + 1) >= end)
  }

  method ChooseOrder(i: int, end: int) returns (maxOrder: nat)
    requires i < end
    ensures Greedy(i, end, maxOrder) && i + Pow2(maxOrder) <= end
  {
    maxOrder := 0;
    while maxOrder < BUDDY_ORDERS - 1 && i + Pow2(maxOrder + 1) < end && Aligned(i, maxOrder + 1)
      invariant maxOrder < BUDDY_ORDERS && Aligned(i, maxOrder)
      invariant maxOrder > 0 ==> i + Pow2(maxOrder) < end
    {
      maxOrder := maxOrder + 1;
    }
  }

  function AddPages(pages: Pages, i: int, j: int, order: nat): (r: Pages)
    ensures forall p :: p in r <==> p in pages || i <= p < j
    ensures forall p :: p in r ==> r[p] == if i <= p < j then Page(0, order, order) else pages[p]
    decreases j - i
  {
    if j <= i then pages else AddPages(pages, i, j - 1, order)[j - 1 := Page(0, order, order)]
  }

  lemma AddNone(pages: Pages, i: int, order: nat)
    ensures AddPages(pages, i, i, order) == pages
  {
  }

  lemma AddOne(pages: Pages, i: int, j: int, order: nat)
    requires i <= j
    ensures AddPages(pages, i, j + 1, order) == AddPages(pages, i, j, order)[j := Page(0, order, order)]
  {
  }

  lemma NewFree(blocks: Blocks, i: int, order: nat)
    requires i in blocks ==> blocks[i].use == Free
    ensures Outstanding(blocks[i := Block(order, Free)]) == Outstanding(blocks)
  {
  }

  lemma BaseIs(p: int, i: int, k: nat)
    requires Aligned(i, k) && i <= p < i + Pow2(k)
    ensures Base(p, k) == i
  {
    BaseAligned(p, k);
    Nested(Base(p, k), k, i, k, p);
  }

  /** A new root block, whole and free. */
  lemma AddBlockOk(pages: Pages, blocks: Blocks, orders: seq<seq<int>>, npages: seq<int>, i: int, k: nat)
    requires ZoneOk(pages, blocks, orders, npages) && k < BUDDY_ORDERS && Aligned(i, k)
    requires forall p :: i <= p < i + Pow2(k) ==> p !in pages
    ensures i !in blocks
    ensures ZoneOk(AddPages(pages, i, i + Pow2(k), k), blocks[i := Block(k, Free)], orders[k := orders[k] + [i]], npages[k := npages[k] + 1])
  {
    hide RootsOk, Tiled, Coalesced, Aligned, Pow2, AddPages, Grown;
    NewBlock(pages, blocks, i, k);
    var pages', blocks', orders' := AddPages(pages, i, i + Pow2(k), k), blocks[i := Block(k, Free)], orders[k := orders[k] + [i]];
    AddRoots(pages, i, k);
    AddTiled(pages, blocks, i, k);
    AddGrown(pages, i, k);
    LoneStill(pages, pages', blocks, i, k);
    forall j | 0 <= j < BUDDY_ORDERS ensures ListOk(orders'[j], blocks', j) {
      assert ListOk(orders[j], blocks, j);
      if j == k { AppendOk(orders[k], blocks, blocks', k, i); } else { ListKept(orders[j], blocks, blocks', j); }
    }
    forall x ensures HeadOk(pages', blocks', x) { AddHead(pages, blocks, i, k, x); }
    SplitEnd'(pages');
    Rebuild(pages', pages', blocks', orders', npages[k := npages[k] + 1]);
  }

  lemma SplitEnd'(pages: Pages)
    ensures SameRoots(pages, pages)
  {
  }

  lemma NewBlock(pages: Pages, blocks: Blocks, i: int, k: nat)
    requires Tiled(pages, blocks) && forall p :: i <= p < i + Pow2(k) ==> p !in pages
    ensures i !in blocks && i !in pages
  {
    assert BlockOk(pages, blocks, i);
  }

  lemma AddHead(pages: Pages, blocks: Blocks, i: int, k: nat, x: int)
    requires HeadOk(pages, blocks, x) && Tiled(pages, blocks) && forall p :: i <= p < i + Pow2(k) ==> p !in pages
    ensures HeadOk(AddPages(pages, i, i + Pow2(k), k), blocks[i := Block(k, Free)], x)
  {
    assert BlockOk(pages, blocks, x);
  }

  lemma AddRoots(pages: Pages, i: int, k: nat)
    requires RootsOk(pages) && k < BUDDY_ORDERS && Aligned(i, k) && forall p :: i <= p < i + Pow2(k) ==> p !in pages
    ensures RootsOk(AddPages(pages, i, i + Pow2(k), k))
  {
    hide Aligned, Base, Pow2, AddPages;
    var pages' := AddPages(pages, i, i + Pow2(k), k);
    forall p, q | p in pages' && Base(p, pages'[p].maxOrder) <= q < Base(p, pages'[p].maxOrder) + Pow2(pages'[p].maxOrder)
      ensures q in pages' && pages'[q].maxOrder == pages'[p].maxOrder
    {
      AddRoot(pages, i, k, p, q);
    }
  }

  lemma AddRoot(pages: Pages, i: int, k: nat, p: int, q: int)
    requires RootsOk(pages) && Aligned(i, k) && (forall x :: i <= x < i + Pow2(k) ==> x !in pages)
    requires var pages' := AddPages(pages, i, i + Pow2(k), k);
             p in pages' && Base(p, pages'[p].maxOrder) <= q < Base(p, pages'[p].maxOrder) + Pow2(pages'[p].maxOrder)
    ensures var pages' := AddPages(pages, i, i + Pow2(k), k);
            q in pages' && pages'[q].maxOrder == pages'[p].maxOrder
  {
    hide Aligned, Base, Pow2, AddPages;
    if i <= p < i + Pow2(k) {
      BaseIs(p, i, k);
    } else {
      assert q in pages;
    }
  }

  lemma AddTiled(pages: Pages, blocks: Blocks, i: int, k: nat)
    requires RootsOk(pages) && Tiled(pages, blocks) && Aligned(i, k) && forall p :: i <= p < i + Pow2(k) ==> p !in pages
    ensures Tiled(AddPages(pages, i, i + Pow2(k), k), blocks[i := Block(k, Free)])
  {
    hide Aligned, Pow2, RootsOk, AddPages;
    var pages', blocks' := AddPages(pages, i, i + Pow2(k), k), blocks[i := Block(k, Free)];
    NewBlock(pages, blocks, i, k);
    forall x ensures BlockOk(pages', blocks', x) { assert BlockOk(pages, blocks, x); }
    forall x, p ensures In(blocks', x, p) <==> if x == i then i <= p < i + Pow2(k) else In(blocks, x, p) && p in pages {
      if In(blocks, x, p) { InPages(pages, blocks, x, p); }
    }
    forall p | p in pages' ensures exists x :: In(blocks', x, p) {
      if p in pages {
        var x :| In(blocks, x, p);
        assert In(blocks', x, p);
      } else {
        assert In(blocks', i, p);
      }
    }
  }

  lemma InPages(pages: Pages, blocks: Blocks, x: int, p: int)
    requires RootsOk(pages) && Tiled(pages, blocks) && In(blocks, x, p)
    ensures p in pages
  {
    assert BlockOk(pages, blocks, x);
    InRoot(pages, x, blocks[x].order, p);
  }

  /** Every page keeps its region. */
  ghost predicate Grown(pages: Pages, pages': Pages) {
    forall p :: p in pages ==> p in pages' && pages'[p].maxOrder == pages[p].maxOrder
  }

  lemma AddGrown(pages: Pages, i: int, k: nat)
    requires forall p :: i <= p < i + Pow2(k) ==> p !in pages
    ensures Grown(pages, AddPages(pages, i, i + Pow2(k), k))
    ensures i in AddPages(pages, i, i + Pow2(k), k) && AddPages(pages, i, i + Pow2(k), k)[i].maxOrder == k
  {
    hide AddPages, Pow2;
  }

  lemma LoneStill(pages: Pages, pages': Pages, blocks: Blocks, i: int, k: nat)
    requires RootsOk(pages) && Tiled(pages, blocks) && Coalesced(pages, blocks) && i !in blocks
    requires i in pages' && pages'[i].maxOrder == k && Grown(pages, pages')
    ensures Coalesced(pages', blocks[i := Block(k, Free)])
  {
    hide RootsOk, Tiled, LoneAt, Buddy, Grown;
    var blocks' := blocks[i := Block(k, Free)];
    forall x ensures LoneAt(pages', blocks', x) {
      LoneStillAt(pages, pages', blocks, i, k, x);
    }
  }

  lemma LoneStillAt(pages: Pages, pages': Pages, blocks: Blocks, i: int, k: nat, x: int)
    requires RootsOk(pages) && Tiled(pages, blocks) && LoneAt(pages, blocks, x) && i !in blocks && i in pages' && pages'[i].maxOrder == k
    requires Grown(pages, pages')
    ensures LoneAt(pages', blocks[i := Block(k, Free)], x)
  {
    hide RootsOk, Tiled, Buddy;
    if x in blocks {
      HeadBlock(pages, blocks, x);
      if blocks[x].order < pages[x].maxOrder { BuddyIsHead(pages, blocks, x); }
    }
  }

  lemma Once(list: seq<int>, x: int)
    requires list != []
    ensures (|list[1..]| - |list|) * x == -x
  {
  }

  lemma Lengths(pages: Pages, blocks: Blocks, orders: seq<seq<int>>, npages: seq<int>)
    requires ZoneOk(pages, blocks, orders, npages)
    ensures |orders| == |npages| == BUDDY_ORDERS && forall k :: 0 <= k < BUDDY_ORDERS ==> npages[k] == |orders[k]|
  {
  }

  lemma HeadExact(pages: Pages, blocks: Blocks, orders: seq<seq<int>>, npages: seq<int>, h: int)
    requires ZoneOk(pages, blocks, orders, npages) && h in blocks && h in pages
    ensures pages[h].order == blocks[h].order && WithOrder(pages, h, blocks[h].order) == pages
    ensures pages[h].shares > 0 <==> blocks[h].use == Allocated
  {
    assert HeadOk(pages, blocks, h);
  }

  lemma SplitStart(pages: Pages, blocks: Blocks, h: int)
    requires h in blocks && blocks[h].use == Limbo
    ensures SameRoots(pages, pages) && Outstanding(blocks) == Outstanding(blocks)[h := blocks[h]]
  {
  }

  lemma SameRootsTrans(p: Pages, q: Pages, r: Pages)
    requires SameRoots(p, q) && SameRoots(q, r)
    ensures SameRoots(p, r)
  {
  }

  lemma OutstandingUse(blocks: Blocks, h: int, use: Use)
    requires h in blocks
    ensures h in Outstanding(blocks) <==> blocks[h].use != Free
    ensures use != Free ==> Outstanding(SetUse(blocks, h, use)) == Outstanding(blocks)[h := Block(blocks[h].order, use)]
    ensures use == Free ==> Outstanding(SetUse(blocks, h, use)) == Outstanding(blocks) - {h}
  {
  }

  lemma OutstandingDrop(blocks: Blocks, h: int, b: Block)
    ensures Outstanding(blocks)[h := b] - {h} == Outstanding(blocks) - {h}
  {
  }

  lemma MapDrop(m: Blocks, h: int, b: Block)
    requires h !in m
    ensures m[h := b] - {h} == m
  {
  }

  lemma HeadIn(pages: Pages, blocks: Blocks, orders: seq<seq<int>>, npages: seq<int>, h: int)
    requires ZoneOk(pages, blocks, orders, npages) && h in blocks
    ensures h in pages && Aligned(h, blocks[h].order)
  {
    assert BlockOk(pages, blocks, h);
  }

  lemma FreeStart(pages: Pages, blocks: Blocks, h: int)
    requires h in blocks && blocks[h].use != Free
    ensures SameRoots(pages, pages) && Outstanding(blocks) == (Outstanding(blocks) - {h})[h := blocks[h]]
  {
  }

  lemma LowerIs(h: int, k: nat)
    ensures Lower(h, k) == if Buddy(h, k) < h then Buddy(h, k) else h
  {
  }

  /** The test on the metadata of the buddy page finds out exactly whether it
      heads a block of the same order without references. */
  lemma BuddyTest(pages: Pages, blocks: Blocks, orders: seq<seq<int>>, npages: seq<int>, h: int)
    requires ZoneOk(pages, blocks, orders, npages) && h in blocks && h in pages && blocks[h].use == Limbo
    requires blocks[h].order < pages[h].maxOrder
    ensures var k := blocks[h].order;
            var b := Buddy(h, k);
            && b in pages && pages[b].maxOrder == pages[h].maxOrder && k < BUDDY_ORDERS && |orders| == BUDDY_ORDERS
            && (pages[b].shares == 0 && pages[b].order == pages[h].order <==> b in blocks && blocks[b].order == k && blocks[b].use != Allocated)
            && (b in orders[k] <==> b in blocks && blocks[b] == Block(k, Free))
  {
    hide Buddy, Pow2;
    BuddyIsHead(pages, blocks, h);
    var b := Buddy(h, blocks[h].order);
    assert HeadOk(pages, blocks, h) && HeadOk(pages, blocks, b);
    assert ListOk(orders[blocks[h].order], blocks, blocks[h].order);
  }

  lemma MergeOutstanding(pages: Pages, blocks: Blocks, orders: seq<seq<int>>, npages: seq<int>, h: int)
    requires ZoneOk(pages, blocks, orders, npages) && h in blocks && h in pages && blocks[h].use == Limbo
    requires blocks[h].order < pages[h].maxOrder
    requires var b := Buddy(h, blocks[h].order); b in blocks && blocks[b] == Block(blocks[h].order, Free)
    ensures var k := blocks[h].order;
            var lo := Lower(h, k);
            && lo in Merge(blocks, h) && Merge(blocks, h)[lo] == Block(k + 1, Limbo) && (lo == h || lo !in Outstanding(blocks))
            && Outstanding(Merge(blocks, h)) == (Outstanding(blocks) - {h})[lo := Block(k + 1, Limbo)]
            && (MeetsLimbo(Merge(blocks, h), lo, k + 1, pages[h].maxOrder) <==> MeetsLimbo(blocks, lo, k + 1, pages[h].maxOrder))
  {
    hide ZoneOk, Pow2, Aligned, MeetsLimbo, Buddy;
    HeadIn(pages, blocks, orders, npages, h);
    var k := blocks[h].order;
    var lo := Lower(h, k);
    BuddyHalves(h, k);
    Pow2Step(k);
    ClimbOn(blocks, Merge(blocks, h), lo, k + 1, pages[h].maxOrder);
  }

  lemma RemoveCount(pages: Pages, blocks: Blocks, orders: seq<seq<int>>, npages: seq<int>, k: nat, x: int)
    requires ZoneOk(pages, blocks, orders, npages) && k < BUDDY_ORDERS && x in orders[k]
    ensures (|Without(orders[k], x)| - |orders[k]|) * Pow2(k) == -1 * Pow2(k)
  {
    assert ListOk(orders[k], blocks, k);
    WithoutOk(orders[k], x);
  }

  lemma SplitEnd(pages: Pages, h: int, k: nat)
    requires h in pages
    ensures SameRoots(pages, WithOrder(pages, h, k))
    ensures forall p :: SameRoots(p, pages) ==> SameRoots(p, WithOrder(pages, h, k))
  {
  }

  lemma SplitOutstanding(pages: Pages, blocks: Blocks, orders: seq<seq<int>>, npages: seq<int>, h: int)
    requires ZoneOk(pages, blocks, orders, npages) && h in blocks && blocks[h].use == Limbo && blocks[h].order > 0
    ensures Outstanding(Split(blocks, h)) == Outstanding(blocks)[h := Block(blocks[h].order - 1, Limbo)]
  {
    SplitTiled(pages, blocks, h);
  }

  /** List `o` is the first from `k` on that is not empty. */
  ghost predicate FirstFit(orders: seq<seq<int>>, k: nat, o: nat) {
    k <= o < |orders| && orders[o] != [] && forall j :: k <= j < o ==> orders[j] == []
  }

  lemma NoFreeBlock(pages: Pages, blocks: Blocks, orders: seq<seq<int>>, npages: seq<int>, k: nat)
    requires ZoneOk(pages, blocks, orders, npages) && forall o :: k <= o < BUDDY_ORDERS ==> orders[o] == []
    ensures !exists g :: FreeBlock(blocks, g, k)
  {
    forall g ensures !FreeBlock(blocks, g, k) {
      assert BlockOk(pages, blocks, g);
      if g in blocks && blocks[g].order >= k {
        assert ListOk(orders[blocks[g].order], blocks, blocks[g].order);
      }
    }
  }

  lemma TooLarge(pages: Pages, blocks: Blocks, max: nat, k: nat, orders: seq<seq<int>>, npages: seq<int>)
    requires ZoneOk(pages, blocks, orders, npages) && k > max && forall p :: p in pages ==> pages[p].maxOrder <= max
    ensures !exists g :: FreeBlock(blocks, g, k)
  {
    forall g ensures !FreeBlock(blocks, g, k) { assert BlockOk(pages, blocks, g); }
  }

  lemma FirstIsFree(pages: Pages, blocks: Blocks, orders: seq<seq<int>>, npages: seq<int>, k: nat, o: nat)
    requires ZoneOk(pages, blocks, orders, npages) && k <= o < BUDDY_ORDERS && orders[o] != []
    ensures FreeBlock(blocks, orders[o][0], k)
  {
    assert ListOk(orders[o], blocks, o);
  }

  lemma {:induction false} NoneFree(orders: seq<seq<int>>, k: nat)
    requires |orders| == BUDDY_ORDERS && k <= BUDDY_ORDERS && forall j :: 0 <= j < BUDDY_ORDERS ==> orders[j] == []
    ensures FreeFrom(orders, k) == 0
    decreases BUDDY_ORDERS - k
  {
    if k < BUDDY_ORDERS { NoneFree(orders, k + 1); }
  }

  // Regions --------------------------------------------------------------------

  /** The pages `[base, end)` of a region, as the region list keeps them. */
  datatype Region = Region(base: int, end: int)

  ghost predicate Sorted(regions: seq<Region>) {
    && (forall i :: 0 <= i < |regions| ==> regions[i].base < regions[i].end)
    && (forall i, j :: 0 <= i < j < |regions| ==> regions[i].end <= regions[j].base)
  }

  /** `lookup_region`, in bytes: the first region whose base is not above `addr`
      and whose end is not below it. */
  method LookupRegion(regions: seq<Region>, addr: int) returns (found: int)
    ensures IsLookup(regions, addr, found)
  {
    found := 0;
    while found < |regions|
      invariant 0 <= found <= |regions|
      invariant forall i :: 0 <= i < found ==> !(regions[i].base <= addr <= regions[i].end)
    {
      if addr >= regions[found].base && addr <= regions[found].end { return; }
      found := found + 1;
    }
    found := -1;
  }

  ghost predicate IsLookup(regions: seq<Region>, addr: int, found: int) {
    && -1 <= found < |regions|
    && (forall i :: 0 <= i < (if found == -1 then |regions| else found) ==> !(regions[i].base <= addr <= regions[i].end))
    && (found != -1 ==> regions[found].base <= addr <= regions[found].end)
  }

  /** The lookup is off by one: it finds the region an address lies in (or none)
      exactly for addresses that are not the end of a region. */
  lemma LookupExact(regions: seq<Region>, addr: int, found: int)
    requires Sorted(regions) && IsLookup(regions, addr, found)
    ensures (if found == -1 then forall i :: 0 <= i < |regions| ==> !(regions[i].base <= addr < regions[i].end)
             else regions[found].base <= addr < regions[found].end)
            <==> forall i :: 0 <= i < |regions| ==> addr != regions[i].end
  {
    if found != -1 {
      forall i | 0 <= i < |regions| && i != found ensures addr < regions[found].end ==> addr != regions[i].end {
        if i < found { assert regions[i].end <= regions[found].base; } else { assert regions[found].end <= regions[i].base; }
      }
    }
  }

  // A panic ------------------------------------------------------------------------

  /** A page in no outstanding block, when all of those are single pages, is free. */
  lemma SomeFree(pages: Pages, blocks: Blocks, p: int)
    requires Tiled(pages, blocks) && p in pages && p !in Outstanding(blocks)
    requires forall h :: h in Outstanding(blocks) ==> blocks[h].order == 0
    ensures exists g :: FreeBlock(blocks, g, 0)
  {
    assert Pow2(0) == 1;
    var g :| In(blocks, g, p);
    assert g in Outstanding(blocks) ==> g == p;
    assert FreeBlock(blocks, g, 0);
  }

  /** The region of pages 0 to 2 is handed in as the pair 0 and 1, and page 2. */
  lemma PairOrder(pages: Pages)
    requires 0 in pages && Greedy(Base(0, pages[0].maxOrder), 3, pages[0].maxOrder)
    ensures pages[0].maxOrder == 1 && Buddy(0, 0) == 1
  {
    hide Greedy, Base, Pow2;
    BaseZero(pages[0].maxOrder);
    GreedyThree(pages[0].maxOrder);
    assert Pow2(0) == 1 by { Small(); }
  }

  lemma BaseZero(m: nat)
    ensures Base(0, m) == 0 && Aligned(0, m)
  {
  }

  lemma Small()
    ensures Pow2(0) == 1 && Pow2(1) == 2 && Pow2(2) == 4
  {
  }

  lemma GreedyThree(m: nat)
    requires Greedy(0, 3, m)
    ensures m == 1
  {
    hide Aligned, Pow2;
    Small();
    BaseZero(1);
    if m > 1 { Least(m); }
  }

  lemma {:induction false} Least(m: nat)
    requires m >= 2
    ensures Pow2(m) >= 4
  {
    if m > 2 { Least(m - 1); } else { assert Pow2(1) == 2; }
  }

  function InLimbo(pages: set<int>): Blocks {
    map p | p in pages :: Block(0, Limbo)
  }

  /** One more page is allocated and dereferenced for the last time. */
  method TakeAndDrop(z: Zone, ghost taken: set<int>) returns (page: int)
    requires z.Valid() && Outstanding(z.blocks) == InLimbo(taken) && exists p :: p in z.pages && p !in taken
    modifies z, z.orders, z.npages
    ensures z.Valid() && SameRoots(old(z.pages), z.pages)
    ensures page in z.pages && page !in taken && Outstanding(z.blocks) == InLimbo(taken + {page})
  {
    hide RootsOk, Coalesced, HeadOk, ListsOk, FreeFrom;
    ghost var p :| p in z.pages && p !in taken;
    SomeFree(z.pages, z.blocks, p);
    var ok;
    page, ok := z.ZoneAlloc(0);
    assert page in Outstanding(z.blocks);
    OutstandingUse(z.blocks, page, Limbo);
    var _ := z.Deref(page);
    assert InLimbo(taken)[page := Block(0, Limbo)] == InLimbo(taken + {page});
  }

  /** The three pages of a region are allocated and dereferenced for the last time.
      Then page 0 is freed first: the merge finds its buddy, page 1, without
      references and not on a list. */
  method MergePanic() returns (z: Zone, ok: bool)
    ensures fresh(z) && !ok
  {
    hide RootsOk, Tiled, Coalesced, HeadOk, ListsOk, FreeFrom, Greedy, Base, Buddy, Aligned, Pow2;
    z := new Zone();
    NothingTaken(z.pages, z.blocks);
    z.AddRegion(0, 0, 3);
    PairOrder(z.pages);
    assert z.pages.Keys == {0, 1, 2};
    assert 0 in z.pages;
    var a := TakeAndDrop(z, {});
    ghost var x: int := if a == 0 then 1 else 0;
    assert x in z.pages && x !in {a};
    var b := TakeAndDrop(z, {a});
    ghost var y: int := if 0 !in {a, b} then 0 else if 1 !in {a, b} then 1 else 2;
    assert y in z.pages && y !in {a, b};
    assert {a} + {b} == {a, b};
    var c := TakeAndDrop(z, {a, b});
    assert 0 in {a, b} + {c} && 1 in {a, b} + {c};
    assert 0 in Outstanding(z.blocks) && 1 in Outstanding(z.blocks);
    ok := z.ZoneFree(0, 0);
  }

  lemma NothingTaken(pages: Pages, blocks: Blocks)
    requires Tiled(pages, blocks) && pages == map[]
    ensures Outstanding(blocks) == InLimbo({})
  {
    forall h ensures h !in blocks { assert BlockOk(pages, blocks, h); }
  }
}
