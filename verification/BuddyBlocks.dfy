/** The blocks of a buddy zone as values: aligned powers of two that tile the
    managed pages. */
module BuddyBlocks {
  import opened Arithmetic

  const BUDDY_ORDERS := 7

  /** Page frame metadata: references, the order of the block it heads (stale
      inside a block), and the order of the block it was first handed in with. */
  datatype Page = Page(shares: nat, order: nat, maxOrder: nat)

  /** `Limbo`: no references left, but not (yet) on a free list. */
  datatype Use = Free | Allocated | Limbo

  datatype Block = Block(order: nat, use: Use)

  type Blocks = map<int, Block>
  type Pages = map<int, Page>

  // Powers of two and aligned intervals --------------------------------------

  predicate Aligned(p: int, k: nat) {
    p % Pow2(k) == 0
  }

  /** The start of the aligned interval of order `k` around `p`. */
  function Base(p: int, k: nat): int {
    p - p % Pow2(k)
  }

  /** The address with bit `k` flipped. */
  function Buddy(p: int, k: nat): int {
    if Aligned(p, k + 1) then p + Pow2(k) else p - Pow2(k)
  }

  function Lower(p: int, k: nat): int {
    if Buddy(p, k) < p then Buddy(p, k) else p
  }

  lemma Product(x: int, d: int)
    requires x > 0
    ensures d >= 1 ==> x * d >= x
    ensures d <= -1 ==> x * d <= -x
    ensures d == 0 ==> x * d == 0
  {
  }

  lemma Quotient(a: int, x: int, q: int, r: int)
    requires x > 0 && a == x * q + r && 0 <= r < x
    ensures a % x == r && a / x == q
  {
    var d := q - a / x;
    assert x * d == x * q - x * (a / x);
    Product(x, d);
  }

  lemma MultipleBetween(d: int, x: int)
    requires x > 0 && d % x == 0
    ensures d > -x ==> d >= 0
    ensures d > 0 ==> d >= x
  {
    Product(x, d / x);
  }

  lemma ModSum(a: int, b: int, x: int)
    requires x > 0 && a % x == 0 && b % x == 0
    ensures (a + b) % x == 0 && (a - b) % x == 0
  {
    var i, j := a / x, b / x;
    assert a + b == x * (i + j) && a - b == x * (i - j);
    Quotient(a + b, x, i + j, 0);
    Quotient(a - b, x, i - j, 0);
  }

  lemma {:induction false} Divides(j: nat, k: nat, a: int)
    requires j <= k && Aligned(a, k)
    ensures Aligned(a, j)
    decreases k
  {
    if j < k {
      var x, q := Pow2(k - 1), a / Pow2(k);
      assert a == x * (2 * q);
      Quotient(a, x, 2 * q, 0);
      Divides(j, k - 1, a);
    }
  }

  lemma {:induction false} Pow2Divides(j: nat, k: nat)
    requires j <= k
    ensures Aligned(Pow2(k), j) && Pow2(j) <= Pow2(k)
    decreases k
  {
    if j < k {
      Pow2Divides(j, k - 1);
      ModSum(Pow2(k - 1), Pow2(k - 1), Pow2(j));
    }
  }

  /** Aligned intervals nest or lie apart. */
  lemma Nested(a: int, j: nat, b: int, k: nat, p: int)
    requires j <= k && Aligned(a, j) && Aligned(b, k)
    requires a <= p < a + Pow2(j) && b <= p < b + Pow2(k)
    ensures b <= a && a + Pow2(j) <= b + Pow2(k)
  {
    Divides(j, k, b);
    Pow2Divides(j, k);
    ModSum(a, b, Pow2(j));
    ModSum(b, Pow2(k), Pow2(j));
    ModSum(b + Pow2(k), a, Pow2(j));
    MultipleBetween(a - b, Pow2(j));
    MultipleBetween(b + Pow2(k) - a, Pow2(j));
  }

  lemma BaseAligned(p: int, k: nat)
    ensures Aligned(Base(p, k), k) && Base(p, k) <= p < Base(p, k) + Pow2(k)
  {
    Quotient(Base(p, k), Pow2(k), p / Pow2(k), 0);
  }

  /** A block and its buddy are the two halves of an aligned interval. */
  lemma BuddyHalves(p: int, k: nat)
    requires Aligned(p, k)
    ensures Aligned(Buddy(p, k), k) && Aligned(Lower(p, k), k + 1) && Buddy(Buddy(p, k), k) == p
    ensures Lower(p, k) == p || Lower(p, k) == Buddy(p, k)
    ensures Lower(p, k) + Pow2(k) == if Lower(p, k) == p then Buddy(p, k) else p
    ensures Lower(Buddy(p, k), k) == Lower(p, k)
  {
    hide Pow2;
    Pow2Step(k);
    var x, q := Pow2(k), p / Pow2(k);
    if q % 2 == 0 {
      EvenMultiple(p, x, q);
      assert Buddy(p, k) == p + x;
      OddMultiple(p + x, x, q + 1);
    } else {
      OddMultiple(p, x, q);
      assert Buddy(p, k) == p - x;
      EvenMultiple(p - x, x, q - 1);
    }
  }

  lemma Pow2Step(k: nat)
    ensures Pow2(k + 1) == 2 * Pow2(k)
  {
  }

  lemma EvenMultiple(p: int, x: int, q: int)
    requires x > 0 && p == x * q && q % 2 == 0
    ensures p % (2 * x) == 0 && p % x == 0
  {
    assert p == (2 * x) * (q / 2);
    Quotient(p, 2 * x, q / 2, 0);
    Quotient(p, x, q, 0);
  }

  lemma OddMultiple(p: int, x: int, q: int)
    requires x > 0 && p == x * q && q % 2 == 1
    ensures p % (2 * x) == x && p % x == 0
  {
    assert p == (2 * x) * (q / 2) + x;
    Quotient(p, 2 * x, q / 2, x);
    Quotient(p, x, q, 0);
  }

  // Tilings ------------------------------------------------------------------

  /** Pages come in aligned root blocks, of the order each page records. */
  ghost predicate RootsOk(pages: Pages) {
    && (forall p :: p in pages ==> pages[p].maxOrder < BUDDY_ORDERS)
    && (forall p, q :: p in pages && Base(p, pages[p].maxOrder) <= q < Base(p, pages[p].maxOrder) + Pow2(pages[p].maxOrder) ==>
          q in pages && pages[q].maxOrder == pages[p].maxOrder)
  }

  /** Page `p` lies in the block at `h`. */
  ghost predicate In(blocks: Blocks, h: int, p: int) {
    h in blocks && h <= p < h + Pow2(blocks[h].order)
  }

  ghost predicate BlockOk(pages: Pages, blocks: Blocks, h: int) {
    h in blocks ==> h in pages && blocks[h].order <= pages[h].maxOrder && Aligned(h, blocks[h].order)
  }

  /** The blocks partition the pages. */
  ghost predicate Tiled(pages: Pages, blocks: Blocks) {
    && (forall h :: BlockOk(pages, blocks, h))
    && (forall p :: p in pages ==> exists h :: In(blocks, h, p))
    && (forall h, h', p :: In(blocks, h, p) && In(blocks, h', p) ==> h == h')
  }

  /** The head of a block knows its order; the pages with references are the
      heads of the allocated blocks. */
  ghost predicate HeadOk(pages: Pages, blocks: Blocks, h: int) {
    h in pages ==>
      && (h in blocks ==> pages[h].order == blocks[h].order)
      && (pages[h].shares > 0 <==> h in blocks && blocks[h].use == Allocated)
  }

  ghost predicate LoneAt(pages: Pages, blocks: Blocks, h: int) {
    h in blocks && h in pages && blocks[h].use == Free && blocks[h].order < pages[h].maxOrder ==>
      !(Buddy(h, blocks[h].order) in blocks && blocks[Buddy(h, blocks[h].order)] == blocks[h])
  }

  /** Two free buddies would have been merged. */
  ghost predicate Coalesced(pages: Pages, blocks: Blocks) {
    forall h :: LoneAt(pages, blocks, h)
  }

  /** Free list `k` holds each free block of order `k` once. */
  ghost predicate ListOk(list: seq<int>, blocks: Blocks, k: nat) {
    && (forall h :: h in list <==> h in blocks && blocks[h] == Block(k, Free))
    && (forall i, j :: 0 <= i < j < |list| ==> list[i] != list[j])
  }

  ghost predicate ListsOk(orders: seq<seq<int>>, blocks: Blocks) {
    |orders| == BUDDY_ORDERS && forall k :: 0 <= k < BUDDY_ORDERS ==> ListOk(orders[k], blocks, k)
  }

  /** The pages on the free lists from order `k` on. */
  ghost function FreeFrom(orders: seq<seq<int>>, k: nat): nat
    requires |orders| == BUDDY_ORDERS && k <= BUDDY_ORDERS
    decreases BUDDY_ORDERS - k
  {
    if k == BUDDY_ORDERS then 0 else |orders[k]| * Pow2(k) + FreeFrom(orders, k + 1)
  }

  /** Everything `zone_lock` protects. */
  ghost predicate ZoneOk(pages: Pages, blocks: Blocks, orders: seq<seq<int>>, npages: seq<int>) {
    && RootsOk(pages) && Tiled(pages, blocks) && (forall h :: HeadOk(pages, blocks, h)) && Coalesced(pages, blocks)
    && ListsOk(orders, blocks) && |npages| == BUDDY_ORDERS && (forall k :: 0 <= k < BUDDY_ORDERS ==> npages[k] == |orders[k]|)
  }

  /** The blocks in use or in limbo: what the callers have not given back. */
  ghost function Outstanding(blocks: Blocks): Blocks {
    map h | h in blocks && blocks[h].use != Free :: blocks[h]
  }

  // Blocks and roots ---------------------------------------------------------

  /** A block lies inside one root, all of whose pages are managed. */
  lemma InRoot(pages: Pages, h: int, k: nat, p: int)
    requires RootsOk(pages) && h in pages && Aligned(h, k) && k <= pages[h].maxOrder && h <= p < h + Pow2(k)
    ensures p in pages && pages[p].maxOrder == pages[h].maxOrder && Base(p, pages[h].maxOrder) == Base(h, pages[h].maxOrder)
  {
    var m := pages[h].maxOrder;
    var b := Base(h, m);
    BaseAligned(h, m);
    Nested(h, k, b, m, h);
    BaseAligned(p, m);
    Nested(Base(p, m), m, b, m, p);
  }

  /** The buddy of a block below root order heads a block, of at most its order;
      the stale metadata inside blocks is never looked at. */
  lemma BuddyIsHead(pages: Pages, blocks: Blocks, h: int)
    requires RootsOk(pages) && Tiled(pages, blocks) && h in blocks && h in pages && blocks[h].order < pages[h].maxOrder
    ensures var b := Buddy(h, blocks[h].order);
            b != h && b in blocks && b in pages && blocks[b].order <= blocks[h].order && pages[b].maxOrder == pages[h].maxOrder
  {
    assert BlockOk(pages, blocks, h);
    var k := blocks[h].order;
    var b, lo := Buddy(h, k), Lower(h, k);
    BuddyHalves(h, k);
    BaseAligned(h, pages[h].maxOrder);
    Nested(lo, k + 1, Base(h, pages[h].maxOrder), pages[h].maxOrder, h);
    assert b in pages && pages[b].maxOrder == pages[h].maxOrder;
    var g :| In(blocks, g, b);
    assert BlockOk(pages, blocks, g);
    assert In(blocks, h, h);
    var j := blocks[g].order;
    if j > k {
      Nested(lo, k + 1, g, j, b);
      assert In(blocks, g, h);
      assert false;
    }
    Nested(g, j, b, k, b);
    assert g == b;
  }

  /** Free pages run together: an aligned interval of free pages inside a root
      lies in one block. */
  lemma {:induction false} FreeRegion(pages: Pages, blocks: Blocks, h: int, k: nat) returns (g: int)
    requires RootsOk(pages) && Tiled(pages, blocks) && Coalesced(pages, blocks)
    requires h in pages && k <= pages[h].maxOrder && Aligned(h, k)
    requires forall p, x :: h <= p < h + Pow2(k) && In(blocks, x, p) ==> blocks[x].use == Free
    ensures In(blocks, g, h) && blocks[g].order >= k && g + Pow2(blocks[g].order) >= h + Pow2(k)
    decreases k
  {
    InRoot(pages, h, k, h);
    if k == 0 {
      g :| In(blocks, g, h);
      assert BlockOk(pages, blocks, g);
    } else {
      var j := k - 1;
      var h' := h + Pow2(j);
      Divides(j, k, h);
      BuddyHalves(h, j);
      InRoot(pages, h, k, h');
      g := FreeRegion(pages, blocks, h, j);
      var g' := FreeRegion(pages, blocks, h', j);
      assert BlockOk(pages, blocks, g) && BlockOk(pages, blocks, g');
      if blocks[g].order >= k {
        Nested(h, k, g, blocks[g].order, h);
      } else if blocks[g'].order >= k {
        Nested(h, k, g', blocks[g'].order, h');
        assert In(blocks, g', h);
      } else {
        FreeHalves(pages, blocks, h, j, g, g');
      }
    }
  }

  /** Two free buddies contradict coalescing. */
  lemma FreeHalves(pages: Pages, blocks: Blocks, h: int, j: nat, g: int, g': int)
    requires RootsOk(pages) && Tiled(pages, blocks) && h in pages && Aligned(h, j + 1) && j < pages[h].maxOrder
    requires In(blocks, g, h) && In(blocks, g', h + Pow2(j)) && blocks[g] == blocks[g'] == Block(j, Free)
    ensures !Coalesced(pages, blocks)
  {
    hide RootsOk, Pow2, Aligned;
    assert BlockOk(pages, blocks, g) && BlockOk(pages, blocks, g');
    Divides(j, j + 1, h);
    BuddyHalves(h, j);
    Nested(g, j, h, j, h);
    Nested(g', j, h + Pow2(j), j, h + Pow2(j));
    assert !LoneAt(pages, blocks, g);
  }

  lemma FreeBlockKept(pages: Pages, b1: Blocks, b2: Blocks, h: int)
    requires RootsOk(pages) && Tiled(pages, b1) && Coalesced(pages, b1) && Tiled(pages, b2) && Coalesced(pages, b2)
    requires Outstanding(b1) == Outstanding(b2) && h in b1 && b1[h].use == Free
    ensures h in b2 && b2[h] == b1[h]
  {
    assert BlockOk(pages, b1, h);
    OnlyFree(pages, b1, b2, h);
    var g := FreeRegion(pages, b2, h, b1[h].order);
    OnlyFree(pages, b1, b2, h);
    assert b2[g].use == Free;
    assert BlockOk(pages, b2, g);
    OnlyFree(pages, b2, b1, g);
    var f := FreeRegion(pages, b1, g, b2[g].order);
    assert In(b1, f, h) && In(b1, h, h);
    assert f == h;
    assert g == h;
    SameSize(b1[h].order, b2[h].order);
  }

  lemma {:induction false} SameSize(j: nat, k: nat)
    ensures j < k ==> Pow2(j) < Pow2(k)
    ensures Pow2(j) == Pow2(k) ==> j == k
  {
    if j < k { Pow2Divides(j, k - 1); }
    if k < j { Pow2Divides(k, j - 1); }
  }

  lemma OnlyFree(pages: Pages, b1: Blocks, b2: Blocks, h: int)
    requires Tiled(pages, b1) && Outstanding(b1) == Outstanding(b2) && h in b1 && b1[h].use == Free
    ensures forall p, x :: h <= p < h + Pow2(b1[h].order) && In(b2, x, p) ==> b2[x].use == Free
  {
    assert forall x :: x in b2 && b2[x].use != Free ==> x in Outstanding(b2);
    assert forall x :: x in Outstanding(b1) ==> x in b1 && b1[x] == b2[x] && b1[x].use != Free;
    forall p, x | h <= p < h + Pow2(b1[h].order) && In(b2, x, p) ensures b2[x].use == Free {
      assert In(b1, h, p) && (In(b1, x, p) ==> x == h);
    }
  }

  /** The free blocks are determined by what is outstanding: a zone has no
      memory of the order in which blocks were taken and given back. */
  lemma Canonical(pages: Pages, b1: Blocks, b2: Blocks)
    requires RootsOk(pages) && Tiled(pages, b1) && Coalesced(pages, b1) && Tiled(pages, b2) && Coalesced(pages, b2)
    requires Outstanding(b1) == Outstanding(b2)
    ensures b1 == b2
  {
    forall h | h in b1 ensures h in b2 && b2[h] == b1[h] {
      if b1[h].use == Free {
        FreeBlockKept(pages, b1, b2, h);
      } else {
        assert h in Outstanding(b1);
      }
    }
    forall h | h in b2 ensures h in b1 {
      if b2[h].use == Free {
        FreeBlockKept(pages, b2, b1, h);
      } else {
        assert h in Outstanding(b2);
      }
    }
  }

  /** Every root whole and free. */
  ghost function Whole(pages: Pages): Blocks {
    map p | p in pages && p == Base(p, pages[p].maxOrder) :: Block(pages[p].maxOrder, Free)
  }

  lemma WholeIn(pages: Pages, h: int, p: int)
    requires RootsOk(pages) && p in pages
    ensures In(Whole(pages), h, p) <==> h == Base(p, pages[p].maxOrder)
  {
    var m := pages[p].maxOrder;
    var r := Base(p, m);
    BaseAligned(p, m);
    assert r in pages && pages[r].maxOrder == m;
    BaseAligned(r, m);
    Nested(Base(r, m), m, r, m, r);
    if In(Whole(pages), h, p) {
      BaseAligned(h, pages[h].maxOrder);
      assert pages[h].maxOrder == m;
      Nested(h, m, r, m, p);
    }
  }

  lemma WholeTiled(pages: Pages)
    requires RootsOk(pages)
    ensures Tiled(pages, Whole(pages)) && Coalesced(pages, Whole(pages))
  {
    hide RootsOk, Base, Pow2, Whole, In, BlockOk, LoneAt;
    var b := Whole(pages);
    forall h ensures BlockOk(pages, b, h) && LoneAt(pages, b, h) { WholeBlock(pages, h); }
    forall p | p in pages ensures exists h :: In(b, h, p) {
      WholeIn(pages, Base(p, pages[p].maxOrder), p);
    }
    forall h, h', p | In(b, h, p) && In(b, h', p) ensures h == h' {
      WholePages(pages, h, p);
      WholeIn(pages, h, p);
      WholeIn(pages, h', p);
    }
  }

  lemma WholeBlock(pages: Pages, h: int)
    ensures BlockOk(pages, Whole(pages), h) && LoneAt(pages, Whole(pages), h)
  {
    hide Pow2;
    if h in pages { BaseAligned(h, pages[h].maxOrder); }
  }

  lemma WholePages(pages: Pages, h: int, p: int)
    requires RootsOk(pages) && In(Whole(pages), h, p)
    ensures p in pages
  {
    assert Base(h, pages[h].maxOrder) <= p < Base(h, pages[h].maxOrder) + Pow2(pages[h].maxOrder);
  }

  /** With nothing outstanding, the free blocks are the roots. */
  lemma NothingOutstanding(pages: Pages, blocks: Blocks)
    requires RootsOk(pages) && Tiled(pages, blocks) && Coalesced(pages, blocks)
    ensures Outstanding(blocks) == map[] <==> blocks == Whole(pages)
  {
    hide RootsOk, Tiled, Coalesced;
    WholeTiled(pages);
    if Outstanding(blocks) == map[] {
      Canonical(pages, blocks, Whole(pages));
    }
  }

  /** An aligned run of free pages inside a root, of order `k`. */
  ghost predicate FreeRun(pages: Pages, blocks: Blocks, h: int, k: nat) {
    && h in pages && k <= pages[h].maxOrder && Aligned(h, k)
    && forall p, x :: h <= p < h + Pow2(k) && In(blocks, x, p) ==> blocks[x].use == Free
  }

  ghost predicate FreeBlock(blocks: Blocks, g: int, k: nat) {
    g in blocks && blocks[g].use == Free && blocks[g].order >= k
  }

  /** Looking at the free blocks of order `k` and up is enough: there is one
      exactly when there is an aligned run of that many free pages at all. */
  lemma FreeRunIffFreeBlock(pages: Pages, blocks: Blocks, k: nat)
    requires RootsOk(pages) && Tiled(pages, blocks) && Coalesced(pages, blocks)
    ensures (exists h :: FreeRun(pages, blocks, h, k)) <==> (exists g :: FreeBlock(blocks, g, k))
  {
    if h :| FreeRun(pages, blocks, h, k) {
      var g := FreeRegion(pages, blocks, h, k);
      assert FreeBlock(blocks, g, k);
    }
    if g :| FreeBlock(blocks, g, k) {
      assert BlockOk(pages, blocks, g);
      Divides(k, blocks[g].order, g);
      Pow2Divides(k, blocks[g].order);
      forall p, x | g <= p < g + Pow2(k) && In(blocks, x, p) ensures blocks[x].use == Free {
        assert In(blocks, g, p);
      }
      assert FreeRun(pages, blocks, g, k);
    }
  }

  // Splitting and merging ----------------------------------------------------

  function Split(blocks: Blocks, h: int): Blocks
    requires h in blocks && blocks[h].order > 0
  {
    var k := blocks[h].order - 1;
    blocks[h := Block(k, Limbo)][h + Pow2(k) := Block(k, Free)]
  }

  function Merge(blocks: Blocks, h: int): Blocks
    requires h in blocks
  {
    var k := blocks[h].order;
    var lo := Lower(h, k);
    (blocks - {lo + Pow2(k)})[lo := Block(k + 1, Limbo)]
  }

  function SetUse(blocks: Blocks, h: int, use: Use): Blocks
    requires h in blocks
  {
    blocks[h := Block(blocks[h].order, use)]
  }

  /** The two halves of a block. */
  lemma SplitHalves(pages: Pages, blocks: Blocks, h: int)
    requires RootsOk(pages) && Tiled(pages, blocks) && h in blocks && blocks[h].order > 0
    ensures var k := blocks[h].order - 1;
            var h' := h + Pow2(k);
            && h in pages && h' !in blocks && h' in pages && pages[h'].maxOrder == pages[h].maxOrder && Buddy(h, k) == h'
            && k < pages[h].maxOrder && Aligned(h, k) && Aligned(h', k) && Pow2(k + 1) == 2 * Pow2(k)
  {
    assert BlockOk(pages, blocks, h);
    var k := blocks[h].order - 1;
    var h' := h + Pow2(k);
    InRoot(pages, h, k + 1, h');
    Divides(k, k + 1, h);
    BuddyHalves(h, k);
    assert In(blocks, h, h') && (h' in blocks ==> In(blocks, h', h'));
  }

  /** The pages of the other blocks stay, and those of the two halves are those
      of the block. */
  lemma SplitIn(blocks: Blocks, h: int, x: int, p: int)
    requires h in blocks && blocks[h].order > 0 && h + Pow2(blocks[h].order - 1) !in blocks
    ensures var h' := h + Pow2(blocks[h].order - 1);
            In(Split(blocks, h), x, p) <==>
              if x == h then In(blocks, h, p) && p < h' else if x == h' then In(blocks, h, p) && p >= h' else In(blocks, x, p)
  {
    Pow2Step(blocks[h].order - 1);
  }

  lemma SplitTiled(pages: Pages, blocks: Blocks, h: int)
    requires RootsOk(pages) && Tiled(pages, blocks) && h in blocks && blocks[h].order > 0
    ensures var h' := h + Pow2(blocks[h].order - 1);
            h in pages && h' !in blocks && h' in pages && pages[h'].maxOrder == pages[h].maxOrder && Buddy(h, blocks[h].order - 1) == h'
    ensures Tiled(pages, Split(blocks, h))
  {
    hide RootsOk, Aligned, Buddy, In, Pow2;
    SplitHalves(pages, blocks, h);
    var b, h' := Split(blocks, h), h + Pow2(blocks[h].order - 1);
    forall x ensures BlockOk(pages, b, x) { assert BlockOk(pages, blocks, x); }
    forall x, p ensures In(b, x, p) <==>
      if x == h then In(blocks, h, p) && p < h' else if x == h' then In(blocks, h, p) && p >= h' else In(blocks, x, p)
    {
      SplitIn(blocks, h, x, p);
    }
    forall p | p in pages ensures exists x :: In(b, x, p) {
      var x :| In(blocks, x, p);
      InBlock(blocks, x, p);
      assert In(b, if x == h && p >= h' then h' else x, p);
    }
    forall x, x', p | In(b, x, p) && In(b, x', p) ensures x == x' {
      assert In(blocks, if x == h' then h else x, p) && In(blocks, if x' == h' then h else x', p);
    }
  }

  lemma InBlock(blocks: Blocks, x: int, p: int)
    requires In(blocks, x, p)
    ensures x in blocks
  {
  }

  lemma SplitCoalesced(pages: Pages, blocks: Blocks, h: int)
    requires RootsOk(pages) && Tiled(pages, blocks) && Coalesced(pages, blocks) && h in blocks && blocks[h].order > 0
    ensures Coalesced(pages, Split(blocks, h))
  {
    SplitTiled(pages, blocks, h);
    forall x ensures LoneAt(pages, Split(blocks, h), x) { SplitLone(pages, blocks, h, x); }
  }

  lemma SplitLone(pages: Pages, blocks: Blocks, h: int, x: int)
    requires h in blocks && blocks[h].order > 0 && h + Pow2(blocks[h].order - 1) !in blocks
    requires Tiled(pages, Split(blocks, h)) && LoneAt(pages, blocks, x)
    requires Buddy(h, blocks[h].order - 1) == h + Pow2(blocks[h].order - 1)
    ensures LoneAt(pages, Split(blocks, h), x)
  {
    hide Buddy, Aligned, Pow2, RootsOk, Coalesced;
    var b := Split(blocks, h);
    assert BlockOk(pages, b, x) && BlockOk(pages, b, h);
    BuddyHalves(h, b[h].order);
    if x in b { BuddyHalves(x, b[x].order); }
  }

  lemma MergeTiled(pages: Pages, blocks: Blocks, h: int)
    requires RootsOk(pages) && Tiled(pages, blocks) && h in blocks && h in pages && blocks[h].order < pages[h].maxOrder
    requires var b := Buddy(h, blocks[h].order); b in blocks && blocks[b].order == blocks[h].order
    ensures var k := blocks[h].order; var lo := Lower(h, k);
            lo in pages && pages[lo].maxOrder == pages[h].maxOrder && Aligned(lo, k + 1)
    ensures Tiled(pages, Merge(blocks, h))
  {
    assert BlockOk(pages, blocks, h);
    BuddyIsHead(pages, blocks, h);
    var k := blocks[h].order;
    BuddyHalves(h, k);
    forall x ensures BlockOk(pages, Merge(blocks, h), x) { assert BlockOk(pages, blocks, x); }
    MergeCovers(pages, blocks, h);
  }

  lemma MergeCovers(pages: Pages, blocks: Blocks, h: int)
    requires Tiled(pages, blocks) && h in blocks && Aligned(h, blocks[h].order)
    requires var b := Buddy(h, blocks[h].order); b in blocks && blocks[b].order == blocks[h].order
    ensures forall p :: p in pages ==> exists x :: In(Merge(blocks, h), x, p)
    ensures forall x, x', p :: In(Merge(blocks, h), x, p) && In(Merge(blocks, h), x', p) ==> x == x'
  {
    var k := blocks[h].order;
    var lo := Lower(h, k);
    BuddyHalves(h, k);
    forall x, p ensures In(Merge(blocks, h), x, p) <==> if x == lo then In(blocks, lo, p) || In(blocks, lo + Pow2(k), p) else x != lo + Pow2(k) && In(blocks, x, p) {}
    hide In, Pow2, Lower, Buddy, Merge;
    forall p | p in pages ensures exists x :: In(Merge(blocks, h), x, p) {
      var x :| In(blocks, x, p);
      assert In(Merge(blocks, h), if x == lo + Pow2(k) then lo else x, p);
    }
    forall x, x', p | In(Merge(blocks, h), x, p) && In(Merge(blocks, h), x', p) ensures x == x' {
    }
  }

  lemma MergeCoalesced(pages: Pages, blocks: Blocks, h: int)
    requires Coalesced(pages, blocks) && h in blocks
    ensures Coalesced(pages, Merge(blocks, h))
  {
    hide Buddy, Pow2, Lower;
    forall x ensures LoneAt(pages, Merge(blocks, h), x) { assert LoneAt(pages, blocks, x); }
  }

  lemma SetUseTiled(pages: Pages, blocks: Blocks, h: int, use: Use)
    requires Tiled(pages, blocks) && h in blocks
    ensures Tiled(pages, SetUse(blocks, h, use))
  {
    var b := SetUse(blocks, h, use);
    forall x ensures BlockOk(pages, b, x) { assert BlockOk(pages, blocks, x); }
    forall x, p ensures In(b, x, p) <==> In(blocks, x, p) {}
    forall p | p in pages ensures exists x :: In(b, x, p) {
      var x :| In(blocks, x, p);
      assert In(b, x, p);
    }
  }

  lemma SetUseCoalesced(pages: Pages, blocks: Blocks, h: int, use: Use)
    requires RootsOk(pages) && Tiled(pages, blocks) && Coalesced(pages, blocks) && h in blocks && h in pages
    requires use == Free && blocks[h].order < pages[h].maxOrder ==>
               !(Buddy(h, blocks[h].order) in blocks && blocks[Buddy(h, blocks[h].order)] == Block(blocks[h].order, Free))
    ensures Coalesced(pages, SetUse(blocks, h, use))
  {
    hide Buddy, Aligned, Pow2;
    var b := SetUse(blocks, h, use);
    forall x ensures LoneAt(pages, b, x) {
      assert BlockOk(pages, blocks, x) && LoneAt(pages, blocks, x);
      if x in b && b[x].order < pages[x].maxOrder {
        BuddyHalves(x, b[x].order);
        BuddyIsHead(pages, blocks, x);
      }
    }
  }
}
