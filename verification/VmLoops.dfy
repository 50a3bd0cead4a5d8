/** What the loops and compound operations of VmSystem rest on: facts about
    whole entries, ranges of pages and partly forked spaces. */
module VmLoops {
  import opened Wrappers
  import opened AmapIndex
  import opened VmState
  import opened EagerMemory
  import opened VmSteps

  /** How far the pages from `lo` on have been dealt with when the loop is at
      entry `cur`. */
  ghost function Cursor(cur: Option<Loc>, lo: nat, hi: nat): nat {
    if cur.None? || hi <= cur.value.vpn then hi else if cur.value.vpn < lo then lo else cur.value.vpn
  }

  ghost function PieceLo(k: Loc, lo: nat): nat {
    if k.vpn < lo then lo else k.vpn
  }

  ghost function PieceHi(e: Entry, hi: nat): nat {
    if hi < e.end then hi else e.end
  }

  /** No page of the range with a PTE is shared with anyone. */
  ghost predicate Unshared(s: State, space: nat, lo: nat, hi: nat) {
    forall k, l :: Covers(s, k, l) && l in s.ptes && l.space == space && lo <= l.vpn < hi ==>
      PteUnshared(s, s.entries[k], l.vpn, Pte(s.ptes[l].page, Prot(true, true, true)))
  }

  lemma UnsharedCarved(s: State, s': State, space: nat, lo: nat, hi: nat)
    requires Unshared(s, space, lo, hi) && SameTranslation(s, s')
    requires s'.ptes == s.ptes && s'.slots == s.slots && s'.anons == s.anons
    ensures Unshared(s', space, lo, hi)
  {
    forall j, l | Covers(s', j, l) && l in s'.ptes && l.space == space && lo <= l.vpn < hi
      ensures PteUnshared(s', s'.entries[j], l.vpn, Pte(s'.ptes[l].page, Prot(true, true, true)))
    {
      var i :| Covers(s, i, l) && SameAt(s.entries[i], s'.entries[j], l.vpn);
    }
  }

  lemma UnsharedSafe(s: State, k: Loc, lo: nat, hi: nat)
    requires Unshared(s, k.space, lo, hi) && k in s.entries && lo <= s.entries[k].base && s.entries[k].end <= hi
    ensures WriteGrantSafe(s, k)
  {
  }

  lemma UnsharedProtected(s: State, k: Loc, prot: Prot, setMax: bool, lo: nat, hi: nat)
    requires Unshared(s, k.space, lo, hi) && k in s.entries
    ensures Unshared(ProtectedEntry(s, k, prot, setMax), k.space, lo, hi)
  {
    var s' := ProtectedEntry(s, k, prot, setMax);
    forall j, l | Covers(s', j, l) && l in s'.ptes && l.space == k.space && lo <= l.vpn < hi
      ensures PteUnshared(s', s'.entries[j], l.vpn, Pte(s'.ptes[l].page, Prot(true, true, true)))
    {
      assert Covers(s, j, l);
    }
  }

  lemma EntryCells(s: State, m: Mem, k: Loc)
    requires Refines(s, m) && k in s.entries
    ensures forall v :: s.entries[k].base <= v < s.entries[k].end ==>
      Loc(k.space, v) in m && m[Loc(k.space, v)].maxProt == s.entries[k].maxProt
  {
    forall v | s.entries[k].base <= v < s.entries[k].end
      ensures Loc(k.space, v) in m && m[Loc(k.space, v)].maxProt == s.entries[k].maxProt
    {
      assert Covers(s, k, Loc(k.space, v));
    }
  }

  /** Every mapped page of the range allows `prot`. */
  ghost predicate AllAllow(m: Mem, space: nat, lo: nat, hi: nat, prot: Prot) {
    forall v :: lo <= v < hi && Loc(space, v) in m ==> AllowedBy(m[Loc(space, v)].maxProt, prot)
  }

  lemma ReprotectNothing(m: Mem, space: nat, lo: nat, hi: nat, prot: Prot, setMax: bool)
    requires NoneIn(m, space, lo, hi)
    ensures Reprotected(m, space, lo, hi, prot, setMax) == m && AllAllow(m, space, lo, hi, prot)
  {
    forall l | l in m ensures !(l.space == space && lo <= l.vpn < hi) {
      assert l == Loc(l.space, l.vpn);
    }
  }

  lemma ProtectSkip(m0: Mem, m: Mem, space: nat, lo: nat, hi: nat, k: Loc, end: nat, next: Option<Loc>, prot: Prot, setMax: bool)
    requires k.vpn < end <= lo < hi && (next.Some? ==> end <= next.value.vpn)
    requires m == Reprotected(m0, space, lo, lo, prot, setMax)
    requires NoneIn(m, space, end, if next.Some? then next.value.vpn else hi)
    ensures m == Reprotected(m0, space, lo, Cursor(next, lo, hi), prot, setMax)
    ensures AllAllow(m0, space, lo, Cursor(next, lo, hi), prot)
  {
    ReprotectNothing(m0, space, lo, lo, prot, setMax);
    ReprotectNothing(m0, space, lo, Cursor(next, lo, hi), prot, setMax);
  }

  lemma ProtectAdvance(m0: Mem, m: Mem, m': Mem, maxProt: Prot, space: nat, lo: nat, hi: nat, k: Loc, end: nat,
                       next: Option<Loc>, prot: Prot, setMax: bool)
    requires k.vpn < hi && k.vpn < end && lo < end && lo < hi && (next.Some? ==> end <= next.value.vpn)
    requires m == Reprotected(m0, space, lo, Cursor(Some(k), lo, hi), prot, setMax)
    requires NoneIn(m, space, end, if next.Some? then next.value.vpn else hi)
    requires setMax || AllAllow(m0, space, lo, Cursor(Some(k), lo, hi), prot)
    requires setMax || AllowedBy(maxProt, prot)
    requires forall v :: PieceLo(k, lo) <= v < (if hi < end then hi else end) ==>
      Loc(space, v) in m && m[Loc(space, v)].maxProt == maxProt
    requires m' == Reprotected(m, space, PieceLo(k, lo), if hi < end then hi else end, prot, setMax)
    ensures m' == Reprotected(m0, space, lo, Cursor(next, lo, hi), prot, setMax)
    ensures setMax || AllAllow(m0, space, lo, Cursor(next, lo, hi), prot)
  {
    forall l | l in m0 ensures l == Loc(l.space, l.vpn) { }
  }

  lemma ProtectDenied(m0: Mem, m: Mem, space: nat, lo: nat, hi: nat, at: nat, prot: Prot)
    requires lo <= at < hi && AllAllow(m0, space, lo, at, prot)
    requires m == Reprotected(m0, space, lo, at, prot, false)
    requires Loc(space, at) in m && !AllowedBy(m[Loc(space, at)].maxProt, prot)
    ensures FirstDenied(m0, space, lo, hi, prot) == at && m == EagerMemory.Protect(m0, space, lo, hi, prot, false)
  {
  }

  lemma ProtectAllowed(m0: Mem, space: nat, lo: nat, hi: nat, prot: Prot)
    requires lo <= hi && AllAllow(m0, space, lo, hi, prot)
    ensures FirstDenied(m0, space, lo, hi, prot) == hi
  {
  }

  ghost predicate NoneIn(m: Mem, space: nat, lo: nat, hi: nat) {
    forall v :: lo <= v < hi ==> Loc(space, v) !in m
  }

  lemma StartFrom(s: State, m: Mem, space: nat, lo: nat, hi: nat, r: Option<Loc>)
    requires EntriesOk(s.entries, s.amaps) && Refines(s, m)
    requires r.Some? ==> r.value in s.entries && r.value.space == space
    requires forall k :: k in s.entries && k.space == space ==> r.Some?
    requires forall k :: k in s.entries && k.space == space && k.vpn < r.value.vpn ==> s.entries[k].end <= lo
    requires forall k :: k in s.entries && k.space == space && r.value.vpn < k.vpn ==> lo <= k.vpn
    ensures NoneIn(m, space, lo, Cursor(r, lo, hi))
    ensures forall k :: k in s.entries && k.space == space && k.vpn < lo < s.entries[k].end ==> r == Some(k)
  {
    hide EntriesOk, Refines;
    forall v | lo <= v < Cursor(r, lo, hi) ensures Loc(space, v) !in m { StartFromAt(s, m, space, lo, r, v); }
    forall k | k in s.entries && k.space == space && k.vpn < lo < s.entries[k].end ensures r == Some(k) {
      assert r.value == Loc(space, r.value.vpn) && k == Loc(space, k.vpn);
    }
  }

  lemma StartFromAt(s: State, m: Mem, space: nat, lo: nat, r: Option<Loc>, v: nat)
    requires EntriesOk(s.entries, s.amaps) && Refines(s, m)
    requires forall k :: k in s.entries && k.space == space ==> r.Some?
    requires forall k :: k in s.entries && k.space == space && k.vpn < r.value.vpn ==> s.entries[k].end <= lo
    requires lo <= v && (r.Some? ==> v < r.value.vpn)
    ensures Loc(space, v) !in m
  {
    hide CellAt;
    assert forall k :: !Covers(s, k, Loc(space, v));
  }

  /** If the highest entry below `r` ends by `lo`, so do all below it. */
  lemma EndsBelow(s: State, space: nat, lo: nat, r: Loc, prev: Option<Loc>)
    requires EntriesOk(s.entries, s.amaps) && r in s.entries && r.space == space
    requires prev.Some? ==> prev.value in s.entries && prev.value.space == space && prev.value.vpn < r.vpn
    requires forall k :: k in s.entries && k.space == space && k.vpn < r.vpn ==> prev.Some? && k.vpn <= prev.value.vpn
    ensures prev.Some? ==> s.entries[prev.value].end <= r.vpn
    ensures prev.Some? && prev.value.vpn < lo ==>
      forall k :: k in s.entries && k.space == space && k.vpn < prev.value.vpn ==> s.entries[k].end <= lo
    ensures (prev.Some? ==> s.entries[prev.value].end <= lo) ==>
      forall k :: k in s.entries && k.space == space && k.vpn < r.vpn ==> s.entries[k].end <= lo
  {
    forall k | k in s.entries && k.space == space && k.vpn < r.vpn
      ensures k.vpn < prev.value.vpn ==> s.entries[k].end <= prev.value.vpn
      ensures k == prev.value || k.vpn < prev.value.vpn
    {
      assert k == Loc(space, k.vpn) && prev.value == Loc(space, prev.value.vpn);
    }
  }

  lemma RangeNothing(m: Mem, space: nat, lo: nat, hi: nat)
    requires NoneIn(m, space, lo, hi)
    ensures EagerMemory.Unmap(m, space, lo, hi) == m
  {
    forall l | l in m ensures !(l.space == space && lo <= l.vpn < hi) {
      assert l == Loc(l.space, l.vpn);
    }
  }

  /** The entries on both sides of `lo` decide whether [lo, hi) is occupied. */
  lemma NeighboursFree(s: State, m: Mem, space: nat, lo: nat, hi: nat, prev: Option<Loc>, next: Option<Loc>)
    requires Inv(s) && Refines(s, m) && lo < hi
    requires next.Some? ==> next.value in s.entries && next.value.space == space && lo <= next.value.vpn
    requires forall k :: k in s.entries && k.space == space && lo <= k.vpn ==> next.Some? && next.value.vpn <= k.vpn
    requires prev.Some? ==> prev.value in s.entries && prev.value.space == space && prev.value.vpn < lo
    requires forall k :: k in s.entries && k.space == space && k.vpn < lo ==> prev.Some? && k.vpn <= prev.value.vpn
    ensures (prev.Some? && s.entries[prev.value].end > lo) || (next.Some? && next.value.vpn < hi) <==> !Free(s.entries, space, lo, hi)
    ensures Free(s.entries, space, lo, hi) <==> NoneIn(m, space, lo, hi)
    ensures Busy(m, space, lo, hi) <==> !NoneIn(m, space, lo, hi)
  {
    hide AmapsPrivate, AmapRefsOk, ObjRefsOk, AnonRefsOk, PagesOk, NoLeak, IdsOk, PtesOk, Refines;
    FreeExact(s, m, space, lo, hi);
    forall k | k in s.entries && k.space == space && k.vpn < lo ensures s.entries[k].end <= s.entries[prev.value].end {
      assert k == Loc(space, k.vpn) && prev.value == Loc(space, prev.value.vpn);
    }
  }

  /** An unmapped range is free. */
  lemma UnmappedFree(s: State, m: Mem, m': Mem, space: nat, lo: nat, hi: nat)
    requires Inv(s) && Refines(s, m') && lo < hi && m' == EagerMemory.Unmap(m, space, lo, hi)
    ensures Free(s.entries, space, lo, hi)
  {
    FreeExact(s, m', space, lo, hi);
  }

  /** Nothing is mapped between the end of an entry and the next one. */
  lemma NothingBetween(s: State, m: Mem, k: Loc, next: Option<Loc>, hi: nat)
    requires Inv(s) && Refines(s, m) && k in s.entries
    requires next.Some? ==> next.value in s.entries && next.value.space == k.space && k.vpn < next.value.vpn
    requires forall j :: j in s.entries && j.space == k.space && k.vpn < j.vpn ==> next.Some? && next.value.vpn <= j.vpn
    ensures NoneIn(m, k.space, s.entries[k].end, if next.Some? then next.value.vpn else hi)
    ensures next.Some? ==> s.entries[k].end <= next.value.vpn
    ensures s.entries[k].base == k.vpn < s.entries[k].end
  {
    hide AmapsPrivate, AmapRefsOk, ObjRefsOk, AnonRefsOk, PagesOk, NoLeak, IdsOk, PtesOk, CellAt;
    forall v | s.entries[k].end <= v && (next.Some? ==> v < next.value.vpn) ensures Loc(k.space, v) !in m {
      assert forall j :: !Covers(s, j, Loc(k.space, v));
    }
  }

  lemma UnmapSkip(m0: Mem, space: nat, lo: nat, hi: nat, k: Loc, end: nat, next: Option<Loc>)
    requires k.vpn < end <= lo < hi && (next.Some? ==> end <= next.value.vpn)
    requires NoneIn(EagerMemory.Unmap(m0, space, lo, lo), space, end, if next.Some? then next.value.vpn else hi)
    ensures EagerMemory.Unmap(m0, space, lo, lo) == EagerMemory.Unmap(m0, space, lo, Cursor(next, lo, hi))
  {
    RangeNothing(m0, space, lo, lo);
    RangeNothing(m0, space, lo, Cursor(next, lo, hi));
  }

  lemma UnmapAdvance(m0: Mem, m: Mem, space: nat, lo: nat, hi: nat, k: Loc, end: nat, next: Option<Loc>)
    requires k.vpn < hi && k.vpn < end && lo < end && lo < hi && (next.Some? ==> end <= next.value.vpn)
    requires m == EagerMemory.Unmap(m0, space, lo, Cursor(Some(k), lo, hi))
    requires NoneIn(m, space, end, if next.Some? then next.value.vpn else hi)
    ensures EagerMemory.Unmap(m, space, if k.vpn < lo then lo else k.vpn, if hi < end then hi else end)
         == EagerMemory.Unmap(m0, space, lo, Cursor(next, lo, hi))
  {
    var m' := EagerMemory.Unmap(m, space, if k.vpn < lo then lo else k.vpn, if hi < end then hi else end);
    forall l | l in m0 ensures l in m' <==> !(l.space == space && lo <= l.vpn < Cursor(next, lo, hi)) {
      assert l == Loc(l.space, l.vpn);
    }
  }

  lemma DropPtesStep(s: State, m: Mem, k: Loc)
    requires Inv(s) && Refines(s, m) && k in s.entries
    ensures var ptes := map l | l in s.ptes && !(l.space == k.space && s.entries[k].base <= l.vpn < s.entries[k].end) :: s.ptes[l];
            Inv(s.(ptes := ptes)) && Refines(s.(ptes := ptes), m)
  {
    hide EntriesOk, AmapsPrivate, AmapRefsOk, ObjRefsOk, AnonRefsOk, PagesOk, NoLeak, IdsOk, Refines;
    var ptes := map l | l in s.ptes && !(l.space == k.space && s.entries[k].base <= l.vpn < s.entries[k].end) :: s.ptes[l];
    forall j, l | Covers(s, j, l) && l in ptes ensures LeqProt(ptes[l].prot, s.entries[j].prot) {
      assert PteOk(s, j, l, {});
    }
    RestrictPtesStep(s, m, ptes, {}, multiset{}, {}, {});
  }

  /** Both states have entries over the same pages, leading to the same amap
      slots and object pages with the same protection. */
  ghost predicate SameTranslation(s: State, s': State) {
    && (forall j, l :: Covers(s', j, l) ==> exists i :: Covers(s, i, l) && SameAt(s.entries[i], s'.entries[j], l.vpn))
    && (forall i, l :: Covers(s, i, l) ==> exists j :: Covers(s', j, l))
  }

  ghost predicate SameAt(e: Entry, e': Entry, v: nat) {
    && e'.SlotAt(v) == e.SlotAt(v) && e'.BackingAt(v) == e.BackingAt(v)
    && e'.prot == e.prot && e'.maxProt == e.maxProt
  }

  lemma SplitTranslation(s: State, k: Loc, x: nat)
    requires EntriesOk(s.entries, s.amaps) && k in s.entries && s.entries[k].base < x < s.entries[k].end
    requires s.entries[k].amap in s.amaps && s.entries[k].obj in s.objs
    requires Loc(k.space, x) !in s.entries
    ensures SameTranslation(s, Split(s, k, x))
  {
    hide EntriesOk;
    var s' := Split(s, k, x);
    forall j, l | Covers(s, j, l) ensures exists i :: Covers(s', i, l) {
      assert Covers(s', if j == k && l.vpn >= x then Loc(k.space, x) else j, l);
    }
    forall j, l | Covers(s', j, l)
      ensures exists i :: Covers(s, i, l) && SameAt(s.entries[i], s'.entries[j], l.vpn)
    {
      var i := SplitCovers(s, k, x, j, l);
    }
  }

  lemma SameTranslationTrans(s: State, s': State, s'': State)
    requires SameTranslation(s, s') && SameTranslation(s', s'')
    ensures SameTranslation(s, s'')
  {
    forall j, l | Covers(s'', j, l)
      ensures exists i :: Covers(s, i, l) && SameAt(s.entries[i], s''.entries[j], l.vpn)
    {
      var h :| Covers(s', h, l) && SameAt(s'.entries[h], s''.entries[j], l.vpn);
      var i :| Covers(s, i, l) && SameAt(s.entries[i], s'.entries[h], l.vpn);
    }
    forall i, l | Covers(s, i, l) ensures exists j :: Covers(s'', j, l) {
      var h :| Covers(s', h, l);
    }
  }

  lemma SameTranslationRefl(s: State, s': State)
    requires s'.entries == s.entries
    ensures SameTranslation(s, s')
  {
    forall j, l | Covers(s', j, l)
      ensures exists i :: Covers(s, i, l) && SameAt(s.entries[i], s'.entries[j], l.vpn)
    {
      assert Covers(s, j, l) && SameAt(s.entries[j], s'.entries[j], l.vpn);
    }
    forall i, l | Covers(s, i, l) ensures exists j :: Covers(s', j, l) { assert Covers(s', i, l); }
  }

  /** Entry `e` from page `x` on. */
  ghost function Tail(e: Entry, x: nat): Entry
    requires e.base <= x
  {
    e.(base := x, offset := e.offset + (x - e.base))
  }

  lemma LastObjRef(s: State, o: nat, ho: multiset<nat>)
    requires ObjRefsOk(s.objs, s.entries, s.amaps, ho) && o in ho && o in s.objs && s.objs[o] <= 1
    ensures s.objs[o] == 1 && ObjEntries(s.entries, o) == {}
  {
  }

  lemma LastAmapRef(s: State, a: nat)
    requires AmapRefsOk(s.amaps, s.entries, {a}) && a in s.amaps && s.amaps[a].refcnt <= 1
    ensures s.amaps[a].refcnt == 1 && AmapHolders(s.entries, a) == {}
  {
  }

  lemma HeldObjLive(s: State, o: nat, ho: multiset<nat>)
    requires ObjRefsOk(s.objs, s.entries, s.amaps, ho) && o in ho
    ensures o in s.objs
  {
  }

  function PagesOf(objPages: map<ObjPage, nat>, o: nat): set<ObjPage> {
    set b | b in objPages && b.obj == o
  }

  /** The entries after forking those in `done`: the old ones, and one of the
      same extent in `to` for each. */
  ghost predicate ForkedEntries(old_: map<Loc, Entry>, entries: map<Loc, Entry>, done: set<Loc>, to: nat) {
    && (forall k: Loc :: k.space != to ==> (k in entries <==> k in old_) && (k in entries ==> entries[k] == old_[k]))
    && (forall k :: k in entries && k.space == to ==>
          exists j :: j in done && j in old_ && j.vpn == k.vpn && entries[k].end == old_[j].end)
  }

  /** The eager memory after forking the entries in `done`. */
  ghost predicate ForkedMem(s0: State, m: Mem, done: set<Loc>, from: nat, to: nat, m0: Mem) {
    && (forall l: Loc :: l.space != to ==> (l in m <==> l in m0) && (l in m ==> m[l] == m0[l]))
    && (forall v :: Loc(to, v) in m ==> Loc(from, v) in m0 && m[Loc(to, v)] == m0[Loc(from, v)])
    && (forall k, v :: k in done && Covers(s0, k, Loc(from, v)) ==> Loc(to, v) in m)
  }

  lemma ForkRoom(s0: State, entries: map<Loc, Entry>, done: set<Loc>, k: Loc, to: nat)
    requires Inv(s0) && k in s0.entries && k !in done && k.space != to
    requires forall j :: j in done ==> j.space == k.space
    requires ForkedEntries(s0.entries, entries, done, to)
    ensures k in entries && entries[k] == s0.entries[k] && s0.entries[k].base == k.vpn
    ensures Free(entries, to, s0.entries[k].base, s0.entries[k].end)
  {
    hide AmapsPrivate, AmapRefsOk, ObjRefsOk, AnonRefsOk, PagesOk, NoLeak, IdsOk, PtesOk;
    assert EntriesOk(s0.entries, s0.amaps);
    forall i | i in entries && i.space == to ensures entries[i].end <= k.vpn || s0.entries[k].end <= i.vpn {
      var j :| j in done && j in s0.entries && j.vpn == i.vpn && entries[i].end == s0.entries[j].end;
      assert j != k && j == Loc(k.space, j.vpn) && k == Loc(k.space, k.vpn);
    }
  }

  /** The pages of the entries in `done` are write-protected. */
  ghost predicate Sealed(s0: State, done: set<Loc>, ptes: map<Loc, Pte>) {
    forall k, l :: k in done && Covers(s0, k, l) && l in ptes ==> !ptes[l].prot.write
  }

  lemma SealMore(s0: State, s1: State, s2: State, done: set<Loc>, k: Loc, to: nat)
    requires Sealed(s0, done, s1.ptes) && s2.ptes.Keys == s1.ptes.Keys
    requires forall l :: l in s2.ptes && s2.ptes[l].prot.write ==> s1.ptes[l].prot.write
    requires forall l :: Covers(s2, k, l) && l in s2.ptes ==> !s2.ptes[l].prot.write
    requires k in s0.entries && k.space != to && k in s1.entries && s1.entries[k] == s0.entries[k]
    requires SameExcept(s1.entries, s2.entries, Loc(to, k.vpn))
    ensures Sealed(s0, done + {k}, s2.ptes)
  {
    assert k != Loc(to, k.vpn);
    forall l | Covers(s0, k, l) ensures Covers(s2, k, l) { }
  }

  lemma ForkStart(s0: State, m0: Mem, from: nat, to: nat)
    requires Refines(s0, m0) && forall k :: k in s0.entries ==> k.space != to
    ensures ForkedEntries(s0.entries, s0.entries, {}, to) && ForkedMem(s0, m0, {}, from, to, m0)
    ensures Sealed(s0, {}, s0.ptes)
  {
  }

  lemma ForkedMore(old_: map<Loc, Entry>, entries: map<Loc, Entry>, entries': map<Loc, Entry>, done: set<Loc>, k: Loc, to: nat)
    requires ForkedEntries(old_, entries, done, to) && k in old_
    requires SameExcept(entries, entries', Loc(to, k.vpn)) && Loc(to, k.vpn) in entries'
    requires entries'[Loc(to, k.vpn)].end == old_[k].end
    ensures ForkedEntries(old_, entries', done + {k}, to)
  {
    forall i | i in entries' && i.space == to
      ensures exists j :: j in done + {k} && j in old_ && j.vpn == i.vpn && entries'[i].end == old_[j].end
    {
      if i == Loc(to, k.vpn) {
        assert k in done + {k};
      } else {
        var j :| j in done && j in old_ && j.vpn == i.vpn && entries[i].end == old_[j].end;
        assert j in done + {k};
      }
    }
  }

  lemma ForkProgress(s0: State, m1: Mem, m2: Mem, done: set<Loc>, k: Loc, from: nat, to: nat, m0: Mem)
    requires k in s0.entries && k.space == from && from != to && s0.entries[k].base == k.vpn
    requires Refines(s0, m0) && ForkedMem(s0, m1, done, from, to, m0)
    requires m2 == m1 + RangeCopy(m1, from, to, k.vpn, s0.entries[k].end)
    ensures ForkedMem(s0, m2, done + {k}, from, to, m0)
  {
    hide Refines, RangeCopy;
    var hi := s0.entries[k].end;
    forall l: Loc
      ensures l in m2 <==> l in m1 || (l.space == to && k.vpn <= l.vpn < hi && Loc(from, l.vpn) in m1)
      ensures l in m2 ==> m2[l] == if l.space == to && k.vpn <= l.vpn < hi && Loc(from, l.vpn) in m1 then m1[Loc(from, l.vpn)] else m1[l]
    {
      RangeCopyAt(m1, from, to, k.vpn, hi, l);
    }
    forall v | Covers(s0, k, Loc(from, v)) ensures Loc(from, v) in m1 {
      MemCovered(s0, m0, k, Loc(from, v));
    }
  }

  lemma RangeCopyAt(m: Mem, from: nat, to: nat, lo: nat, hi: nat, l: Loc)
    ensures l in RangeCopy(m, from, to, lo, hi) <==> l.space == to && lo <= l.vpn < hi && Loc(from, l.vpn) in m
    ensures l in RangeCopy(m, from, to, lo, hi) ==> RangeCopy(m, from, to, lo, hi)[l] == m[Loc(from, l.vpn)]
  {
    assert l == Loc(l.space, l.vpn);
  }

  lemma ForkDone(s0: State, s: State, m: Mem, done: set<Loc>, from: nat, to: nat, m0: Mem)
    requires Refines(s0, m0) && Inv(s0) && from != to
    requires forall k :: k in s0.entries ==> k.space != to
    requires done == set k | k in s0.entries && k.space == from
    requires ForkedMem(s0, m, done, from, to, m0) && s.ptes.Keys == s0.ptes.Keys
    requires Sealed(s0, done, s.ptes)
    ensures m == EagerMemory.Fork(m0, from, to) && OpenIn(s.ptes, from) == {}
  {
    hide EntriesOk, AmapsPrivate, AmapRefsOk, ObjRefsOk, AnonRefsOk, PagesOk, NoLeak, IdsOk, CellAt, PteOk, EagerMemory.Fork;
    forall l | l in s.ptes && l.space == from ensures !s.ptes[l].prot.write {
      var k :| Covers(s0, k, l);
      assert k in done;
    }
    forall v | Loc(from, v) in m0 ensures Loc(to, v) in m {
      var k :| Covers(s0, k, Loc(from, v));
      assert k in done;
    }
    forall v ensures Loc(to, v) !in m0 {
      assert forall k :: !Covers(s0, k, Loc(to, v));
    }
    forall l: Loc ensures (l in m <==> l in EagerMemory.Fork(m0, from, to)) && (l in m ==> m[l] == EagerMemory.Fork(m0, from, to)[l]) {
      assert l == Loc(l.space, l.vpn);
      ForkAt(m0, from, to, l);
    }
  }

  lemma ForkAt(m: Mem, from: nat, to: nat, l: Loc)
    requires from != to && forall v :: Loc(to, v) !in m
    ensures l in EagerMemory.Fork(m, from, to) <==> l in m || (l.space == to && Loc(from, l.vpn) in m)
    ensures l in EagerMemory.Fork(m, from, to) ==> EagerMemory.Fork(m, from, to)[l] == if l.space == to then m[Loc(from, l.vpn)] else m[l]
  {
    assert l == Loc(l.space, l.vpn);
  }

  /** The writable pages of a space. */
  ghost function OpenIn(ptes: map<Loc, Pte>, space: nat): set<Loc> {
    set l | l in ptes && l.space == space && ptes[l].prot.write
  }

  /** Pages [lo, hi) of `from`, as pages of `to`. */
  ghost function RangeCopy(m: Mem, from: nat, to: nat, lo: nat, hi: nat): Mem {
    map v | lo <= v < hi && Loc(from, v) in m :: Loc(to, v) := m[Loc(from, v)]
  }

  lemma ForkOpen(s: State, k: Loc, open: set<Loc>)
    requires AmapsPrivate(s.entries) && k in s.entries && open == OpenIn(s.ptes, k.space)
    ensures CopyOpen(s, s.entries[k].amap, open)
  {
  }

  /** Without write permission on the entry there is no writable PTE. */
  lemma ForkReadOnly(s: State, k: Loc, open: set<Loc>)
    requires PtesOk(s, open) && k in s.entries
    ensures !s.entries[k].prot.write ==> forall l :: Covers(s, k, l) && l in s.ptes ==> !s.ptes[l].prot.write
  {
    forall l | Covers(s, k, l) && l in s.ptes ensures LeqProt(s.ptes[l].prot, s.entries[k].prot) {
      assert PteOk(s, k, l, open);
    }
  }

  lemma ProtectedReadOnly(ptes: map<Loc, Pte>, ptes': map<Loc, Pte>, space: nat, lo: nat, hi: nat, prot: Prot)
    requires ptes' == ProtectPtes(ptes, space, lo, hi, prot) && !prot.write
    ensures ptes'.Keys == ptes.Keys && forall l :: l in ptes' && ptes'[l].prot.write ==> ptes[l].prot.write
    ensures forall l :: l in ptes' && l.space == space && lo <= l.vpn < hi ==> !ptes'[l].prot.write
  {
  }

  lemma WriteProtectStep(s: State, m: Mem, k: Loc, ha: set<nat>, ho: multiset<nat>)
    requires InvWith(s, ha, ho, OpenIn(s.ptes, k.space)) && Refines(s, m) && k in s.entries && s.entries[k].prot.write
    ensures var e := s.entries[k];
            var ptes := ProtectPtes(s.ptes, k.space, e.base, e.end, e.prot.(write := false));
            InvWith(s.(ptes := ptes), ha, ho, OpenIn(ptes, k.space)) && Refines(s.(ptes := ptes), m)
  {
    hide EntriesOk, AmapsPrivate, AmapRefsOk, ObjRefsOk, AnonRefsOk, PagesOk, NoLeak, IdsOk, Refines;
    var e := s.entries[k];
    var ptes := ProtectPtes(s.ptes, k.space, e.base, e.end, e.prot.(write := false));
    forall j, l | Covers(s, j, l) && l in ptes ensures LeqProt(ptes[l].prot, s.entries[j].prot) {
      assert PteOk(s, j, l, OpenIn(s.ptes, k.space));
      if Covers(s, k, l) { UniqueCover(s, j, k, l); }
    }
    RestrictPtesStep(s, m, ptes, ha, ho, OpenIn(s.ptes, k.space), OpenIn(ptes, k.space));
  }

  lemma CopiedAt(s: State, s': State, e: Entry, e': Entry, v: nat)
    requires e' == e.(amap := e'.amap) && e'.amap != e.amap
    requires SlotsCopied(s.slots, s'.slots, e.amap, e'.amap)
    ensures CellAt(s', e', v) == CellAt(s', e, v)
  {
    var t := e'.SlotAt(v);
    assert Slot(e.amap, t.at) == e.SlotAt(v);
    assert t in s'.slots <==> e.SlotAt(v) in s.slots;
    assert e.SlotAt(v) in s'.slots <==> e.SlotAt(v) in s.slots;
  }

  /** The new entry shows what the old one shows. */
  lemma CopiedMem(s: State, s': State, m: Mem, k: Loc, to: nat, e': Entry)
    requires Refines(s', m)
    requires k in s.entries && s'.entries == s.entries && e' == s.entries[k].(amap := e'.amap)
    requires e'.amap != s.entries[k].amap && e'.base == k.vpn
    requires SlotsCopied(s.slots, s'.slots, s.entries[k].amap, e'.amap)
    ensures WithEntry(s', m, to, e') == m + RangeCopy(m, k.space, to, k.vpn, s.entries[k].end)
  {
    hide Refines, SlotsCopied, CellAt;
    var e := s.entries[k];
    forall v | e.base <= v < e.end
      ensures Loc(k.space, v) in m && m[Loc(k.space, v)] == CellAt(s', e', v)
    {
      assert Covers(s', k, Loc(k.space, v));
      MemCovered(s', m, k, Loc(k.space, v));
      CopiedAt(s, s', e, e', v);
    }
  }

  /** Every writable page of an entry over amap `a` is in `open`. */
  ghost predicate CopyOpen(s: State, a: nat, open: set<Loc>) {
    forall k, l :: Covers(s, k, l) && s.entries[k].amap == a && l in s.ptes && s.ptes[l].prot.write ==> l in open
  }

  ghost predicate SlotsCopied(slots: map<Slot, nat>, slots': map<Slot, nat>, a: nat, b: nat) {
    forall t: Slot ::
      var src := if t.amap == b then Slot(a, t.at) else t;
      (t in slots' <==> src in slots) && (t in slots' ==> slots'[t] == slots[src])
  }

  ghost predicate SamePages(anons: map<nat, Anon>, anons': map<nat, Anon>) {
    && (forall n :: n in anons <==> n in anons')
    && (forall n :: n in anons ==> anons'[n].page == anons[n].page)
  }

  lemma SlotAnonLive(s: State, t: Slot)
    requires AnonRefsOk(s.slots, s.amaps, s.anons) && t in s.slots
    ensures s.slots[t] in s.anons && s.anons[s.slots[t]].refcnt > 0
  {
  }

  /** A PTE leads to the contents the eager model has there, and allows only
      what the entry allows. */
  lemma PteSeen(s: State, m: Mem, l: Loc)
    requires Inv(s) && Refines(s, m) && l in s.ptes
    ensures l in m && s.ptes[l].page in s.pages && s.pages[s.ptes[l].page] == m[l].content
    ensures LeqProt(s.ptes[l].prot, m[l].prot)
  {
    hide EntriesOk, AmapsPrivate, AmapRefsOk, ObjRefsOk, AnonRefsOk, NoLeak, IdsOk;
    var k :| Covers(s, k, l);
    assert PteOk(s, k, l, {});
  }

  ghost function Written(s: State, page: nat, word: nat, value: int): map<nat, Content>
    requires page in s.pages && word < PAGE_WORDS
  {
    s.pages[page := s.pages[page][word := value]]
  }

  /** A store through a writable PTE is seen at that page and nowhere else. */
  lemma StoreStep(s: State, m: Mem, l: Loc, word: nat, value: int)
    requires Inv(s) && Refines(s, m) && word < PAGE_WORDS
    requires l in s.ptes && s.ptes[l].prot.write && s.ptes[l].page in s.pages && l in m
    ensures var s' := s.(pages := Written(s, s.ptes[l].page, word, value));
            Inv(s') && Refines(s', Store(m, l, word, value))
  {
    hide AmapsPrivate, AmapRefsOk, ObjRefsOk, AnonRefsOk, PagesOk, NoLeak, CellAt, EntriesOk;
    var s' := s.(pages := Written(s, s.ptes[l].page, word, value));
    var m' := Store(m, l, word, value);
    var k :| Covers(s, k, l);
    assert PteOk(s, k, l, {});
    StorePages(s, k, l, word, value);
    assert forall j, h :: Covers(s', j, h) <==> Covers(s, j, h);
    forall j, h | Covers(s', j, h)
      ensures PteOk(s', j, h, {}) && h in m' && m'[h] == CellAt(s', s.entries[j], h.vpn)
    {
      StoreSeenAt(s, k, l, j, h, word, value);
    }
  }

  lemma StorePages(s: State, k: Loc, l: Loc, word: nat, value: int)
    requires AnonRefsOk(s.slots, s.amaps, s.anons) && PagesOk(s.anons, s.objPages, s.objs, s.pages, s.pager)
    requires NoLeak(s.anons, s.objPages, s.pages)
    requires Covers(s, k, l) && l in s.ptes && s.ptes[l].prot.write && PteOk(s, k, l, {}) && word < PAGE_WORDS
    requires s.ptes[l].page in s.pages
    ensures PagesOk(s.anons, s.objPages, s.objs, Written(s, s.ptes[l].page, word, value), s.pager)
    ensures NoLeak(s.anons, s.objPages, Written(s, s.ptes[l].page, word, value))
  {
    hide AnonHolders;
  }

  lemma StoreSeenAt(s: State, k: Loc, l: Loc, j: Loc, h: Loc, word: nat, value: int)
    requires EntriesOk(s.entries, s.amaps) && AmapsPrivate(s.entries)
    requires AnonRefsOk(s.slots, s.amaps, s.anons) && PagesOk(s.anons, s.objPages, s.objs, s.pages, s.pager)
    requires Covers(s, k, l) && l in s.ptes && s.ptes[l].prot.write && PteOk(s, k, l, {}) && word < PAGE_WORDS
    requires Covers(s, j, h) && PteOk(s, j, h, {}) && s.ptes[l].page in s.pages
    ensures var s' := s.(pages := Written(s, s.ptes[l].page, word, value));
            var c := CellAt(s, s.entries[j], h.vpn);
            && PteOk(s', j, h, {})
            && CellAt(s', s.entries[j], h.vpn) == if h == l then c.(content := c.content[word := value]) else c
  {
    hide EntriesOk, AmapsPrivate;
    var t, u := s.entries[k].SlotAt(l.vpn), s.entries[j].SlotAt(h.vpn);
    if h == l { UniqueCover(s, j, k, l); }
    if t == u { SlotSeenOnce(s, j, h, k, l); }
    else if u in s.slots && t in s.slots && s.slots[u] == s.slots[t] { SoleHolder(s, t, u); }
  }

  /** The amap slot behind page `l` of entry `k` has an anon held `lo` to `hi`
      times. */
  ghost predicate HeldBy(s: State, k: Loc, l: Loc, lo: nat, hi: nat) {
    k in s.entries &&
    var t := s.entries[k].SlotAt(l.vpn);
    t in s.slots && s.slots[t] in s.anons && lo <= s.anons[s.slots[t]].refcnt <= hi
  }

  /** The amap slot entry `k` shows at page `l`. */
  ghost function ShownSlot(s: State, k: Loc, l: Loc): Slot {
    if k in s.entries then s.entries[k].SlotAt(l.vpn) else Slot(0, IndexOf(0))
  }

  ghost predicate AllowsFault(s: State, k: Loc, write: bool) {
    k in s.entries && s.entries[k].prot.read && (write ==> s.entries[k].prot.write)
  }

  ghost predicate SameExcept<K(!new), V>(m: map<K, V>, m': map<K, V>, x: K) {
    forall k :: k != x ==> (k in m <==> k in m') && (k in m ==> m[k] == m'[k])
  }

  /** What the invariant says about the entry `k` over page `l`. */
  ghost predicate EntryFacts(s: State, m: Mem, k: Loc, l: Loc) {
    && Covers(s, k, l)
    && (forall j :: Covers(s, j, l) ==> j == k)
    && s.entries[k].base == k.vpn < s.entries[k].end
    && s.entries[k].amap in s.amaps && s.entries[k].obj in s.objs
    && l in m && m[l] == CellAt(s, s.entries[k], l.vpn)
    && var t := s.entries[k].SlotAt(l.vpn);
       t in s.slots ==> s.slots[t] in s.anons && s.anons[s.slots[t]].refcnt > 0 && s.anons[s.slots[t]].page in s.pages
  }

  lemma EntryFactsHold(s: State, m: Mem, k: Loc, l: Loc)
    requires Inv(s) && Refines(s, m) && Covers(s, k, l)
    ensures EntryFacts(s, m, k, l)
  {
    hide AmapsPrivate, AmapRefsOk, AnonRefsOk, PagesOk, NoLeak, IdsOk, PtesOk, ContentAt;
    AnonsCounted(s);
    forall j | Covers(s, j, l) ensures j == k { UniqueCover(s, j, k, l); }
  }

  lemma MemCovered(s: State, m: Mem, k: Loc, l: Loc)
    requires Refines(s, m) && Covers(s, k, l)
    ensures l in m && m[l] == CellAt(s, s.entries[k], l.vpn)
  {
  }

  lemma ObjLive(s: State, k: Loc, ho: multiset<nat>)
    requires EntriesOk(s.entries, s.amaps) && ObjRefsOk(s.objs, s.entries, s.amaps, ho) && k in s.entries
    ensures s.entries[k].obj in s.objs
  {
  }

  // Mapping ----------------------------------------------------------------

  lemma UnmapNothing(m: Mem, space: nat, lo: nat, hi: nat)
    ensures !Busy(m, space, lo, hi) ==> EagerMemory.Unmap(m, space, lo, hi) == m
  {
    if !Busy(m, space, lo, hi) {
      forall l | l in m ensures !(l.space == space && lo <= l.vpn < hi) {
        assert l == Loc(l.space, l.vpn);
      }
    }
  }

  /** Every mapped page comes from a live object. */
  lemma BacksLive(s: State, m: Mem)
    requires Inv(s) && Refines(s, m)
    ensures forall l :: l in m ==> m[l].back.obj in s.objs
  {
    hide IndexOf, AmapsPrivate, AmapRefsOk, AnonRefsOk, PagesOk, NoLeak, IdsOk, PtesOk, ContentAt;
    forall l | l in m ensures m[l].back.obj in s.objs {
      var k :| Covers(s, k, l);
    }
  }

  /** A reference that no entry holds keeps the invariant from holding. */
  lemma HeldShows(s: State, a: nat, ho: multiset<nat>, open: set<Loc>)
    requires InvWith(s, {a}, ho, open) && a in s.amaps
    ensures !Inv(s)
  {
  }

  /** Nothing new is visible in an amap no slot of which is filled. */
  lemma NewMem(s: State, m: Mem, space: nat, e: Entry)
    requires forall t :: t in s.slots ==> t.amap != e.amap
    requires e.prot == e.maxProt && e.base <= e.end
    ensures WithEntry(s, m, space, e)
         == EagerMemory.Map(m, space, e.base, e.end - e.base, ObjPage(e.obj, e.offset), e.prot, s.pager)
  {
    hide WithEntry, EagerMemory.Map, CellAt;
    var a, b := WithEntry(s, m, space, e), EagerMemory.Map(m, space, e.base, e.end - e.base, ObjPage(e.obj, e.offset), e.prot, s.pager);
    forall l: Loc ensures (l in a <==> l in b) && (l in a ==> a[l] == b[l]) {
      WithEntryAt(s, m, space, e, l);
      NewMemAt(s, m, space, e, l);
    }
  }

  lemma NewMemAt(s: State, m: Mem, space: nat, e: Entry, l: Loc)
    requires forall t :: t in s.slots ==> t.amap != e.amap
    requires e.prot == e.maxProt && e.base <= e.end
    ensures var b := EagerMemory.Map(m, space, e.base, e.end - e.base, ObjPage(e.obj, e.offset), e.prot, s.pager);
            (l in b <==> l in m || (l.space == space && e.base <= l.vpn < e.end))
            && (l in b ==> b[l] == if l.space == space && e.base <= l.vpn < e.end then CellAt(s, e, l.vpn) else m[l])
  {
    assert l == Loc(l.space, l.vpn);
  }

  /** A range is free of entries exactly when nothing in it is mapped. */
  lemma FreeExact(s: State, m: Mem, space: nat, lo: nat, hi: nat)
    requires Inv(s) && Refines(s, m)
    ensures lo < hi ==> (Free(s.entries, space, lo, hi) <==> NoneIn(m, space, lo, hi))
  {
    hide AmapsPrivate, AmapRefsOk, ObjRefsOk, AnonRefsOk, PagesOk, NoLeak, IdsOk, PtesOk, CellAt;
    if lo < hi && !Free(s.entries, space, lo, hi) {
      var k :| k in s.entries && k.space == space && s.entries[k].end > lo && hi > k.vpn;
      var v := if k.vpn < lo then lo else k.vpn;
      assert Covers(s, k, Loc(space, v));
    }
    if Free(s.entries, space, lo, hi) {
      forall v | lo <= v < hi ensures Loc(space, v) !in m {
        assert forall k :: !Covers(s, k, Loc(space, v));
      }
    }
  }

  lemma EmptyExact(s: State, m: Mem, space: nat)
    requires Inv(s) && Refines(s, m)
    ensures (forall k :: k in s.entries ==> k.space != space) <==> (forall l :: l in m ==> l.space != space)
  {
    hide AmapsPrivate, AmapRefsOk, ObjRefsOk, AnonRefsOk, PagesOk, NoLeak, IdsOk, PtesOk, CellAt;
    if k :| k in s.entries && k.space == space {
      assert Covers(s, k, k);
    }
    if l :| l in m && l.space == space {
      var k :| Covers(s, k, l);
    }
  }
}
