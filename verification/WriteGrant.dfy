/** What `vm_protect` does when it grants write access to pages another address
    space still shares. */
module WriteGrant {
  import opened AmapIndex
  import opened VmState
  import opened EagerMemory
  import opened VmSteps
  import opened VmLoops

  /** The physical page that page `v` of an entry shows, or -1 where none is resident. */
  ghost function ShownPage(s: State, e: Entry, v: nat): int {
    var t, b := e.SlotAt(v), e.BackingAt(v);
    if t in s.slots && s.slots[t] in s.anons then s.anons[s.slots[t]].page
    else if b in s.objPages then s.objPages[b]
    else -1
  }

  /** What is seen there: the contents of that page, or what the pager would bring. */
  ghost function ShownAt(s: State, e: Entry, v: nat): Content {
    var p := ShownPage(s, e, v);
    if p in s.pages then s.pages[p] else s.pager(e.BackingAt(v))
  }

  /** Every space sees the memory of the eager model, and so will later mappings
      of the objects: their resident pages are as the pager gave them. */
  ghost predicate Agrees(s: State, m: Mem) {
    && (forall l :: l in m ==> exists k :: Covers(s, k, l))
    && (forall k, l :: Covers(s, k, l) ==> CellAgrees(s, m, k, l))
    && (forall b :: b in s.objPages ==> s.objPages[b] in s.pages && s.pages[s.objPages[b]] == s.pager(b))
  }

  ghost predicate CellAgrees(s: State, m: Mem, k: Loc, l: Loc)
    requires k in s.entries
  {
    l in m && m[l] == Cell(ShownAt(s, s.entries[k], l.vpn), s.entries[k].prot, s.entries[k].maxProt, s.entries[k].BackingAt(l.vpn))
  }

  /** The page at `l` is an anon, and no other visible page shows the same one. */
  ghost predicate SoleView(s: State, k: Loc, l: Loc)
    requires Covers(s, k, l)
  {
    && s.entries[k].SlotAt(l.vpn) in s.slots
    && forall j, h :: Covers(s, j, h) && h != l ==> ShownPage(s, s.entries[j], h.vpn) != ShownPage(s, s.entries[k], l.vpn)
  }

  /** The state after `vm_protect` of entry `k` and a store through the PTE at `l`. */
  ghost function StoredThrough(s: State, k: Loc, prot: Prot, setMax: bool, l: Loc, word: nat, value: int): State
    requires k in s.entries && l in s.ptes && s.ptes[l].page in s.pages && word < PAGE_WORDS
  {
    var s' := ProtectedEntry(s, k, prot, setMax);
    s'.(pages := Written(s, s.ptes[l].page, word, value))
  }

  ghost function GrantedMem(s: State, m: Mem, k: Loc, prot: Prot, setMax: bool): Mem
    requires k in s.entries
  {
    Reprotected(m, k.space, s.entries[k].base, s.entries[k].end, prot, setMax)
  }

  ghost function StoredMem(s: State, m: Mem, k: Loc, prot: Prot, setMax: bool, l: Loc, word: nat, value: int): Mem
    requires k in s.entries && l in GrantedMem(s, m, k, prot, setMax) && word < PAGE_WORDS
  {
    Store(GrantedMem(s, m, k, prot, setMax), l, word, value)
  }

  lemma ShownIs(s: State, m: Mem, k: Loc, l: Loc)
    requires Inv(s) && Refines(s, m) && Covers(s, k, l)
    ensures l in m && ShownAt(s, s.entries[k], l.vpn) == m[l].content
    ensures m[l].prot == s.entries[k].prot && m[l].maxProt == s.entries[k].maxProt
    ensures ShownPage(s, s.entries[k], l.vpn) >= 0 ==> ShownPage(s, s.entries[k], l.vpn) in s.pages
    ensures l in s.ptes ==> s.ptes[l].page == ShownPage(s, s.entries[k], l.vpn)
  {
    hide EntriesOk, AmapsPrivate, AmapRefsOk, ObjRefsOk, NoLeak, IdsOk, AnonHolders, IndexOf;
    assert PteOk(s, k, l, {});
  }

  /** What a page shows after the store. */
  lemma StoredShows(s: State, m: Mem, k: Loc, prot: Prot, setMax: bool, l: Loc, word: nat, value: int, j: Loc, h: Loc)
    requires Inv(s) && Refines(s, m) && word < PAGE_WORDS
    requires Covers(s, k, l) && l in s.ptes && s.ptes[l].page in s.pages && Covers(s, j, h)
    ensures
      var s'' := StoredThrough(s, k, prot, setMax, l, word, value);
      && Covers(s'', j, h) && l in m && h in m
      && ShownAt(s'', s''.entries[j], h.vpn) ==
           if ShownPage(s, s.entries[j], h.vpn) == ShownPage(s, s.entries[k], l.vpn) then m[l].content[word := value] else m[h].content
  {
    hide Inv, Refines, IndexOf;
    ShownIs(s, m, k, l);
    ShownIs(s, m, j, h);
    var s'' := StoredThrough(s, k, prot, setMax, l, word, value);
    assert ShownPage(s'', s''.entries[j], h.vpn) == ShownPage(s, s.entries[j], h.vpn);
  }

  /** The page `h`, which entry `j` covers, after the grant and the store. */
  ghost predicate GrantedCell(s: State, m: Mem, k: Loc, prot: Prot, setMax: bool, l: Loc, word: nat, value: int, j: Loc, h: Loc)
    requires k in s.entries && j in s.entries && l in GrantedMem(s, m, k, prot, setMax) && word < PAGE_WORDS
  {
    var e, m' := ProtectedEntry(s, k, prot, setMax).entries[j], StoredMem(s, m, k, prot, setMax, l, word, value);
    && l in m && h in m && h in m'
    && m'[h] == Cell(if h == l then m[l].content[word := value] else m[h].content, e.prot, e.maxProt, m[h].back)
  }

  /** The eager memory after the grant and the store. */
  lemma GrantedAt(s: State, m: Mem, k: Loc, prot: Prot, setMax: bool, l: Loc, word: nat, value: int, j: Loc, h: Loc)
    requires Inv(s) && Refines(s, m) && word < PAGE_WORDS && Covers(s, k, l) && Covers(s, j, h)
    requires l in GrantedMem(s, m, k, prot, setMax)
    ensures GrantedCell(s, m, k, prot, setMax, l, word, value, j, h)
  {
    hide Inv, Refines, ShownAt, ShownPage, IndexOf;
    ShownIs(s, m, k, l);
    ShownIs(s, m, j, h);
    if Covers(s, k, h) { SameShown(s, j, k, h); }
  }

  /** A store through the PTE at `l`, once `vm_protect` has granted it, agrees
      with the eager model. */
  ghost predicate StoreAgrees(s: State, m: Mem, k: Loc, prot: Prot, setMax: bool, l: Loc, word: nat, value: int)
    requires k in s.entries && l in s.ptes && s.ptes[l].page in s.pages && word < PAGE_WORDS && l in GrantedMem(s, m, k, prot, setMax)
  {
    Agrees(StoredThrough(s, k, prot, setMax, l, word, value), StoredMem(s, m, k, prot, setMax, l, word, value))
  }

  /** So does every store through a page that entry `k` has present. */
  ghost predicate GrantAgrees(s: State, m: Mem, k: Loc, prot: Prot, setMax: bool)
    requires Inv(s) && Refines(s, m) && k in s.entries
  {
    forall l, word: nat, value | Covers(s, k, l) && l in s.ptes && word < PAGE_WORDS ::
      Granted(s, m, k, prot, setMax, l); StoreAgrees(s, m, k, prot, setMax, l, word, value)
  }

  lemma Granted(s: State, m: Mem, k: Loc, prot: Prot, setMax: bool, l: Loc)
    requires Inv(s) && Refines(s, m) && Covers(s, k, l) && l in s.ptes
    ensures s.ptes[l].page in s.pages && l in m && l in GrantedMem(s, m, k, prot, setMax)
  {
    hide Inv, Refines, IndexOf;
    ShownIs(s, m, k, l);
  }

  /** Write access may be granted exactly where every present page is an anon
      that no other visible page shows: then, and only then, each space goes on
      seeing what the eager model says after any store. */
  lemma GrantExact(s: State, m: Mem, k: Loc, prot: Prot, setMax: bool)
    requires Inv(s) && Refines(s, m) && k in s.entries && prot.write
    ensures GrantAgrees(s, m, k, prot, setMax) <==> forall l :: Covers(s, k, l) && l in s.ptes ==> SoleView(s, k, l)
  {
    hide Inv, Refines, SoleView, StoreAgrees, IndexOf;
    if forall l :: Covers(s, k, l) && l in s.ptes ==> SoleView(s, k, l) {
      forall l, word: nat, value | Covers(s, k, l) && l in s.ptes && word < PAGE_WORDS
        ensures (Granted(s, m, k, prot, setMax, l); StoreAgrees(s, m, k, prot, setMax, l, word, value))
      {
        Granted(s, m, k, prot, setMax, l);
        SoleAgrees(s, m, k, prot, setMax, l, word, value);
      }
    } else {
      var l :| Covers(s, k, l) && l in s.ptes && !SoleView(s, k, l);
      Granted(s, m, k, prot, setMax, l);
      SharedLeaks(s, m, k, prot, setMax, l, 0, m[l].content[0] + 1);
    }
  }

  lemma SoleAgrees(s: State, m: Mem, k: Loc, prot: Prot, setMax: bool, l: Loc, word: nat, value: int)
    requires Inv(s) && Refines(s, m) && Covers(s, k, l) && l in s.ptes && s.ptes[l].page in s.pages && word < PAGE_WORDS
    requires SoleView(s, k, l) && l in GrantedMem(s, m, k, prot, setMax)
    ensures StoreAgrees(s, m, k, prot, setMax, l, word, value)
  {
    hide Inv, IndexOf, ShownAt, ShownPage;
    var s'', m'' := StoredThrough(s, k, prot, setMax, l, word, value), StoredMem(s, m, k, prot, setMax, l, word, value);
    forall j, h | Covers(s'', j, h) ensures CellAgrees(s'', m'', j, h) {
      assert Covers(s, j, h);
      StoredShows(s, m, k, prot, setMax, l, word, value, j, h);
      GrantedAt(s, m, k, prot, setMax, l, word, value, j, h);
      if h == l { SameShown(s, j, k, l); }
    }
    forall h | h in m'' ensures exists j :: Covers(s'', j, h) {
      var j :| Covers(s, j, h);
      assert Covers(s'', j, h);
    }
    ObjectsApart(s, m, k, l);
  }

  lemma SameShown(s: State, j: Loc, k: Loc, l: Loc)
    requires Inv(s) && Covers(s, j, l) && Covers(s, k, l)
    ensures j == k
  {
    UniqueCover(s, j, k, l);
  }

  /** No object page is the anon page behind `l`. */
  lemma ObjectsApart(s: State, m: Mem, k: Loc, l: Loc)
    requires Inv(s) && Refines(s, m) && Covers(s, k, l) && l in s.ptes && SoleView(s, k, l)
    ensures forall b :: b in s.objPages ==> s.objPages[b] != s.ptes[l].page && s.objPages[b] in s.pages && s.pages[s.objPages[b]] == s.pager(b)
  {
    hide EntriesOk, AmapsPrivate, AmapRefsOk, ObjRefsOk, NoLeak, IdsOk, AnonHolders, IndexOf, Refines;
    assert PteOk(s, k, l, {});
  }

  /** A store through a page that something else shows, or the object itself, is
      seen where the eager model has none. */
  lemma SharedLeaks(s: State, m: Mem, k: Loc, prot: Prot, setMax: bool, l: Loc, word: nat, value: int)
    requires Inv(s) && Refines(s, m) && Covers(s, k, l) && l in s.ptes && s.ptes[l].page in s.pages && word < PAGE_WORDS
    requires !SoleView(s, k, l) && l in GrantedMem(s, m, k, prot, setMax) && l in m && value != m[l].content[word]
    ensures !StoreAgrees(s, m, k, prot, setMax, l, word, value)
  {
    hide Inv, Refines, IndexOf, ShownAt, ShownPage;
    if s.entries[k].SlotAt(l.vpn) !in s.slots {
      ObjectLeaks(s, m, k, prot, setMax, l, word, value);
    } else {
      var j, h :| Covers(s, j, h) && h != l && ShownPage(s, s.entries[j], h.vpn) == ShownPage(s, s.entries[k], l.vpn);
      PageLeaks(s, m, k, prot, setMax, l, word, value, j, h);
      GrantedAt(s, m, k, prot, setMax, l, word, value, j, h);
      assert !CellAgrees(StoredThrough(s, k, prot, setMax, l, word, value), StoredMem(s, m, k, prot, setMax, l, word, value), j, h);
    }
  }

  /** A page that shows the same physical page, be it of an anon or of the
      object, sees the store. */
  lemma PageLeaks(s: State, m: Mem, k: Loc, prot: Prot, setMax: bool, l: Loc, word: nat, value: int, j: Loc, h: Loc)
    requires Inv(s) && Refines(s, m) && Covers(s, k, l) && l in s.ptes && s.ptes[l].page in s.pages && word < PAGE_WORDS
    requires Covers(s, j, h) && ShownPage(s, s.entries[j], h.vpn) == ShownPage(s, s.entries[k], l.vpn)
    ensures
      var s'' := StoredThrough(s, k, prot, setMax, l, word, value);
      h in m && l in m && m[h].content == m[l].content && ShownAt(s'', s''.entries[j], h.vpn) == m[h].content[word := value]
  {
    hide Inv, Refines, IndexOf;
    StoredShows(s, m, k, prot, setMax, l, word, value, j, h);
    ShownIs(s, m, j, h);
    ShownIs(s, m, k, l);
  }

  /** Without an anon the store changes the page of the object, and with it what
      every later mapping of the object starts from. */
  lemma ObjectLeaks(s: State, m: Mem, k: Loc, prot: Prot, setMax: bool, l: Loc, word: nat, value: int)
    requires Inv(s) && Refines(s, m) && Covers(s, k, l) && l in s.ptes && s.ptes[l].page in s.pages && word < PAGE_WORDS
    requires s.entries[k].SlotAt(l.vpn) !in s.slots && l in m && value != m[l].content[word]
    ensures
      var s'', b := StoredThrough(s, k, prot, setMax, l, word, value), s.entries[k].BackingAt(l.vpn);
      b in s''.objPages && s''.objPages[b] in s''.pages && s''.pages[s''.objPages[b]] == s.pager(b)[word := value] != s.pager(b)
  {
    hide EntriesOk, AmapsPrivate, AmapRefsOk, ObjRefsOk, NoLeak, IdsOk, AnonHolders, IndexOf;
    assert PteOk(s, k, l, {});
  }

  /** A page whose anon has one reference is seen once; the other way round holds
      when the slots that hold the anon are visible. */
  lemma SoleCount(s: State, k: Loc, l: Loc)
    requires Inv(s) && Covers(s, k, l) && s.entries[k].SlotAt(l.vpn) in s.slots
    ensures var n := s.slots[s.entries[k].SlotAt(l.vpn)]; n in s.anons && (s.anons[n].refcnt == 1 ==> SoleView(s, k, l))
  {
    hide AmapRefsOk, ObjRefsOk, NoLeak, IdsOk, IndexOf, PtesOk;
    var t := s.entries[k].SlotAt(l.vpn);
    var n := s.slots[t];
    if s.anons[n].refcnt == 1 {
      forall j, h | Covers(s, j, h) && h != l
        ensures ShownPage(s, s.entries[j], h.vpn) != ShownPage(s, s.entries[k], l.vpn)
      {
        OtherSlot(s, k, l, j, h);
      }
    }
  }

  lemma OtherSlot(s: State, k: Loc, l: Loc, j: Loc, h: Loc)
    requires Inv(s) && Covers(s, k, l) && Covers(s, j, h) && h != l && s.entries[k].SlotAt(l.vpn) in s.slots
    requires s.slots[s.entries[k].SlotAt(l.vpn)] in s.anons && s.anons[s.slots[s.entries[k].SlotAt(l.vpn)]].refcnt == 1
    ensures ShownPage(s, s.entries[j], h.vpn) != ShownPage(s, s.entries[k], l.vpn)
  {
    hide AmapRefsOk, ObjRefsOk, NoLeak, IdsOk, IndexOf, PtesOk;
    var t, u := s.entries[k].SlotAt(l.vpn), s.entries[j].SlotAt(h.vpn);
    if t == u {
      SlotSeenOnce(s, j, h, k, l);
    } else if u in s.slots && s.slots[u] == s.slots[t] {
      TwoHolders(s.slots, t, u);
    }
  }

  lemma TwoHolders(slots: map<Slot, nat>, t: Slot, u: Slot)
    requires t in slots && u in slots && t != u && slots[t] == slots[u]
    ensures |AnonHolders(slots, slots[t])| >= 2
  {
    assert {t, u} <= AnonHolders(slots, slots[t]);
    SubsetSize({t, u}, AnonHolders(slots, slots[t]));
  }

  /** Exactly when `vm_protect` may grant write access without breaking the
      privacy of copy-on-write pages. */
  lemma ProtectExact(s: State, m: Mem, k: Loc, prot: Prot, setMax: bool)
    requires Inv(s) && Refines(s, m) && k in s.entries && prot.write
    ensures Inv(ProtectedEntry(s, k, prot, setMax)) <==> WriteGrantSafe(s, k)
  {
    hide EntriesOk, AmapsPrivate, AmapRefsOk, ObjRefsOk, AnonRefsOk, PagesOk, NoLeak, IdsOk, Refines, IndexOf, PteShows;
    var s' := ProtectedEntry(s, k, prot, setMax);
    if WriteGrantSafe(s, k) {
      ProtectEntryStep(s, m, k, prot, setMax, {}, multiset{}, {});
    } else {
      var l :| Covers(s, k, l) && l in s.ptes
            && !PteUnshared(s, s.entries[k], l.vpn, Pte(s.ptes[l].page, Prot(true, true, true)));
      assert Covers(s', k, l) && !PteOk(s', k, l, {});
    }
  }

  const RO := Prot(true, false, false)
  const RW := Prot(true, true, false)

  /** Two spaces after a fork, sharing the one anon; space 0 has a read-only PTE. */
  ghost function AfterFork(zero: Content): State {
    State(map[Loc(0, 0) := Entry(0, 1, 0, 0, 1, RO, RW), Loc(1, 0) := Entry(0, 1, 0, 0, 2, RO, RW)],
          map[Loc(0, 0) := Pte(4, RO)],
          map[1 := Amap(0, 1), 2 := Amap(0, 1)],
          map[Slot(1, IndexOf(0)) := 3, Slot(2, IndexOf(0)) := 3],
          map[3 := Anon(4, 2)],
          map[0 := 4],
          map[],
          map[4 := zero],
          5,
          b => zero)
  }

  /** `mprotect(PROT_READ | PROT_WRITE)` after fork breaks the privacy of the
      page: the state it starts from is consistent, the one it leads to is not. */
  lemma WriteGrantExample(zero: Content)
    ensures Inv(AfterFork(zero)) && !WriteGrantSafe(AfterFork(zero), Loc(0, 0))
    ensures !Inv(ProtectedEntry(AfterFork(zero), Loc(0, 0), RW, false))
    ensures Refines(AfterFork(zero), ExampleMem(zero)) && !GrantAgrees(AfterFork(zero), ExampleMem(zero), Loc(0, 0), RW, false)
  {
    hide Inv, Refines, ProtectedEntry, GrantAgrees, IndexOf;
    ExampleInv(zero);
    ExampleRefines(zero);
    ExampleUnsafe(zero);
    ProtectExact(AfterFork(zero), ExampleMem(zero), Loc(0, 0), RW, false);
    GrantExact(AfterFork(zero), ExampleMem(zero), Loc(0, 0), RW, false);
    ExampleShared(zero);
  }

  lemma ExampleShared(zero: Content)
    ensures var s := AfterFork(zero);
      Covers(s, Loc(0, 0), Loc(0, 0)) && Loc(0, 0) in s.ptes && !SoleView(s, Loc(0, 0), Loc(0, 0))
  {
    hide IndexOf;
    var s := AfterFork(zero);
    assert Covers(s, Loc(0, 0), Loc(0, 0)) && Covers(s, Loc(1, 0), Loc(1, 0));
    assert ShownPage(s, s.entries[Loc(0, 0)], 0) == 4 && ShownPage(s, s.entries[Loc(1, 0)], 0) == 4;
  }

  /** The same after space 1 has unmapped that page but not the next one of the
      mapping: its amap still holds the anon, where nothing can see it. */
  ghost function AfterPartUnmap(zero: Content): State {
    State(map[Loc(0, 0) := Entry(0, 1, 0, 0, 1, RO, RW), Loc(1, 1) := Entry(1, 2, 1, 0, 2, RO, RW)],
          map[Loc(0, 0) := Pte(4, RO)],
          map[1 := Amap(0, 1), 2 := Amap(0, 1)],
          map[Slot(1, IndexOf(0)) := 3, Slot(2, IndexOf(0)) := 3],
          map[3 := Anon(4, 2)],
          map[0 := 4],
          map[],
          map[4 := zero],
          5,
          b => zero)
  }

  ghost function PartMem(zero: Content): Mem {
    map[Loc(0, 0) := Cell(zero, RO, RW, ObjPage(0, 0)), Loc(1, 1) := Cell(zero, RO, RW, ObjPage(0, 1))]
  }

  /** So two references to an anon do not always mean two views of it. */
  lemma InvisibleHolder(zero: Content)
    ensures var s := AfterPartUnmap(zero);
      && Inv(s) && Refines(s, PartMem(zero)) && s.anons[s.slots[s.entries[Loc(0, 0)].SlotAt(0)]].refcnt == 2
      && GrantAgrees(s, PartMem(zero), Loc(0, 0), RW, false)
  {
    hide Inv, Refines, GrantAgrees, IndexOf;
    var s := AfterPartUnmap(zero);
    PartInv(zero);
    PartRefines(zero);
    GrantExact(s, PartMem(zero), Loc(0, 0), RW, false);
    forall l | Covers(s, Loc(0, 0), l) && l in s.ptes ensures SoleView(s, Loc(0, 0), l) {
      PartSole(zero, l);
    }
  }

  lemma PartSole(zero: Content, l: Loc)
    requires Covers(AfterPartUnmap(zero), Loc(0, 0), l)
    ensures SoleView(AfterPartUnmap(zero), Loc(0, 0), l)
  {
    hide IndexOf;
    Near(0, 1);
    var s := AfterPartUnmap(zero);
    forall j, h | Covers(s, j, h) && h != l ensures ShownPage(s, s.entries[j], h.vpn) != ShownPage(s, s.entries[Loc(0, 0)], l.vpn) {
      PartCovers(zero, j, h);
    }
  }

  lemma PartCovers(zero: Content, k: Loc, l: Loc)
    ensures Covers(AfterPartUnmap(zero), k, l) <==> k == l && l in PartMem(zero)
    ensures Covers(AfterPartUnmap(zero), k, l) ==> PartMem(zero)[l] == CellAt(AfterPartUnmap(zero), AfterPartUnmap(zero).entries[k], l.vpn)
  {
    hide IndexOf;
    Near(0, 1);
  }

  lemma PartRefines(zero: Content)
    ensures Refines(AfterPartUnmap(zero), PartMem(zero))
  {
    hide CellAt, IndexOf;
    var s := AfterPartUnmap(zero);
    PartCovers(zero, Loc(0, 0), Loc(0, 0));
    PartCovers(zero, Loc(1, 1), Loc(1, 1));
    forall k, l | Covers(s, k, l)
      ensures l in PartMem(zero) && PartMem(zero)[l] == CellAt(s, s.entries[k], l.vpn)
    {
      PartCovers(zero, k, l);
    }
  }

  lemma PartInv(zero: Content)
    ensures Inv(AfterPartUnmap(zero))
  {
    hide AmapRefsOk, ObjRefsOk, AnonRefsOk, PteOk, IndexOf;
    var s := AfterPartUnmap(zero);
    PartRefs(zero);
    PartCovers(zero, Loc(0, 0), Loc(0, 0));
    assert HasAnon(s.anons, 4) by { assert s.anons[3].page == 4; }
    forall k, l | Covers(s, k, l) ensures PteOk(s, k, l, {}) { PartPte(zero, k, l); }
  }

  lemma PartPte(zero: Content, k: Loc, l: Loc)
    requires Covers(AfterPartUnmap(zero), k, l)
    ensures PteOk(AfterPartUnmap(zero), k, l, {})
  {
    hide IndexOf;
    PartCovers(zero, k, l);
  }

  lemma PartRefs(zero: Content)
    ensures var s := AfterPartUnmap(zero);
            && AmapRefsOk(s.amaps, s.entries, {}) && ObjRefsOk(s.objs, s.entries, s.amaps, multiset{})
            && AnonRefsOk(s.slots, s.amaps, s.anons)
  {
    hide *;
    PartRefsAmap(zero);
    PartRefsObj(zero);
    PartRefsAnon(zero);
  }

  lemma PartRefsAmap(zero: Content)
    ensures AmapRefsOk(AfterPartUnmap(zero).amaps, AfterPartUnmap(zero).entries, {})
  {
    hide IndexOf;
    var s := AfterPartUnmap(zero);
    assert AmapHolders(s.entries, 1) == {Loc(0, 0)};
    assert AmapHolders(s.entries, 2) == {Loc(1, 1)};
  }

  lemma PartRefsObj(zero: Content)
    ensures ObjRefsOk(AfterPartUnmap(zero).objs, AfterPartUnmap(zero).entries, AfterPartUnmap(zero).amaps, multiset{})
  {
    hide IndexOf;
    var s := AfterPartUnmap(zero);
    assert ObjEntries(s.entries, 0) == {Loc(0, 0), Loc(1, 1)};
    assert ObjAmaps(s.amaps, 0) == {1, 2};
  }

  lemma PartRefsAnon(zero: Content)
    ensures AnonRefsOk(AfterPartUnmap(zero).slots, AfterPartUnmap(zero).amaps, AfterPartUnmap(zero).anons)
  {
    hide IndexOf;
    var s := AfterPartUnmap(zero);
    assert AnonHolders(s.slots, 3) == {Slot(1, IndexOf(0)), Slot(2, IndexOf(0))};
  }

  lemma ExampleUnsafe(zero: Content)
    ensures !WriteGrantSafe(AfterFork(zero), Loc(0, 0))
  {
    var s := AfterFork(zero);
    assert Covers(s, Loc(0, 0), Loc(0, 0)) && Loc(0, 0) in s.ptes;
  }

  ghost function ExampleMem(zero: Content): Mem {
    map[Loc(0, 0) := Cell(zero, RO, RW, ObjPage(0, 0)), Loc(1, 0) := Cell(zero, RO, RW, ObjPage(0, 0))]
  }

  lemma ExampleRefines(zero: Content)
    ensures Refines(AfterFork(zero), ExampleMem(zero))
  {
    hide CellAt;
    var s := AfterFork(zero);
    ExampleCovers(zero, Loc(0, 0), Loc(0, 0));
    ExampleCovers(zero, Loc(1, 0), Loc(1, 0));
    forall k, l | Covers(s, k, l)
      ensures l in ExampleMem(zero) && ExampleMem(zero)[l] == CellAt(s, s.entries[k], l.vpn)
    {
      ExampleCovers(zero, k, l);
    }
  }

  lemma ExampleCovers(zero: Content, k: Loc, l: Loc)
    ensures Covers(AfterFork(zero), k, l) <==> k == l && l in ExampleMem(zero)
    ensures Covers(AfterFork(zero), k, l) ==> ExampleMem(zero)[l] == CellAt(AfterFork(zero), AfterFork(zero).entries[k], l.vpn)
  {
  }

  lemma ExampleInv(zero: Content)
    ensures Inv(AfterFork(zero))
  {
    hide AmapRefsOk, ObjRefsOk, AnonRefsOk, PteOk;
    var s := AfterFork(zero);
    ExampleRefs(zero);
    assert Covers(s, Loc(0, 0), Loc(0, 0));
    assert HasAnon(s.anons, 4) by { assert s.anons[3].page == 4; }
    forall k, l | Covers(s, k, l) ensures PteOk(s, k, l, {}) { ExamplePte(zero, k, l); }
  }

  lemma ExamplePte(zero: Content, k: Loc, l: Loc)
    requires Covers(AfterFork(zero), k, l)
    ensures PteOk(AfterFork(zero), k, l, {})
  {
  }

  lemma ExampleRefs(zero: Content)
    ensures var s := AfterFork(zero);
            && AmapRefsOk(s.amaps, s.entries, {}) && ObjRefsOk(s.objs, s.entries, s.amaps, multiset{})
            && AnonRefsOk(s.slots, s.amaps, s.anons)
  {
    hide *;
    ExampleRefsAmap(zero);
    ExampleRefsObj(zero);
    ExampleRefsAnon(zero);
  }

  lemma ExampleRefsAmap(zero: Content)
    ensures AmapRefsOk(AfterFork(zero).amaps, AfterFork(zero).entries, {})
  {
    var s := AfterFork(zero);
    assert AmapHolders(s.entries, 1) == {Loc(0, 0)};
    assert AmapHolders(s.entries, 2) == {Loc(1, 0)};
  }

  lemma ExampleRefsObj(zero: Content)
    ensures ObjRefsOk(AfterFork(zero).objs, AfterFork(zero).entries, AfterFork(zero).amaps, multiset{})
  {
    var s := AfterFork(zero);
    assert ObjEntries(s.entries, 0) == {Loc(0, 0), Loc(1, 0)};
    assert ObjAmaps(s.amaps, 0) == {1, 2};
  }

  lemma ExampleRefsAnon(zero: Content)
    ensures AnonRefsOk(AfterFork(zero).slots, AfterFork(zero).amaps, AfterFork(zero).anons)
  {
    var s := AfterFork(zero);
    assert AnonHolders(s.slots, 3) == {Slot(1, IndexOf(0)), Slot(2, IndexOf(0))};
  }
}
