/** What each elementary update of the memory state preserves: the invariant
    and the memory every address space sees. */
module VmSteps {
  import opened AmapIndex
  import opened VmState
  import opened EagerMemory

  /** The contents entry `e` shows at page `v`: the anon in its amap slot if
      there is one, the backing object otherwise. */
  ghost function ContentAt(s: State, e: Entry, v: nat): Content {
    var t := e.SlotAt(v);
    if t in s.slots && s.slots[t] in s.anons && s.anons[s.slots[t]].page in s.pages then
      s.pages[s.anons[s.slots[t]].page]
    else
      s.pager(e.BackingAt(v))
  }

  ghost function CellAt(s: State, e: Entry, v: nat): Cell {
    Cell(ContentAt(s, e, v), e.prot, e.maxProt, e.BackingAt(v))
  }

  /** The lazily shared state `s` shows every address space exactly the memory
      `m` of the eager model. */
  ghost predicate Refines(s: State, m: Mem) {
    && (forall l :: l in m ==> exists k :: Covers(s, k, l))
    && (forall k, l :: Covers(s, k, l) ==> l in m && m[l] == CellAt(s, s.entries[k], l.vpn))
  }

  lemma UniqueCover(s: State, j: Loc, k: Loc, l: Loc)
    requires EntriesOk(s.entries, s.amaps) && Covers(s, j, l) && Covers(s, k, l)
    ensures j == k
  {
  }

  /** An amap slot is visible at one page of one space only. */
  lemma SlotSeenOnce(s: State, j: Loc, h: Loc, k: Loc, l: Loc)
    requires EntriesOk(s.entries, s.amaps) && AmapsPrivate(s.entries)
    requires Covers(s, j, h) && Covers(s, k, l)
    requires s.entries[j].SlotAt(h.vpn) == s.entries[k].SlotAt(l.vpn)
    ensures h == l && j == k
  {
    hide IndexOf;
    assert s.entries[j].base == j.vpn && s.entries[k].base == k.vpn;
    assert s.entries[j].offset + k.vpn == s.entries[k].offset + j.vpn;
    assert s.entries[k].end - j.vpn <= REACH && s.entries[j].end - k.vpn <= REACH;
    Near(s.entries[j].offset + (h.vpn - j.vpn), s.entries[k].offset + (l.vpn - k.vpn));
    assert h == l;
    UniqueCover(s, j, k, l);
  }

  // Object pages -----------------------------------------------------------

  lemma AddObjPage(s: State, b: ObjPage, p: nat)
    requires PagesOk(s.anons, s.objPages, s.objs, s.pages, s.pager) && NoLeak(s.anons, s.objPages, s.pages)
    requires b !in s.objPages && b.obj in s.objs && p !in s.pages
    ensures PagesOk(s.anons, s.objPages[b := p], s.objs, s.pages[p := s.pager(b)], s.pager)
    ensures NoLeak(s.anons, s.objPages[b := p], s.pages[p := s.pager(b)])
  {
    var objPages := s.objPages[b := p];
    assert PagesOk(s.anons, objPages, s.objs, s.pages[p := s.pager(b)], s.pager) by { hide NoLeak; }
    forall q | q in s.pages[p := s.pager(b)] ensures HasAnon(s.anons, q) || HasObjPage(objPages, q) {
      if q == p {
        assert objPages[b] == p;
      } else if !HasAnon(s.anons, q) {
        var c :| c in s.objPages && s.objPages[c] == q;
        assert objPages[c] == q;
      }
    }
  }

  lemma LookupPageAt(s: State, s': State, k: Loc, l: Loc, b: ObjPage, p: nat, open: set<Loc>)
    requires PagesOk(s.anons, s.objPages, s.objs, s.pages, s.pager)
    requires Covers(s, k, l) && PteOk(s, k, l, open)
    requires b !in s.objPages && p !in s.pages
    requires s' == s.(objPages := s.objPages[b := p], pages := s.pages[p := s.pager(b)], nextId := p + 1)
    ensures PteOk(s', k, l, open) && CellAt(s', s.entries[k], l.vpn) == CellAt(s, s.entries[k], l.vpn)
  {
  }

  /** What is visible does not depend on pages no anon or object uses yet. */
  lemma LookupPageVisible(s: State, s': State, m: Mem, b: ObjPage, p: nat, open: set<Loc>)
    requires PagesOk(s.anons, s.objPages, s.objs, s.pages, s.pager)
    requires PtesOk(s, open) && Refines(s, m)
    requires b !in s.objPages && p !in s.pages
    requires s' == s.(objPages := s.objPages[b := p], pages := s.pages[p := s.pager(b)], nextId := p + 1)
    ensures PtesOk(s', open) && Refines(s', m)
  {
    hide PteOk, PagesOk, CellAt;
    SameVisible(s, s', m, open, open) by {
      forall k, l | Covers(s, k, l)
        ensures PteOk(s', k, l, open) && CellAt(s', s.entries[k], l.vpn) == CellAt(s, s.entries[k], l.vpn)
      {
        LookupPageAt(s, s', k, l, b, p, open);
      }
    }
  }

  /** Entries unchanged, no new PTEs outside them, and every page shown as
      before: the eager memory is the same. */
  lemma SameVisible(s: State, s': State, m: Mem, open: set<Loc>, open': set<Loc>)
    requires PtesOk(s, open) && Refines(s, m)
    requires s'.entries == s.entries
    requires forall l :: l in s'.ptes && l !in s.ptes ==> exists k :: Covers(s, k, l)
    requires forall k, l :: Covers(s, k, l) ==>
      PteOk(s', k, l, open') && CellAt(s', s.entries[k], l.vpn) == CellAt(s, s.entries[k], l.vpn)
    ensures PtesOk(s', open') && Refines(s', m)
  {
    hide PteOk, CellAt;
    assert forall k, l :: Covers(s', k, l) <==> Covers(s, k, l);
  }

  lemma LookupPageStep(s: State, m: Mem, b: ObjPage, ha: set<nat>, ho: multiset<nat>, open: set<Loc>)
    requires InvWith(s, ha, ho, open) && Refines(s, m)
    requires b !in s.objPages && b.obj in s.objs
    ensures var p := s.nextId;
            var s' := s.(objPages := s.objPages[b := p], pages := s.pages[p := s.pager(b)], nextId := p + 1);
            InvWith(s', ha, ho, open) && Refines(s', m)
  {
    hide EntriesOk, AmapsPrivate, AmapRefsOk, ObjRefsOk, AnonRefsOk, PagesOk, NoLeak, PtesOk, Refines;
    var p := s.nextId;
    var s' := s.(objPages := s.objPages[b := p], pages := s.pages[p := s.pager(b)], nextId := p + 1);
    AddObjPage(s, b, p);
    LookupPageVisible(s, s', m, b, p, open);
  }

  // Page table entries -----------------------------------------------------

  lemma SetPteStep(s: State, m: Mem, k: Loc, l: Loc, pte: Pte, ha: set<nat>, ho: multiset<nat>, open: set<Loc>)
    requires InvWith(s, ha, ho, open) && Refines(s, m)
    requires Covers(s, k, l) && PteShows(s, s.entries[k], l.vpn, pte)
    requires l in open || PteUnshared(s, s.entries[k], l.vpn, pte)
    ensures InvWith(s.(ptes := s.ptes[l := pte]), ha, ho, open) && Refines(s.(ptes := s.ptes[l := pte]), m)
  {
    hide EntriesOk, AmapsPrivate, AmapRefsOk, ObjRefsOk, AnonRefsOk, PagesOk, NoLeak, IdsOk;
    var s' := s.(ptes := s.ptes[l := pte]);
    SameVisible(s, s', m, open, open) by {
      forall j, h | Covers(s, j, h)
        ensures PteOk(s', j, h, open) && CellAt(s', s.entries[j], h.vpn) == CellAt(s, s.entries[j], h.vpn)
      {
        if h == l { UniqueCover(s, j, k, l); }

      }
    }
  }

  /** Removing PTEs, or taking permissions away from them. */
  lemma RestrictPtesStep(s: State, m: Mem, ptes: map<Loc, Pte>, ha: set<nat>, ho: multiset<nat>,
                         open: set<Loc>, open': set<Loc>)
    requires forall l :: l in ptes ==> l in s.ptes && ptes[l].page == s.ptes[l].page
    requires forall l :: l in ptes && ptes[l].prot.write ==> s.ptes[l].prot.write && (l in open ==> l in open')
    requires forall k, l :: Covers(s, k, l) && l in ptes ==> LeqProt(ptes[l].prot, s.entries[k].prot)
    requires InvWith(s, ha, ho, open) && Refines(s, m)
    ensures InvWith(s.(ptes := ptes), ha, ho, open') && Refines(s.(ptes := ptes), m)
  {
    hide EntriesOk, AmapsPrivate, AmapRefsOk, ObjRefsOk, AnonRefsOk, PagesOk, NoLeak, IdsOk;
    var s' := s.(ptes := ptes);
    SameVisible(s, s', m, open, open') by {
      forall j, h | Covers(s, j, h)
        ensures PteOk(s', j, h, open') && CellAt(s', s.entries[j], h.vpn) == CellAt(s, s.entries[j], h.vpn)
      {
      }
    }
  }

  /** Pages without a writable PTE need not be open, and any page may be. */
  lemma OpenStep(s: State, open: set<Loc>, open': set<Loc>, ha: set<nat>, ho: multiset<nat>)
    requires InvWith(s, ha, ho, open)
    requires forall l :: l in s.ptes && l in open && s.ptes[l].prot.write ==> l in open'
    ensures InvWith(s, ha, ho, open')
  {
    hide EntriesOk, AmapsPrivate, AmapRefsOk, ObjRefsOk, AnonRefsOk, PagesOk, NoLeak, IdsOk, PteShows;
    forall k, l | Covers(s, k, l) ensures PteOk(s, k, l, open') {
      assert PteOk(s, k, l, open);
    }
  }

  // Anons ------------------------------------------------------------------

  lemma NewAnonPages(s: State, n: nat, p: nat, c: Content)
    requires PagesOk(s.anons, s.objPages, s.objs, s.pages, s.pager) && NoLeak(s.anons, s.objPages, s.pages)
    requires n !in s.anons && p !in s.pages
    ensures PagesOk(s.anons[n := Anon(p, 1)], s.objPages, s.objs, s.pages[p := c], s.pager)
    ensures NoLeak(s.anons[n := Anon(p, 1)], s.objPages, s.pages[p := c])
  {
    var anons := s.anons[n := Anon(p, 1)];
    assert PagesOk(anons, s.objPages, s.objs, s.pages[p := c], s.pager) by { hide NoLeak; }
    forall q | q in s.pages[p := c] ensures HasAnon(anons, q) || HasObjPage(s.objPages, q) {
      if q == p {
        assert anons[n].page == p;
      } else if !HasObjPage(s.objPages, q) {
        var i :| i in s.anons && s.anons[i].page == q;
        assert anons[i].page == q;
      }
    }
  }

  lemma NewAnonRefs(slots: map<Slot, nat>, amaps: map<nat, Amap>, anons: map<nat, Anon>, t: Slot, n: nat, p: nat)
    requires AnonRefsOk(slots, amaps, anons)
    requires t.amap in amaps && t !in slots && n !in anons
    ensures AnonRefsOk(slots[t := n], amaps, anons[n := Anon(p, 1)])
  {
    assert AnonHolders(slots[t := n], n) == {t};
    forall i | i in anons ensures AnonHolders(slots[t := n], i) == AnonHolders(slots, i) { }
  }

  /** Slot `t` gets the fresh anon `n`, whose page `p` holds what was visible
      there before; `l` is the only page that shows `t`. */
  ghost predicate Refilled(s: State, s': State, l: Loc, t: Slot, n: nat, p: nat, pte: Pte) {
    && n !in s.anons && p !in s.pages && pte.page == p
    && (forall i :: i in s.anons ==>
          i in s'.anons && s'.anons[i].page == s.anons[i].page && 0 < s'.anons[i].refcnt <= s.anons[i].refcnt)
    && n in s'.anons && s'.anons[n] == Anon(p, 1)
    && p in s'.pages
    && s' == s.(slots := s.slots[t := n], anons := s'.anons, pages := s.pages[p := s'.pages[p]], ptes := s.ptes[l := pte], nextId := s'.nextId)
  }

  lemma RefilledAt(s: State, s': State, l: Loc, t: Slot, n: nat, p: nat, pte: Pte, j: Loc, h: Loc, open: set<Loc>)
    requires AnonRefsOk(s.slots, s.amaps, s.anons) && PagesOk(s.anons, s.objPages, s.objs, s.pages, s.pager)
    requires Covers(s, j, h) && PteOk(s, j, h, open)
    requires Refilled(s, s', l, t, n, p, pte)
    requires s.entries[j].SlotAt(h.vpn) == t <==> h == l
    requires h == l ==> LeqProt(pte.prot, s.entries[j].prot) && s'.pages[p] == ContentAt(s, s.entries[j], h.vpn)
    ensures PteOk(s', j, h, open) && CellAt(s', s.entries[j], h.vpn) == CellAt(s, s.entries[j], h.vpn)
  {
  }

  lemma FillVisible(s: State, s': State, m: Mem, k: Loc, l: Loc, t: Slot, n: nat, p: nat, pte: Pte, open: set<Loc>)
    requires EntriesOk(s.entries, s.amaps) && AmapsPrivate(s.entries)
    requires AnonRefsOk(s.slots, s.amaps, s.anons) && PagesOk(s.anons, s.objPages, s.objs, s.pages, s.pager)
    requires PtesOk(s, open) && Refines(s, m)
    requires Covers(s, k, l) && t == s.entries[k].SlotAt(l.vpn)
    requires Refilled(s, s', l, t, n, p, pte)
    requires LeqProt(pte.prot, s.entries[k].prot) && s'.pages[p] == ContentAt(s, s.entries[k], l.vpn)
    ensures PtesOk(s', open) && Refines(s', m)
  {
    hide AmapsPrivate, EntriesOk, AnonRefsOk, PagesOk, PteOk, CellAt, ContentAt;
    SameVisible(s, s', m, open, open) by {
      forall j, h | Covers(s, j, h)
        ensures PteOk(s', j, h, open) && CellAt(s', s.entries[j], h.vpn) == CellAt(s, s.entries[j], h.vpn)
      {
        if s.entries[j].SlotAt(h.vpn) == t { SlotSeenOnce(s, j, h, k, l); }
        if h == l { UniqueCover(s, j, k, l); }
        RefilledAt(s, s', l, t, n, p, pte, j, h, open);
      }
    }
  }

  /** The state after a write fault at `l` on a page without an anon. */
  ghost function Filled(s: State, e: Entry, l: Loc, pte: Pte): State {
    var p, n := s.nextId, s.nextId + 1;
    s.(slots := s.slots[e.SlotAt(l.vpn) := n], anons := s.anons[n := Anon(p, 1)],
       pages := s.pages[p := s.pager(e.BackingAt(l.vpn))], ptes := s.ptes[l := pte], nextId := n + 1)
  }

  lemma FillStep(s: State, m: Mem, k: Loc, l: Loc, pte: Pte, ha: set<nat>, ho: multiset<nat>, open: set<Loc>)
    requires InvWith(s, ha, ho, open) && Refines(s, m)
    requires Covers(s, k, l) && s.entries[k].SlotAt(l.vpn) !in s.slots
    requires LeqProt(pte.prot, s.entries[k].prot) && pte.page == s.nextId
    ensures InvWith(Filled(s, s.entries[k], l, pte), ha, ho, open) && Refines(Filled(s, s.entries[k], l, pte), m)
  {
    hide EntriesOk, AmapsPrivate, AmapRefsOk, ObjRefsOk, AnonRefsOk, PagesOk, NoLeak, PtesOk, Refines;
    var e := s.entries[k];
    EntryLive(s, k);
    var t := e.SlotAt(l.vpn);
    var s' := Filled(s, e, l, pte);
    NewAnonRefs(s.slots, s.amaps, s.anons, t, s.nextId + 1, s.nextId);
    NewAnonPages(s, s.nextId + 1, s.nextId, s.pager(e.BackingAt(l.vpn)));
    AnonsCounted(s);
    FillVisible(s, s', m, k, l, t, s.nextId + 1, s.nextId, pte, open);
  }

  lemma EntryLive(s: State, k: Loc)
    requires EntriesOk(s.entries, s.amaps) && k in s.entries
    ensures s.entries[k].amap in s.amaps && s.amaps[s.entries[k].amap].obj == s.entries[k].obj
    ensures s.entries[k].base == k.vpn < s.entries[k].end
  {
  }

  /** The pages of an entry have slots of their own. */
  lemma EntryReach(s: State, k: Loc)
    requires EntriesOk(s.entries, s.amaps) && AmapsPrivate(s.entries) && k in s.entries
    ensures s.entries[k].end <= s.entries[k].base + REACH
  {
  }

  lemma AnonsCounted(s: State)
    requires AnonRefsOk(s.slots, s.amaps, s.anons) && PagesOk(s.anons, s.objPages, s.objs, s.pages, s.pager)
    ensures forall n :: n in s.anons ==> s.anons[n].refcnt > 0 && s.anons[n].page in s.pages
    ensures forall t :: t in s.slots ==> t.amap in s.amaps && s.slots[t] in s.anons
  {
  }

  /** The state after a write fault at `l` on an anon other slots hold too. */
  ghost function Copied(s: State, e: Entry, l: Loc, pte: Pte): State
    requires e.SlotAt(l.vpn) in s.slots
    requires s.slots[e.SlotAt(l.vpn)] in s.anons && s.anons[s.slots[e.SlotAt(l.vpn)]].page in s.pages
    requires s.anons[s.slots[e.SlotAt(l.vpn)]].refcnt > 1
  {
    var t := e.SlotAt(l.vpn);
    var src := s.anons[s.slots[t]];
    var p, n := s.nextId, s.nextId + 1;
    s.(slots := s.slots[t := n],
       anons := s.anons[s.slots[t] := Anon(src.page, src.refcnt - 1)][n := Anon(p, 1)],
       pages := s.pages[p := s.pages[src.page]], ptes := s.ptes[l := pte], nextId := n + 1)
  }

  lemma CopyAnonRefs(slots: map<Slot, nat>, amaps: map<nat, Amap>, anons: map<nat, Anon>, t: Slot, n: nat, p: nat)
    requires AnonRefsOk(slots, amaps, anons) && t in slots && n !in anons && anons[slots[t]].refcnt > 1
    ensures AnonRefsOk(slots[t := n], amaps,
                       anons[slots[t] := Anon(anons[slots[t]].page, anons[slots[t]].refcnt - 1)][n := Anon(p, 1)])
  {
    var i := slots[t];
    assert AnonHolders(slots[t := n], n) == {t};
    assert AnonHolders(slots[t := n], i) == AnonHolders(slots, i) - {t};
    forall j | j in anons && j != i ensures AnonHolders(slots[t := n], j) == AnonHolders(slots, j) { }
  }

  /** Pages do not care how often their anon is referenced. */
  lemma RecountPages(s: State, anons: map<nat, Anon>)
    requires PagesOk(s.anons, s.objPages, s.objs, s.pages, s.pager) && NoLeak(s.anons, s.objPages, s.pages)
    requires forall n :: n in anons <==> n in s.anons
    requires forall n :: n in s.anons ==> anons[n].page == s.anons[n].page
    ensures PagesOk(anons, s.objPages, s.objs, s.pages, s.pager) && NoLeak(anons, s.objPages, s.pages)
  {
    forall p | p in s.pages ensures HasAnon(anons, p) || HasObjPage(s.objPages, p) {
      if HasAnon(s.anons, p) {
        var n :| n in s.anons && s.anons[n].page == p;
        assert anons[n].page == p;
      }
    }
  }

  lemma CopyStep(s: State, m: Mem, k: Loc, l: Loc, pte: Pte, ha: set<nat>, ho: multiset<nat>, open: set<Loc>)
    requires InvWith(s, ha, ho, open) && Refines(s, m)
    requires Covers(s, k, l) && s.entries[k].SlotAt(l.vpn) in s.slots
    requires s.slots[s.entries[k].SlotAt(l.vpn)] in s.anons
    requires s.anons[s.slots[s.entries[k].SlotAt(l.vpn)]].page in s.pages
    requires s.anons[s.slots[s.entries[k].SlotAt(l.vpn)]].refcnt > 1
    requires LeqProt(pte.prot, s.entries[k].prot) && pte.page == s.nextId
    ensures InvWith(Copied(s, s.entries[k], l, pte), ha, ho, open) && Refines(Copied(s, s.entries[k], l, pte), m)
  {
    hide EntriesOk, AmapsPrivate, AmapRefsOk, ObjRefsOk, AnonRefsOk, PagesOk, NoLeak, PtesOk, Refines;
    var e := s.entries[k];
    var t := e.SlotAt(l.vpn);
    var i := s.slots[t];
    var s' := Copied(s, e, l, pte);
    CopyAnonRefs(s.slots, s.amaps, s.anons, t, s.nextId + 1, s.nextId);
    var anons := s.anons[i := Anon(s.anons[i].page, s.anons[i].refcnt - 1)];
    RecountPages(s, anons);
    NewAnonPages(s.(anons := anons), s.nextId + 1, s.nextId, s.pages[s.anons[i].page]);
    AnonsCounted(s);
    FillVisible(s, s', m, k, l, t, s.nextId + 1, s.nextId, pte, open);
  }

  // Sharing anons between amaps --------------------------------------------

  ghost function Shared(s: State, t: Slot, t': Slot): State
    requires t in s.slots && s.slots[t] in s.anons
  {
    var n := s.slots[t];
    s.(slots := s.slots[t' := n], anons := s.anons[n := s.anons[n].(refcnt := s.anons[n].refcnt + 1)])
  }

  lemma ShareAnonRefs(slots: map<Slot, nat>, amaps: map<nat, Amap>, anons: map<nat, Anon>, t: Slot, t': Slot)
    requires AnonRefsOk(slots, amaps, anons) && t in slots && t' !in slots && t'.amap in amaps
    ensures AnonRefsOk(slots[t' := slots[t]], amaps, anons[slots[t] := anons[slots[t]].(refcnt := anons[slots[t]].refcnt + 1)])
  {
    var n := slots[t];
    assert AnonHolders(slots[t' := n], n) == AnonHolders(slots, n) + {t'};
    forall j | j in anons && j != n ensures AnonHolders(slots[t' := n], j) == AnonHolders(slots, j) { }
  }

  lemma SoleHolder(s: State, t: Slot, u: Slot)
    requires AnonRefsOk(s.slots, s.amaps, s.anons)
    requires t in s.slots && u in s.slots && s.slots[t] == s.slots[u] && s.anons[s.slots[t]].refcnt == 1
    ensures t == u
  {
    var h := AnonHolders(s.slots, s.slots[t]);
    if t != u {
      assert {t, u} <= h && |{t, u}| == 2;
      SubsetSize({t, u}, h);
    }
  }

  lemma {:induction false} SubsetSize<T>(a: set<T>, b: set<T>)
    requires a <= b
    ensures |a| <= |b|
  {
    if a != {} {
      var x :| x in a;
      SubsetSize(a - {x}, b - {x});
    }
  }

  lemma SharedAt(s: State, t: Slot, t': Slot, j: Loc, h: Loc, open: set<Loc>)
    requires AnonRefsOk(s.slots, s.amaps, s.anons) && PagesOk(s.anons, s.objPages, s.objs, s.pages, s.pager)
    requires Covers(s, j, h) && PteOk(s, j, h, open)
    requires t in s.slots && t' !in s.slots && s.entries[j].amap != t'.amap
    requires s.entries[j].amap == t.amap && h in s.ptes && s.ptes[h].prot.write ==> h in open
    ensures PteOk(Shared(s, t, t'), j, h, open)
    ensures CellAt(Shared(s, t, t'), s.entries[j], h.vpn) == CellAt(s, s.entries[j], h.vpn)
  {
    var u := s.entries[j].SlotAt(h.vpn);
    if u in s.slots && s.slots[u] == s.slots[t] && s.anons[s.slots[t]].refcnt == 1 {
      SoleHolder(s, t, u);
    }
  }

  lemma ShareStep(s: State, m: Mem, t: Slot, t': Slot, ha: set<nat>, ho: multiset<nat>, open: set<Loc>)
    requires InvWith(s, ha, ho, open) && Refines(s, m)
    requires t in s.slots && s.slots[t] in s.anons && t' !in s.slots && t'.amap in s.amaps
    requires AmapHolders(s.entries, t'.amap) == {}
    requires forall k, l :: Covers(s, k, l) && s.entries[k].amap == t.amap && l in s.ptes && s.ptes[l].prot.write ==> l in open
    ensures InvWith(Shared(s, t, t'), ha, ho, open) && Refines(Shared(s, t, t'), m)
  {
    hide EntriesOk, AmapsPrivate, AmapRefsOk, ObjRefsOk, AnonRefsOk, PagesOk, NoLeak, PteOk, Refines, CellAt;
    var s' := Shared(s, t, t');
    ShareAnonRefs(s.slots, s.amaps, s.anons, t, t');
    RecountPages(s, s'.anons);
    SameVisible(s, s', m, open, open) by {
      forall j, h | Covers(s, j, h)
        ensures PteOk(s', j, h, open) && CellAt(s', s.entries[j], h.vpn) == CellAt(s, s.entries[j], h.vpn)
      {
        assert s.entries[j].amap == t'.amap ==> j in AmapHolders(s.entries, t'.amap);
        SharedAt(s, t, t', j, h, open);
      }
    }
  }

  // Releasing the anons of an amap -----------------------------------------

  /** The state after `vm_anon_deref` of the anon in slot `t` and clearing it. */
  ghost function Released(s: State, t: Slot): State
    requires t in s.slots && s.slots[t] in s.anons && s.anons[s.slots[t]].refcnt > 0
  {
    var n := s.slots[t];
    if s.anons[n].refcnt == 1 then
      s.(slots := s.slots - {t}, anons := s.anons - {n}, pages := s.pages - {s.anons[n].page})
    else
      s.(slots := s.slots - {t}, anons := s.anons[n := s.anons[n].(refcnt := s.anons[n].refcnt - 1)])
  }

  /** Emptying a slot takes it off the holders of its anon, and off no other's. */
  lemma ReleasedHolders(slots: map<Slot, nat>, t: Slot, j: nat)
    requires t in slots
    ensures t in AnonHolders(slots, slots[t])
    ensures AnonHolders(slots - {t}, j) == if j == slots[t] then AnonHolders(slots, j) - {t} else AnonHolders(slots, j)
  {
  }

  lemma ReleaseAnonRefs(s: State, t: Slot)
    requires AnonRefsOk(s.slots, s.amaps, s.anons) && t in s.slots
    ensures AnonRefsOk(Released(s, t).slots, s.amaps, Released(s, t).anons)
  {
    hide AnonHolders, IndexOf;
    var n := s.slots[t];
    var s' := Released(s, t);
    assert s'.slots == s.slots - {t};
    forall j | j in s'.anons ensures s'.anons[j].refcnt == |AnonHolders(s'.slots, j)| > 0 {
      ReleasedHolders(s.slots, t, j);
    }
    forall u | u in s'.slots ensures s'.slots[u] in s'.anons {
      if s.slots[u] == n && s.anons[n].refcnt == 1 { SoleHolder(s, t, u); }
    }
  }

  lemma FreeAnonPages(s: State, n: nat)
    requires n in s.anons
    requires PagesOk(s.anons, s.objPages, s.objs, s.pages, s.pager) && NoLeak(s.anons, s.objPages, s.pages)
    ensures PagesOk(s.anons - {n}, s.objPages, s.objs, s.pages - {s.anons[n].page}, s.pager)
    ensures NoLeak(s.anons - {n}, s.objPages, s.pages - {s.anons[n].page})
  {
    var anons, pages := s.anons - {n}, s.pages - {s.anons[n].page};
    assert PagesOk(anons, s.objPages, s.objs, pages, s.pager) by { hide NoLeak; }
    forall p | p in pages ensures HasAnon(anons, p) || HasObjPage(s.objPages, p) {
      if HasAnon(s.anons, p) {
        var i :| i in s.anons && s.anons[i].page == p;
        assert i in anons && anons[i].page == p;
      }
    }
  }

  lemma ReleasedAt(s: State, t: Slot, j: Loc, h: Loc, open: set<Loc>)
    requires AnonRefsOk(s.slots, s.amaps, s.anons) && PagesOk(s.anons, s.objPages, s.objs, s.pages, s.pager)
    requires Covers(s, j, h) && PteOk(s, j, h, open)
    requires t in s.slots && s.entries[j].amap != t.amap
    ensures PteOk(Released(s, t), j, h, open)
    ensures CellAt(Released(s, t), s.entries[j], h.vpn) == CellAt(s, s.entries[j], h.vpn)
  {
    var u := s.entries[j].SlotAt(h.vpn);
    if u in s.slots && s.slots[u] == s.slots[t] && s.anons[s.slots[t]].refcnt == 1 {
      SoleHolder(s, t, u);
    }
  }

  lemma ReleaseStep(s: State, m: Mem, t: Slot, ha: set<nat>, ho: multiset<nat>, open: set<Loc>)
    requires InvWith(s, ha, ho, open) && Refines(s, m)
    requires t in s.slots && s.slots[t] in s.anons && s.anons[s.slots[t]].refcnt > 0
    requires AmapHolders(s.entries, t.amap) == {}
    ensures InvWith(Released(s, t), ha, ho, open) && Refines(Released(s, t), m)
  {
    hide EntriesOk, AmapsPrivate, AmapRefsOk, ObjRefsOk, AnonRefsOk, PagesOk, NoLeak, PteOk, Refines, CellAt;
    var s' := Released(s, t);
    ReleaseAnonRefs(s, t);
    if s.anons[s.slots[t]].refcnt == 1 {
      FreeAnonPages(s, s.slots[t]);
    } else {
      RecountPages(s, s'.anons);
    }
    SameVisible(s, s', m, open, open) by {
      forall j, h | Covers(s, j, h)
        ensures PteOk(s', j, h, open) && CellAt(s', s.entries[j], h.vpn) == CellAt(s, s.entries[j], h.vpn)
      {
        assert s.entries[j].amap == t.amap ==> j in AmapHolders(s.entries, t.amap);
        ReleasedAt(s, t, j, h, open);
      }
    }
  }

  // Map entries ------------------------------------------------------------

  /** Entry `k` split in two at page `x`, both halves holding its references. */
  ghost function Split(s: State, k: Loc, x: nat): State
    requires k in s.entries && s.entries[k].base < x < s.entries[k].end
    requires s.entries[k].amap in s.amaps && s.entries[k].obj in s.objs
  {
    var e := s.entries[k];
    s.(entries := s.entries[k := e.(end := x)][Loc(k.space, x) := e.(base := x, offset := e.offset + (x - e.base))],
       amaps := s.amaps[e.amap := s.amaps[e.amap].(refcnt := s.amaps[e.amap].refcnt + 1)],
       objs := s.objs[e.obj := s.objs[e.obj] + 1])
  }

  lemma SplitDisjoint(s: State, k: Loc, x: nat)
    requires EntriesOk(s.entries, s.amaps)
    requires k in s.entries && s.entries[k].base < x < s.entries[k].end
    requires s.entries[k].amap in s.amaps && s.entries[k].obj in s.objs
    ensures Loc(k.space, x) !in s.entries
    ensures EntriesOk(Split(s, k, x).entries, Split(s, k, x).amaps)
  {
    NoBaseInside(s, k, x);
    var r, amaps := Split(s, k, x).entries, Split(s, k, x).amaps;
    forall j | j in r ensures EntryOk(r, amaps, j) { SplitEntryOk(s, k, x, j); }
    forall i, j | i in r && j in r && i.space == j.space && i.vpn < j.vpn ensures r[i].end <= j.vpn { SplitOrder(s, k, x, i, j); }
    hide Split;
  }

  ghost predicate EntryOk(entries: map<Loc, Entry>, amaps: map<nat, Amap>, k: Loc)
    requires k in entries
  {
    entries[k].base == k.vpn < entries[k].end && entries[k].amap in amaps && amaps[entries[k].amap].obj == entries[k].obj
  }

  lemma NoBaseInside(s: State, k: Loc, x: nat)
    requires EntriesOk(s.entries, s.amaps) && k in s.entries && s.entries[k].base < x < s.entries[k].end
    ensures Loc(k.space, x) !in s.entries
  {
  }

  lemma SplitEntryOk(s: State, k: Loc, x: nat, j: Loc)
    requires EntriesOk(s.entries, s.amaps)
    requires k in s.entries && s.entries[k].base < x < s.entries[k].end
    requires s.entries[k].amap in s.amaps && s.entries[k].obj in s.objs && j in Split(s, k, x).entries
    ensures EntryOk(Split(s, k, x).entries, Split(s, k, x).amaps, j)
  {
    var j' := if j == Loc(k.space, x) then k else j;
    assert EntryOk(s.entries, s.amaps, j') && EntryOk(s.entries, s.amaps, k);
    hide EntriesOk;
  }

  lemma SplitOrder(s: State, k: Loc, x: nat, i: Loc, j: Loc)
    requires EntriesOk(s.entries, s.amaps)
    requires k in s.entries && s.entries[k].base < x < s.entries[k].end
    requires s.entries[k].amap in s.amaps && s.entries[k].obj in s.objs
    requires i in Split(s, k, x).entries && j in Split(s, k, x).entries && i.space == j.space && i.vpn < j.vpn
    ensures Split(s, k, x).entries[i].end <= j.vpn
  {
    NoBaseInside(s, k, x);
    var k' := Loc(k.space, x);
    var i', j' := if i == k' then k else i, if j == k' then k else j;
    assert s.entries[k].base == k.vpn;
    assert i'.vpn < j'.vpn ==> s.entries[i'].end <= j'.vpn;
    assert i'.vpn == j'.vpn ==> i' == j';
    assert s.entries[i'].base == i'.vpn < s.entries[i'].end && s.entries[j'].base == j'.vpn < s.entries[j'].end;
    hide EntriesOk;
  }

  lemma SplitPrivate(s: State, k: Loc, x: nat)
    requires EntriesOk(s.entries, s.amaps) && AmapsPrivate(s.entries)
    requires k in s.entries && s.entries[k].base < x < s.entries[k].end
    requires s.entries[k].amap in s.amaps && s.entries[k].obj in s.objs
    ensures AmapsPrivate(Split(s, k, x).entries)
  {
    hide AmapsPrivate, IndexOf;
    assert s.entries[k].base == k.vpn;
    var s' := Split(s, k, x);
    forall i, j | i in s'.entries && j in s'.entries && s'.entries[i].amap == s'.entries[j].amap
      ensures i.space == j.space && s'.entries[i].offset + j.vpn == s'.entries[j].offset + i.vpn
      ensures s'.entries[j].end - i.vpn <= REACH
    {
      SplitPair(s, k, x, i, j);
    }
    assert AmapsPrivate(s'.entries) by { PairsPrivate(s'.entries); }
  }

  lemma PairsPrivate(entries: map<Loc, Entry>)
    requires forall i, j :: i in entries && j in entries && entries[i].amap == entries[j].amap ==>
      i.space == j.space && entries[i].offset + j.vpn == entries[j].offset + i.vpn && entries[j].end - i.vpn <= REACH
    ensures AmapsPrivate(entries)
  {
  }

  lemma SplitPair(s: State, k: Loc, x: nat, i: Loc, j: Loc)
    requires AmapsPrivate(s.entries) && k in s.entries && s.entries[k].base == k.vpn < x < s.entries[k].end
    requires s.entries[k].amap in s.amaps && s.entries[k].obj in s.objs
    requires
      var r := Split(s, k, x).entries;
      i in r && j in r && r[i].amap == r[j].amap
    ensures
      var r := Split(s, k, x).entries;
      i.space == j.space && r[i].offset + j.vpn == r[j].offset + i.vpn && r[j].end - i.vpn <= REACH
  {
    var k' := Loc(k.space, x);
    var i', j' := if i == k' then k else i, if j == k' then k else j;
    assert s.entries[i'].amap == s.entries[j'].amap;
    assert s.entries[i'].offset + j'.vpn == s.entries[j'].offset + i'.vpn && s.entries[j'].end - i'.vpn <= REACH;
  }

  lemma AmapHoldersAdd(entries: map<Loc, Entry>, k: Loc, e: Entry, a: nat)
    requires k !in entries
    ensures |AmapHolders(entries[k := e], a)| == |AmapHolders(entries, a)| + (if e.amap == a then 1 else 0)
  {
    assert AmapHolders(entries[k := e], a) == AmapHolders(entries, a) + (if e.amap == a then {k} else {});
  }

  lemma ObjEntriesAdd(entries: map<Loc, Entry>, k: Loc, e: Entry, o: nat)
    requires k !in entries
    ensures |ObjEntries(entries[k := e], o)| == |ObjEntries(entries, o)| + (if e.obj == o then 1 else 0)
  {
    assert ObjEntries(entries[k := e], o) == ObjEntries(entries, o) + (if e.obj == o then {k} else {});
  }

  lemma HoldersSame(entries: map<Loc, Entry>, k: Loc, e: Entry, a: nat, o: nat)
    requires k in entries && entries[k].amap == e.amap && entries[k].obj == e.obj
    ensures AmapHolders(entries[k := e], a) == AmapHolders(entries, a)
    ensures ObjEntries(entries[k := e], o) == ObjEntries(entries, o)
  {
  }

  lemma ObjAmapsSame(amaps: map<nat, Amap>, amaps': map<nat, Amap>, o: nat)
    requires forall a :: a in amaps <==> a in amaps'
    requires forall a :: a in amaps ==> amaps'[a].obj == amaps[a].obj
    ensures ObjAmaps(amaps', o) == ObjAmaps(amaps, o)
  {
  }

  lemma SplitRefs(s: State, k: Loc, x: nat, ha: set<nat>, ho: multiset<nat>)
    requires AmapRefsOk(s.amaps, s.entries, ha) && ObjRefsOk(s.objs, s.entries, s.amaps, ho)
    requires k in s.entries && s.entries[k].base < x < s.entries[k].end && Loc(k.space, x) !in s.entries
    requires s.entries[k].amap in s.amaps && s.entries[k].obj in s.objs
    ensures AmapRefsOk(Split(s, k, x).amaps, Split(s, k, x).entries, ha)
    ensures ObjRefsOk(Split(s, k, x).objs, Split(s, k, x).entries, Split(s, k, x).amaps, ho)
  {
    hide AmapHolders, ObjEntries, ObjAmaps;
    var e, s', k' := s.entries[k], Split(s, k, x), Loc(k.space, x);
    var left := s.entries[k := s'.entries[k]];
    assert s'.entries == left[k' := s'.entries[k']];
    forall a | a in s'.amaps
      ensures |AmapHolders(s'.entries, a)| == |AmapHolders(s.entries, a)| + (if a == e.amap then 1 else 0)
    {
      HoldersSame(s.entries, k, s'.entries[k], a, 0);
      AmapHoldersAdd(left, k', s'.entries[k'], a);
    }
    forall o | o in s'.objs
      ensures |ObjEntries(s'.entries, o)| == |ObjEntries(s.entries, o)| + (if o == e.obj then 1 else 0)
      ensures ObjAmaps(s'.amaps, o) == ObjAmaps(s.amaps, o)
    {
      HoldersSame(s.entries, k, s'.entries[k], 0, o);
      ObjEntriesAdd(left, k', s'.entries[k'], o);
      ObjAmapsSame(s.amaps, s'.amaps, o);
    }
  }

  /** A page is covered by the half on its side of the cut. */
  lemma SplitCovers(s: State, k: Loc, x: nat, j: Loc, l: Loc) returns (i: Loc)
    requires EntriesOk(s.entries, s.amaps) && k in s.entries && s.entries[k].base < x < s.entries[k].end
    requires s.entries[k].amap in s.amaps && s.entries[k].obj in s.objs
    requires Loc(k.space, x) !in s.entries
    requires Covers(Split(s, k, x), j, l)
    ensures Covers(s, i, l)
    ensures Split(s, k, x).entries[j].SlotAt(l.vpn) == s.entries[i].SlotAt(l.vpn)
    ensures Split(s, k, x).entries[j].BackingAt(l.vpn) == s.entries[i].BackingAt(l.vpn)
    ensures Split(s, k, x).entries[j].prot == s.entries[i].prot
    ensures Split(s, k, x).entries[j].maxProt == s.entries[i].maxProt
  {
    i := if j == Loc(k.space, x) then k else j;
  }

  lemma SplitVisible(s: State, m: Mem, k: Loc, x: nat, open: set<Loc>)
    requires EntriesOk(s.entries, s.amaps) && k in s.entries && s.entries[k].base < x < s.entries[k].end
    requires s.entries[k].amap in s.amaps && s.entries[k].obj in s.objs
    requires Loc(k.space, x) !in s.entries
    requires PtesOk(s, open) && Refines(s, m)
    ensures PtesOk(Split(s, k, x), open) && Refines(Split(s, k, x), m)
  {
    hide EntriesOk, PteOk, CellAt;
    var s' := Split(s, k, x);
    forall j, l | Covers(s, j, l) ensures exists i :: Covers(s', i, l) {
      assert Covers(s', if j == k && l.vpn >= x then Loc(k.space, x) else j, l);
    }
    forall j, l | Covers(s', j, l)
      ensures PteOk(s', j, l, open) && l in m && m[l] == CellAt(s', s'.entries[j], l.vpn)
    {
      SplitVisibleAt(s, m, k, x, j, l, open);
    }
  }

  lemma SplitVisibleAt(s: State, m: Mem, k: Loc, x: nat, j: Loc, l: Loc, open: set<Loc>)
    requires EntriesOk(s.entries, s.amaps) && k in s.entries && s.entries[k].base < x < s.entries[k].end
    requires s.entries[k].amap in s.amaps && s.entries[k].obj in s.objs
    requires Loc(k.space, x) !in s.entries && Covers(Split(s, k, x), j, l)
    requires PtesOk(s, open) && Refines(s, m)
    ensures var s' := Split(s, k, x);
      PteOk(s', j, l, open) && l in m && m[l] == CellAt(s', s'.entries[j], l.vpn)
  {
    hide EntriesOk;
    var i := SplitCovers(s, k, x, j, l);
    assert PteOk(s, i, l, open);
  }

  lemma SplitStep(s: State, m: Mem, k: Loc, x: nat, ha: set<nat>, ho: multiset<nat>, open: set<Loc>)
    requires InvWith(s, ha, ho, open) && Refines(s, m)
    requires k in s.entries && s.entries[k].base < x < s.entries[k].end
    requires s.entries[k].amap in s.amaps && s.entries[k].obj in s.objs
    ensures InvWith(Split(s, k, x), ha, ho, open) && Refines(Split(s, k, x), m)
  {
    hide EntriesOk, AmapsPrivate, AmapRefsOk, ObjRefsOk, AnonRefsOk, PagesOk, NoLeak, PtesOk, Refines;
    var e := s.entries[k];
    SplitDisjoint(s, k, x);
    SplitPrivate(s, k, x);
    SplitRefs(s, k, x, ha, ho);
    SplitVisible(s, m, k, x, open);
    RecountAmaps(s, e.amap, s.amaps[e.amap].refcnt + 1);
    RecountObjs(s, e.obj, s.objs[e.obj] + 1);
  }

  lemma RecountAmaps(s: State, a: nat, refcnt: nat)
    requires AnonRefsOk(s.slots, s.amaps, s.anons) && a in s.amaps
    ensures AnonRefsOk(s.slots, s.amaps[a := s.amaps[a].(refcnt := refcnt)], s.anons)
  {
  }

  lemma RecountObjs(s: State, o: nat, refcnt: nat)
    requires PagesOk(s.anons, s.objPages, s.objs, s.pages, s.pager) && o in s.objs
    ensures PagesOk(s.anons, s.objPages, s.objs[o := refcnt], s.pages, s.pager)
  {
  }

  /** The eager memory with the pages of entry `e` added to `space`. */
  ghost function WithEntry(s: State, m: Mem, space: nat, e: Entry): Mem {
    m + map v | e.base <= v < e.end :: Loc(space, v) := CellAt(s, e, v)
  }

  /** Inserting an entry that takes over the references the operation holds. The
      eager model agrees whatever the length of the entry; the invariant is kept
      exactly up to what an amap reaches. */
  lemma AddEntryStep(s: State, m: Mem, k: Loc, e: Entry, ha: set<nat>, ho: multiset<nat>, open: set<Loc>)
    requires InvWith(s, ha, ho, open) && Refines(s, m)
    requires e.base == k.vpn < e.end && e.amap in ha && e.amap in s.amaps && s.amaps[e.amap].obj == e.obj && e.obj in ho
    requires AmapHolders(s.entries, e.amap) == {}
    requires Free(s.entries, k.space, e.base, e.end)
    ensures InvWith(s.(entries := s.entries[k := e]), ha - {e.amap}, ho - multiset{e.obj}, open) <==> e.end <= e.base + REACH
    ensures Refines(s.(entries := s.entries[k := e]), WithEntry(s, m, k.space, e))
  {
    hide EntriesOk, AmapsPrivate, AmapRefsOk, ObjRefsOk, AnonRefsOk, PagesOk, NoLeak, IdsOk, PtesOk, Refines;
    AddEntryEntries(s, k, e);
    AddEntryRefs(s, k, e, ha, ho);
    AddEntryVisible(s, m, k, e, open);
  }

  /** No entry of `space` overlaps pages [lo, hi). */
  ghost predicate Free(entries: map<Loc, Entry>, space: nat, lo: nat, hi: nat) {
    forall k :: k in entries && k.space == space ==> entries[k].end <= lo || hi <= k.vpn
  }

  lemma AddEntryEntries(s: State, k: Loc, e: Entry)
    requires EntriesOk(s.entries, s.amaps) && AmapsPrivate(s.entries)
    requires e.base == k.vpn < e.end && e.amap in s.amaps && s.amaps[e.amap].obj == e.obj
    requires AmapHolders(s.entries, e.amap) == {} && Free(s.entries, k.space, e.base, e.end)
    ensures k !in s.entries && EntriesOk(s.entries[k := e], s.amaps)
    ensures AmapsPrivate(s.entries[k := e]) <==> e.end <= e.base + REACH
  {
    hide AmapsPrivate;
    AddEntryPrivate(s, k, e);
  }

  lemma AddEntryPrivate(s: State, k: Loc, e: Entry)
    requires AmapsPrivate(s.entries) && k !in s.entries && e.base == k.vpn && AmapHolders(s.entries, e.amap) == {}
    ensures AmapsPrivate(s.entries[k := e]) <==> e.end <= e.base + REACH
  {
    forall j | j in s.entries ensures s.entries[j].amap != e.amap {
      assert j !in AmapHolders(s.entries, e.amap);
    }
    assert k in s.entries[k := e];
  }

  lemma AddEntryRefs(s: State, k: Loc, e: Entry, ha: set<nat>, ho: multiset<nat>)
    requires AmapRefsOk(s.amaps, s.entries, ha) && ObjRefsOk(s.objs, s.entries, s.amaps, ho)
    requires k !in s.entries && e.amap in ha && e.obj in ho
    ensures AmapRefsOk(s.amaps, s.entries[k := e], ha - {e.amap})
    ensures ObjRefsOk(s.objs, s.entries[k := e], s.amaps, ho - multiset{e.obj})
  {
    hide AmapHolders, ObjEntries, ObjAmaps;
    forall a { AmapHoldersAdd(s.entries, k, e, a); }
    forall o { ObjEntriesAdd(s.entries, k, e, o); }
  }

  lemma AddEntryAt(s: State, s': State, j: Loc, l: Loc, open: set<Loc>)
    requires Covers(s, j, l) && PteOk(s, j, l, open)
    requires s' == s.(entries := s'.entries) && j in s'.entries && s'.entries[j] == s.entries[j]
    ensures PteOk(s', j, l, open) && CellAt(s', s'.entries[j], l.vpn) == CellAt(s, s.entries[j], l.vpn)
  {
  }

  lemma AddEntryCovers(s: State, k: Loc, e: Entry, j: Loc, l: Loc)
    requires EntriesOk(s.entries, s.amaps)
    requires e.base == k.vpn < e.end && k !in s.entries && Free(s.entries, k.space, e.base, e.end)
    requires Covers(s, j, l)
    ensures Covers(s.(entries := s.entries[k := e]), j, l) && !(l.space == k.space && e.base <= l.vpn < e.end)
  {
  }

  lemma WithEntryAt(s: State, m: Mem, space: nat, e: Entry, l: Loc)
    ensures l in WithEntry(s, m, space, e) <==> l in m || (l.space == space && e.base <= l.vpn < e.end)
    ensures l in WithEntry(s, m, space, e) ==>
      WithEntry(s, m, space, e)[l] ==
        if l.space == space && e.base <= l.vpn < e.end then CellAt(s, e, l.vpn) else m[l]
  {
    assert l == Loc(l.space, l.vpn);
  }

  lemma AddEntryVisible(s: State, m: Mem, k: Loc, e: Entry, open: set<Loc>)
    requires EntriesOk(s.entries, s.amaps) && PtesOk(s, open) && Refines(s, m)
    requires e.base == k.vpn < e.end && k !in s.entries && Free(s.entries, k.space, e.base, e.end)
    ensures PtesOk(s.(entries := s.entries[k := e]), open)
    ensures Refines(s.(entries := s.entries[k := e]), WithEntry(s, m, k.space, e))
  {
    hide CellAt, PteOk, EntriesOk, Free, WithEntry;
    var s' := s.(entries := s.entries[k := e]);
    var m' := WithEntry(s, m, k.space, e);
    forall j, l | Covers(s, j, l)
      ensures Covers(s', j, l) && !(l.space == k.space && e.base <= l.vpn < e.end)
    {
      AddEntryCovers(s, k, e, j, l);
    }
    forall l | l in m' ensures exists j :: Covers(s', j, l) {
      WithEntryAt(s, m, k.space, e, l);
      if l !in m { assert Covers(s', k, l); }
    }
    forall j, l | Covers(s', j, l)
      ensures PteOk(s', j, l, open) && l in m' && m'[l] == CellAt(s', s'.entries[j], l.vpn)
    {
      WithEntryAt(s, m, k.space, e, l);
      if j == k {
        CellSame(s, s', e, l.vpn);
        assert forall i :: !Covers(s, i, l);
        UnmappedOk(s', j, l, open);
      } else {
        assert Covers(s, j, l);
        AddEntryAt(s, s', j, l, open);
      }
    }
  }

  lemma UnmappedOk(s: State, k: Loc, l: Loc, open: set<Loc>)
    requires Covers(s, k, l) && l !in s.ptes
    ensures PteOk(s, k, l, open)
  {
  }

  lemma CellSame(s: State, s': State, e: Entry, v: nat)
    requires s' == s.(entries := s'.entries)
    ensures CellAt(s', e, v) == CellAt(s, e, v)
  {
  }

  /** Removing an entry without PTEs; its references pass to the operation. */
  lemma RemoveEntryStep(s: State, m: Mem, k: Loc, ha: set<nat>, ho: multiset<nat>, open: set<Loc>)
    requires InvWith(s, ha, ho, open) && Refines(s, m)
    requires k in s.entries && s.entries[k].amap !in ha && s.entries[k].obj in s.objs
    requires forall l :: Covers(s, k, l) ==> l !in s.ptes
    ensures InvWith(s.(entries := s.entries - {k}), ha + {s.entries[k].amap}, ho + multiset{s.entries[k].obj}, open)
    ensures Refines(s.(entries := s.entries - {k}), Unmap(m, k.space, s.entries[k].base, s.entries[k].end))
  {
    hide AmapRefsOk, ObjRefsOk, AnonRefsOk, PagesOk, NoLeak, IdsOk, PtesOk, Refines;
    RemoveEntryRefs(s, k, ha, ho);
    RemoveEntryVisible(s, m, k, open);
  }

  lemma RemoveEntryRefs(s: State, k: Loc, ha: set<nat>, ho: multiset<nat>)
    requires AmapRefsOk(s.amaps, s.entries, ha) && ObjRefsOk(s.objs, s.entries, s.amaps, ho)
    requires k in s.entries && s.entries[k].amap !in ha && s.entries[k].obj in s.objs
    ensures AmapRefsOk(s.amaps, s.entries - {k}, ha + {s.entries[k].amap})
    ensures ObjRefsOk(s.objs, s.entries - {k}, s.amaps, ho + multiset{s.entries[k].obj})
  {
    hide AmapHolders, ObjEntries, ObjAmaps;
    var e, entries := s.entries[k], s.entries - {k};
    assert s.entries == entries[k := e];
    forall a { AmapHoldersAdd(entries, k, e, a); }
    forall o { ObjEntriesAdd(entries, k, e, o); }
  }

  lemma RemoveEntryVisible(s: State, m: Mem, k: Loc, open: set<Loc>)
    requires EntriesOk(s.entries, s.amaps) && PtesOk(s, open) && Refines(s, m)
    requires k in s.entries && forall l :: Covers(s, k, l) ==> l !in s.ptes
    ensures PtesOk(s.(entries := s.entries - {k}), open)
    ensures Refines(s.(entries := s.entries - {k}), Unmap(m, k.space, s.entries[k].base, s.entries[k].end))
  {
    hide CellAt, PteOk, EntriesOk, Unmap;
    var s' := s.(entries := s.entries - {k});
    var m' := Unmap(m, k.space, s.entries[k].base, s.entries[k].end);
    forall j, l ensures Covers(s', j, l) <==> Covers(s, j, l) && j != k { RemoveCovers(s, k, j, l); }
    forall l | l in s'.ptes ensures exists j :: Covers(s', j, l) {
      var j :| Covers(s, j, l);
      assert Covers(s', j, l);
    }
    forall l | l in m' ensures exists j :: Covers(s', j, l) {
      UnmapAt(m, k.space, s.entries[k].base, s.entries[k].end, l);
      var j :| Covers(s, j, l);
      RemoveCovers(s, k, j, l);
      assert Covers(s', j, l);
    }
    forall j, l | Covers(s', j, l)
      ensures PteOk(s', j, l, open) && l in m' && m'[l] == CellAt(s', s'.entries[j], l.vpn)
    {
      RemoveCovers(s, k, j, l);
      UnmapAt(m, k.space, s.entries[k].base, s.entries[k].end, l);
      AddEntryAt(s, s', j, l, open);
    }
  }

  lemma RemoveCovers(s: State, k: Loc, j: Loc, l: Loc)
    requires EntriesOk(s.entries, s.amaps) && k in s.entries
    ensures Covers(s.(entries := s.entries - {k}), j, l) <==> Covers(s, j, l) && j != k
    ensures Covers(s, j, l) ==> (j == k <==> l.space == k.space && s.entries[k].base <= l.vpn < s.entries[k].end)
    ensures Covers(s, j, l) && j != k ==> s.(entries := s.entries - {k}).entries[j] == s.entries[j]
  {
    if Covers(s, j, l) && Covers(s, k, l) { UniqueCover(s, j, k, l); }
  }

  lemma UnmapAt(m: Mem, space: nat, lo: nat, hi: nat, l: Loc)
    ensures l in Unmap(m, space, lo, hi) <==> l in m && !(l.space == space && lo <= l.vpn < hi)
    ensures l in Unmap(m, space, lo, hi) ==> Unmap(m, space, lo, hi)[l] == m[l]
  {
  }

  // Amap and object references ---------------------------------------------

  /** Objects and amaps can change freely as far as visibility goes. */
  lemma SameVisibleRefs(s: State, s': State, m: Mem, open: set<Loc>)
    requires PtesOk(s, open) && Refines(s, m)
    requires s' == s.(amaps := s'.amaps, objs := s'.objs, nextId := s'.nextId)
    ensures PtesOk(s', open) && Refines(s', m)
  {
    hide PteOk, CellAt;
    SameVisible(s, s', m, open, open) by {
      forall j, h | Covers(s, j, h)
        ensures PteOk(s', j, h, open) && CellAt(s', s.entries[j], h.vpn) == CellAt(s, s.entries[j], h.vpn)
      {
        SameAt(s, s', j, h, open);
      }
    }
  }

  lemma SameAt(s: State, s': State, k: Loc, l: Loc, open: set<Loc>)
    requires Covers(s, k, l) && PteOk(s, k, l, open)
    requires s' == s.(amaps := s'.amaps, objs := s'.objs, nextId := s'.nextId)
    ensures PteOk(s', k, l, open) && CellAt(s', s.entries[k], l.vpn) == CellAt(s, s.entries[k], l.vpn)
  {
  }

  /** `vm_aobj_create`: a fresh object, referenced by the operation. */
  lemma NewObjStep(s: State, m: Mem, ha: set<nat>, ho: multiset<nat>, open: set<Loc>)
    requires InvWith(s, ha, ho, open) && Refines(s, m) && s.nextId !in ho
    ensures var s' := s.(objs := s.objs[s.nextId := 1], nextId := s.nextId + 1);
            InvWith(s', ha, ho + multiset{s.nextId}, open) && Refines(s', m)
  {
    hide EntriesOk, AmapsPrivate, AmapRefsOk, ObjRefsOk, AnonRefsOk, PagesOk, NoLeak, PtesOk, Refines;
    var o := s.nextId;
    NewObjRefs(s, o, ho);
    RecountPagesObjs(s, s.objs[o := 1]);
    SameVisibleRefs(s, s.(objs := s.objs[o := 1], nextId := o + 1), m, open);
  }

  lemma NewObjRefs(s: State, o: nat, ho: multiset<nat>)
    requires EntriesOk(s.entries, s.amaps) && ObjRefsOk(s.objs, s.entries, s.amaps, ho)
    requires o !in s.objs && o !in ho
    ensures ObjRefsOk(s.objs[o := 1], s.entries, s.amaps, ho + multiset{o})
  {
    forall k | k in s.entries ensures s.entries[k].obj != o { assert s.amaps[s.entries[k].amap].obj in s.objs; }
    assert ObjEntries(s.entries, o) == {};
    assert ObjAmaps(s.amaps, o) == {};
  }

  lemma RecountPagesObjs(s: State, objs: map<nat, nat>)
    requires PagesOk(s.anons, s.objPages, s.objs, s.pages, s.pager)
    requires forall o :: o in s.objs ==> o in objs
    ensures PagesOk(s.anons, s.objPages, objs, s.pages, s.pager)
  {
  }

  /** `vm_object_ref`. */
  lemma RefObjStep(s: State, m: Mem, o: nat, ha: set<nat>, ho: multiset<nat>, open: set<Loc>)
    requires InvWith(s, ha, ho, open) && Refines(s, m) && o in s.objs
    ensures var s' := s.(objs := s.objs[o := s.objs[o] + 1]);
            InvWith(s', ha, ho + multiset{o}, open) && Refines(s', m)
  {
    hide EntriesOk, AmapsPrivate, AmapRefsOk, ObjRefsOk, AnonRefsOk, PagesOk, NoLeak, PtesOk, Refines;
    RefObjRefs(s, o, ho);
    RecountPagesObjs(s, s.objs[o := s.objs[o] + 1]);
    SameVisibleRefs(s, s.(objs := s.objs[o := s.objs[o] + 1]), m, open);
  }

  lemma RefObjRefs(s: State, o: nat, ho: multiset<nat>)
    requires ObjRefsOk(s.objs, s.entries, s.amaps, ho) && o in s.objs
    ensures ObjRefsOk(s.objs[o := s.objs[o] + 1], s.entries, s.amaps, ho + multiset{o})
    ensures o in ho && s.objs[o] > 1 ==> ObjRefsOk(s.objs[o := s.objs[o] - 1], s.entries, s.amaps, ho - multiset{o})
  {
    hide ObjEntries, ObjAmaps;
  }

  /** `vm_amap_create` over an object the operation holds a spare reference to. */
  lemma NewAmapStep(s: State, m: Mem, o: nat, ha: set<nat>, ho: multiset<nat>, open: set<Loc>)
    requires InvWith(s, ha, ho, open) && Refines(s, m) && o in s.objs && o in ho && s.nextId !in ha
    ensures var s' := s.(amaps := s.amaps[s.nextId := Amap(o, 1)], nextId := s.nextId + 1);
            InvWith(s', ha + {s.nextId}, ho - multiset{o}, open) && Refines(s', m)
            && AmapHolders(s.entries, s.nextId) == {} && (forall t :: t in s.slots ==> t.amap != s.nextId)
  {
    hide AmapsPrivate, AmapRefsOk, ObjRefsOk, PagesOk, NoLeak, PtesOk, Refines;
    var a := s.nextId;
    NewAmapRefs(s, a, o, ha);
    NewAmapObjRefs(s, a, o, ho);
    SameVisibleRefs(s, s.(amaps := s.amaps[a := Amap(o, 1)], nextId := a + 1), m, open);
  }

  lemma NewAmapRefs(s: State, a: nat, o: nat, ha: set<nat>)
    requires EntriesOk(s.entries, s.amaps) && AmapRefsOk(s.amaps, s.entries, ha)
    requires a !in s.amaps && a !in ha
    ensures AmapHolders(s.entries, a) == {}
    ensures AmapRefsOk(s.amaps[a := Amap(o, 1)], s.entries, ha + {a})
  {
  }

  lemma ObjAmapsAdd(amaps: map<nat, Amap>, a: nat, x: Amap, o: nat)
    requires a !in amaps
    ensures |ObjAmaps(amaps[a := x], o)| == |ObjAmaps(amaps, o)| + (if x.obj == o then 1 else 0)
  {
    assert ObjAmaps(amaps[a := x], o) == ObjAmaps(amaps, o) + (if x.obj == o then {a} else {});
  }

  lemma NewAmapObjRefs(s: State, a: nat, o: nat, ho: multiset<nat>)
    requires ObjRefsOk(s.objs, s.entries, s.amaps, ho)
    requires a !in s.amaps && o in ho && o in s.objs
    ensures ObjRefsOk(s.objs, s.entries, s.amaps[a := Amap(o, 1)], ho - multiset{o})
  {
    hide ObjEntries, ObjAmaps;
    forall i { ObjAmapsAdd(s.amaps, a, Amap(o, 1), i); }
  }

  /** `vm_amap_ref`. */
  lemma RefAmapStep(s: State, m: Mem, a: nat, ha: set<nat>, ho: multiset<nat>, open: set<Loc>)
    requires InvWith(s, ha, ho, open) && Refines(s, m) && a !in ha && a in s.amaps
    ensures var s' := s.(amaps := s.amaps[a := s.amaps[a].(refcnt := s.amaps[a].refcnt + 1)]);
            InvWith(s', ha + {a}, ho, open) && Refines(s', m)
  {
    hide AmapsPrivate, ObjRefsOk, PagesOk, NoLeak, PtesOk, Refines, AmapHolders, AnonHolders;
    var amaps := s.amaps[a := s.amaps[a].(refcnt := s.amaps[a].refcnt + 1)];
    RecountObjAmaps(s, amaps, ho);
    SameVisibleRefs(s, s.(amaps := amaps), m, open);
  }

  /** `vm_amap_deref`, other references remaining. */
  lemma DropAmapRefStep(s: State, m: Mem, a: nat, ha: set<nat>, ho: multiset<nat>, open: set<Loc>)
    requires InvWith(s, ha, ho, open) && Refines(s, m) && a in ha && a in s.amaps && s.amaps[a].refcnt > 1
    ensures var s' := s.(amaps := s.amaps[a := s.amaps[a].(refcnt := s.amaps[a].refcnt - 1)]);
            InvWith(s', ha - {a}, ho, open) && Refines(s', m)
  {
    hide AmapsPrivate, ObjRefsOk, PagesOk, NoLeak, PtesOk, Refines, AmapHolders, AnonHolders;
    var amaps := s.amaps[a := s.amaps[a].(refcnt := s.amaps[a].refcnt - 1)];
    RecountObjAmaps(s, amaps, ho);
    SameVisibleRefs(s, s.(amaps := amaps), m, open);
  }

  lemma RecountObjAmaps(s: State, amaps: map<nat, Amap>, ho: multiset<nat>)
    requires ObjRefsOk(s.objs, s.entries, s.amaps, ho)
    requires forall a :: a in s.amaps <==> a in amaps
    requires forall a :: a in s.amaps ==> amaps[a].obj == s.amaps[a].obj
    ensures ObjRefsOk(s.objs, s.entries, amaps, ho)
  {
    hide ObjAmaps;
    forall o { ObjAmapsSame(s.amaps, amaps, o); }
  }

  /** The last reference to an emptied amap: its object reference passes on. */
  lemma FreeAmapStep(s: State, m: Mem, a: nat, ha: set<nat>, ho: multiset<nat>, open: set<Loc>)
    requires InvWith(s, ha, ho, open) && Refines(s, m) && a in ha && a in s.amaps && s.amaps[a].refcnt == 1
    requires forall t :: t in s.slots ==> t.amap != a
    ensures InvWith(s.(amaps := s.amaps - {a}), ha - {a}, ho + multiset{s.amaps[a].obj}, open)
    ensures Refines(s.(amaps := s.amaps - {a}), m)
  {
    hide EntriesOk, AmapsPrivate, AmapRefsOk, AnonRefsOk, ObjRefsOk, PagesOk, NoLeak, PtesOk, Refines;
    FreeAmapObjRefs(s, a, ho);
    FreeAmapRefs(s, a, ha);
    SameVisibleRefs(s, s.(amaps := s.amaps - {a}), m, open);
  }

  lemma FreeAmapRefs(s: State, a: nat, ha: set<nat>)
    requires EntriesOk(s.entries, s.amaps) && AmapRefsOk(s.amaps, s.entries, ha)
    requires AnonRefsOk(s.slots, s.amaps, s.anons)
    requires a in ha && a in s.amaps && s.amaps[a].refcnt == 1 && forall t :: t in s.slots ==> t.amap != a
    ensures EntriesOk(s.entries, s.amaps - {a}) && AmapRefsOk(s.amaps - {a}, s.entries, ha - {a})
    ensures AnonRefsOk(s.slots, s.amaps - {a}, s.anons)
  {
    FreeAmapEntries(s, a, ha);
    FreeAmapAnons(s, a);
  }

  lemma FreeAmapEntries(s: State, a: nat, ha: set<nat>)
    requires EntriesOk(s.entries, s.amaps) && AmapRefsOk(s.amaps, s.entries, ha)
    requires a in ha && a in s.amaps && s.amaps[a].refcnt == 1
    ensures EntriesOk(s.entries, s.amaps - {a}) && AmapRefsOk(s.amaps - {a}, s.entries, ha - {a})
  {
    assert AmapHolders(s.entries, a) == {};
    forall k | k in s.entries ensures s.entries[k].amap != a { assert k !in AmapHolders(s.entries, a); }
    hide AmapHolders;
  }

  lemma FreeAmapAnons(s: State, a: nat)
    requires AnonRefsOk(s.slots, s.amaps, s.anons) && forall t :: t in s.slots ==> t.amap != a
    ensures AnonRefsOk(s.slots, s.amaps - {a}, s.anons)
  {
    hide AnonHolders;
  }

  lemma FreeAmapObjRefs(s: State, a: nat, ho: multiset<nat>)
    requires ObjRefsOk(s.objs, s.entries, s.amaps, ho) && a in s.amaps
    ensures ObjRefsOk(s.objs, s.entries, s.amaps - {a}, ho + multiset{s.amaps[a].obj})
  {
    hide ObjEntries, ObjAmaps;
    var amaps := s.amaps - {a};
    assert s.amaps == amaps[a := s.amaps[a]];
    forall o { ObjAmapsAdd(amaps, a, s.amaps[a], o); }
  }

  /** `vm_object_deref`, other references remaining. */
  lemma DropObjRefStep(s: State, m: Mem, o: nat, ha: set<nat>, ho: multiset<nat>, open: set<Loc>)
    requires InvWith(s, ha, ho, open) && Refines(s, m) && o in ho && o in s.objs && s.objs[o] > 1
    ensures var s' := s.(objs := s.objs[o := s.objs[o] - 1]);
            InvWith(s', ha, ho - multiset{o}, open) && Refines(s', m)
  {
    hide EntriesOk, AmapsPrivate, AmapRefsOk, ObjRefsOk, AnonRefsOk, PagesOk, NoLeak, PtesOk, Refines;
    RefObjRefs(s, o, ho);
    RecountPagesObjs(s, s.objs[o := s.objs[o] - 1]);
    SameVisibleRefs(s, s.(objs := s.objs[o := s.objs[o] - 1]), m, open);
  }

  /** Freeing a page of an object no entry maps any more. */
  lemma FreeObjPageStep(s: State, m: Mem, b: ObjPage, ha: set<nat>, ho: multiset<nat>, open: set<Loc>)
    requires InvWith(s, ha, ho, open) && Refines(s, m) && b in s.objPages && ObjEntries(s.entries, b.obj) == {}
    ensures var s' := s.(objPages := s.objPages - {b}, pages := s.pages - {s.objPages[b]});
            InvWith(s', ha, ho, open) && Refines(s', m)
  {
    hide EntriesOk, AmapsPrivate, AmapRefsOk, ObjRefsOk, AnonRefsOk, PagesOk, NoLeak, PteOk, Refines, CellAt;
    var s' := s.(objPages := s.objPages - {b}, pages := s.pages - {s.objPages[b]});
    FreeObjPagePages(s, b);
    SameVisible(s, s', m, open, open) by {
      forall j, h | Covers(s, j, h)
        ensures PteOk(s', j, h, open) && CellAt(s', s.entries[j], h.vpn) == CellAt(s, s.entries[j], h.vpn)
      {
        assert s.entries[j].obj == b.obj ==> j in ObjEntries(s.entries, b.obj);
        FreeObjPageAt(s, s', b, j, h, open);
      }
    }
  }

  lemma FreeObjPagePages(s: State, b: ObjPage)
    requires PagesOk(s.anons, s.objPages, s.objs, s.pages, s.pager) && NoLeak(s.anons, s.objPages, s.pages)
    requires b in s.objPages
    ensures PagesOk(s.anons, s.objPages - {b}, s.objs, s.pages - {s.objPages[b]}, s.pager)
    ensures NoLeak(s.anons, s.objPages - {b}, s.pages - {s.objPages[b]})
  {
    var objPages, pages := s.objPages - {b}, s.pages - {s.objPages[b]};
    assert PagesOk(s.anons, objPages, s.objs, pages, s.pager) by { hide NoLeak; }
    forall p | p in pages ensures HasAnon(s.anons, p) || HasObjPage(objPages, p) {
      if HasObjPage(s.objPages, p) {
        var c :| c in s.objPages && s.objPages[c] == p;
        assert c in objPages && objPages[c] == p;
      }
    }
  }

  lemma FreeObjPageAt(s: State, s': State, b: ObjPage, k: Loc, l: Loc, open: set<Loc>)
    requires PagesOk(s.anons, s.objPages, s.objs, s.pages, s.pager)
    requires Covers(s, k, l) && PteOk(s, k, l, open)
    requires b in s.objPages && s.entries[k].obj != b.obj
    requires s' == s.(objPages := s.objPages - {b}, pages := s.pages - {s.objPages[b]})
    ensures PteOk(s', k, l, open) && CellAt(s', s.entries[k], l.vpn) == CellAt(s, s.entries[k], l.vpn)
  {
  }

  /** The last reference to an object whose pages are gone. */
  lemma FreeObjStep(s: State, m: Mem, o: nat, ha: set<nat>, ho: multiset<nat>, open: set<Loc>)
    requires InvWith(s, ha, ho, open) && Refines(s, m) && o in ho && o in s.objs && s.objs[o] == 1
    requires forall b :: b in s.objPages ==> b.obj != o
    ensures InvWith(s.(objs := s.objs - {o}), ha, ho - multiset{o}, open) && Refines(s.(objs := s.objs - {o}), m)
  {
    hide EntriesOk, AmapsPrivate, AmapRefsOk, ObjRefsOk, AnonRefsOk, PagesOk, NoLeak, PtesOk, Refines;
    FreeObjRefs(s, o, ho);
    FreeObjPages(s, o);
    SameVisibleRefs(s, s.(objs := s.objs - {o}), m, open);
  }

  lemma FreeObjRefs(s: State, o: nat, ho: multiset<nat>)
    requires ObjRefsOk(s.objs, s.entries, s.amaps, ho) && o in ho && o in s.objs && s.objs[o] == 1
    ensures ObjRefsOk(s.objs - {o}, s.entries, s.amaps, ho - multiset{o})
  {
    assert ObjAmaps(s.amaps, o) == {};
    forall a | a in s.amaps ensures s.amaps[a].obj != o { assert a !in ObjAmaps(s.amaps, o); }
  }

  lemma FreeObjPages(s: State, o: nat)
    requires PagesOk(s.anons, s.objPages, s.objs, s.pages, s.pager) && forall b :: b in s.objPages ==> b.obj != o
    ensures PagesOk(s.anons, s.objPages, s.objs - {o}, s.pages, s.pager)
  {
  }

  // Protection -------------------------------------------------------------

  /** `pmap_protect_range` over one entry. */
  ghost function ProtectPtes(ptes: map<Loc, Pte>, space: nat, lo: nat, hi: nat, prot: Prot): map<Loc, Pte> {
    map l | l in ptes :: if l.space == space && lo <= l.vpn < hi then Pte(ptes[l].page, prot) else ptes[l]
  }

  ghost function ProtectedEntry(s: State, k: Loc, prot: Prot, setMax: bool): State
    requires k in s.entries
  {
    var e := s.entries[k];
    s.(entries := s.entries[k := e.(prot := prot, maxProt := if setMax then prot else e.maxProt)],
       ptes := ProtectPtes(s.ptes, k.space, e.base, e.end, prot))
  }

  /** Granting write access is safe exactly on pages no one else can see. */
  ghost predicate WriteGrantSafe(s: State, k: Loc)
    requires k in s.entries
  {
    forall l :: Covers(s, k, l) && l in s.ptes ==>
      PteUnshared(s, s.entries[k], l.vpn, Pte(s.ptes[l].page, Prot(true, true, true)))
  }

  lemma ProtectAt(s: State, k: Loc, prot: Prot, setMax: bool, j: Loc, l: Loc, open: set<Loc>)
    requires k in s.entries && EntriesOk(s.entries, s.amaps)
    requires Covers(s, j, l) && PteOk(s, j, l, open)
    requires prot.write ==> WriteGrantSafe(s, k)
    ensures Covers(ProtectedEntry(s, k, prot, setMax), j, l)
    ensures PteOk(ProtectedEntry(s, k, prot, setMax), j, l, open)
    ensures ContentAt(ProtectedEntry(s, k, prot, setMax), ProtectedEntry(s, k, prot, setMax).entries[j], l.vpn)
         == ContentAt(s, s.entries[j], l.vpn)
    ensures j == k <==> l.space == k.space && s.entries[k].base <= l.vpn < s.entries[k].end
  {
    if Covers(s, k, l) { UniqueCover(s, j, k, l); }
    hide EntriesOk, IndexOf;
    var s' := ProtectedEntry(s, k, prot, setMax);
    assert s'.entries[j].SlotAt(l.vpn) == s.entries[j].SlotAt(l.vpn) && s'.entries[j].BackingAt(l.vpn) == s.entries[j].BackingAt(l.vpn);
  }

  lemma ProtectVisible(s: State, m: Mem, k: Loc, prot: Prot, setMax: bool, open: set<Loc>)
    requires EntriesOk(s.entries, s.amaps) && PtesOk(s, open) && Refines(s, m) && k in s.entries
    requires prot.write ==> WriteGrantSafe(s, k)
    ensures PtesOk(ProtectedEntry(s, k, prot, setMax), open)
    ensures Refines(ProtectedEntry(s, k, prot, setMax),
                    Reprotected(m, k.space, s.entries[k].base, s.entries[k].end, prot, setMax))
  {
    hide EntriesOk, PteOk, ContentAt, WriteGrantSafe;
    var s' := ProtectedEntry(s, k, prot, setMax);
    assert forall j, l :: Covers(s', j, l) <==> Covers(s, j, l);
    forall j, l | Covers(s', j, l)
      ensures PteOk(s', j, l, open) && l in m
      ensures Reprotected(m, k.space, s.entries[k].base, s.entries[k].end, prot, setMax)[l] == CellAt(s', s'.entries[j], l.vpn)
    {
      ProtectAt(s, k, prot, setMax, j, l, open);
    }
  }

  lemma ProtectEntryStep(s: State, m: Mem, k: Loc, prot: Prot, setMax: bool, ha: set<nat>, ho: multiset<nat>, open: set<Loc>)
    requires InvWith(s, ha, ho, open) && Refines(s, m) && k in s.entries
    requires prot.write ==> WriteGrantSafe(s, k)
    ensures InvWith(ProtectedEntry(s, k, prot, setMax), ha, ho, open)
    ensures Refines(ProtectedEntry(s, k, prot, setMax),
                    Reprotected(m, k.space, s.entries[k].base, s.entries[k].end, prot, setMax))
  {
    hide EntriesOk, AmapsPrivate, AmapRefsOk, ObjRefsOk, AnonRefsOk, PagesOk, NoLeak, IdsOk, PtesOk, Refines, WriteGrantSafe;
    var s' := ProtectedEntry(s, k, prot, setMax);
    ProtectVisible(s, m, k, prot, setMax, open);
    ProtectRefs(s, k, s'.entries[k], ha, ho);
    SameShape(s.entries, s.amaps, k, s'.entries[k]);
  }

  /** Entries of the same extent over the same amaps are as well formed. */
  lemma SameShape(entries: map<Loc, Entry>, amaps: map<nat, Amap>, k: Loc, e: Entry)
    requires EntriesOk(entries, amaps) && AmapsPrivate(entries) && k in entries
    requires e.base == entries[k].base && e.end == entries[k].end && e.offset == entries[k].offset
    requires e.obj == entries[k].obj && e.amap == entries[k].amap
    ensures EntriesOk(entries[k := e], amaps) && AmapsPrivate(entries[k := e])
  {
  }

  lemma ProtectRefs(s: State, k: Loc, e: Entry, ha: set<nat>, ho: multiset<nat>)
    requires AmapRefsOk(s.amaps, s.entries, ha) && ObjRefsOk(s.objs, s.entries, s.amaps, ho)
    requires k in s.entries && e.amap == s.entries[k].amap && e.obj == s.entries[k].obj
    ensures AmapRefsOk(s.amaps, s.entries[k := e], ha) && ObjRefsOk(s.objs, s.entries[k := e], s.amaps, ho)
  {
    hide AmapHolders, ObjEntries, ObjAmaps;
    forall i { HoldersSame(s.entries, k, e, i, i); }
  }
}
