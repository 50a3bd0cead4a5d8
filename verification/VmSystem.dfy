/** The operations on address spaces. Every one of them keeps the memory each
    space sees equal to the eager model's, although fork shares pages and
    copies them only on a write fault. */
module VmSystem {
  import opened Wrappers
  import opened AmapIndex
  import opened VmState
  import opened EagerMemory
  import opened VmSteps
  import opened VmLoops

  class Vm {
    var entries: map<Loc, Entry>
    var ptes: map<Loc, Pte>
    var amaps: map<nat, Amap>
    var slots: map<Slot, nat>
    var anons: map<nat, Anon>
    var objs: map<nat, nat>
    var objPages: map<ObjPage, nat>
    var pages: map<nat, Content>
    var nextId: nat
    const pager: ObjPage -> Content
    ghost var mem: Mem  // what every address space sees

    ghost function Now(): State
      reads this
    {
      State(entries, ptes, amaps, slots, anons, objs, objPages, pages, nextId, pager)
    }

    /** Valid in the middle of an operation; see VmState.InvWith. */
    ghost predicate ValidWith(ha: set<nat>, ho: multiset<nat>, open: set<Loc>)
      reads this
    {
      InvWith(Now(), ha, ho, open) && Refines(Now(), mem)
    }

    ghost predicate Valid()
      reads this
    {
      ValidWith({}, multiset{}, {})
    }

    constructor (pager: ObjPage -> Content)
      ensures Valid() && entries == map[] && mem == map[] && this.pager == pager
    {
      entries, ptes, amaps, slots, anons, objs, objPages, pages := map[], map[], map[], map[], map[], map[], map[], map[];
      nextId := 0;
      mem := map[];
      this.pager := pager;
    }

    /** `vm_map_lookup_entry_locked`: the entry over a page, with what the
        invariant says about it. */
    method LookupEntry(l: Loc) returns (found: bool, k: Loc)
      requires Valid()
      ensures found <==> l in mem
      ensures found ==> EntryFacts(Now(), mem, k, l)
    {
      if j :| j in entries && j.space == l.space && entries[j].base <= l.vpn < entries[j].end {
        found, k := true, j;
        EntryFactsHold(Now(), mem, k, l);
      } else {
        found, k := false, l;
      }
    }

    // Page faults ----------------------------------------------------------

    /** `vm_lookuppage`: the resident page of an object, read in if need be. */
    method LookupPage(b: ObjPage, ghost ha: set<nat>, ghost ho: multiset<nat>, ghost open: set<Loc>) returns (page: nat)
      requires ValidWith(ha, ho, open) && b.obj in objs
      modifies this`objPages, this`pages, this`nextId
      ensures ValidWith(ha, ho, open)
      ensures b in objPages && page == objPages[b] && page in pages && pages[page] == pager(b)
      ensures b in old(objPages) ==> objPages == old(objPages) && pages == old(pages)
      ensures b !in old(objPages) ==> objPages == old(objPages)[b := page] && pages == old(pages)[page := pager(b)]
    {
      hide IndexOf, EntriesOk, AmapsPrivate, AmapRefsOk, ObjRefsOk, AnonRefsOk, NoLeak, PtesOk, Refines;
      if b in objPages {
        page := objPages[b];
      } else {
        LookupPageStep(Now(), mem, b, ha, ho, open);
        page := nextId;
        objPages := objPages[b := page];
        pages := pages[page := pager(b)];
        nextId := page + 1;
      }
    }

    /** `vm_handle_fault` on an entry of type `VM_MAP_ENT_OBJ` with an amap. A
        page that may not even be read runs into the assertion of `pmap_map`
        whatever the fault, which is reported as `Unreadable`. */
    method Fault(l: Loc, write: bool) returns (status: Status)
      requires Valid()
      modifies this
      ensures Valid() && mem == old(mem) && entries == old(entries) && amaps == old(amaps) && objs == old(objs)
      // the outcome is the eager model's
      ensures l !in mem <==> status == NoEnt
      ensures l in mem && write && !mem[l].prot.write <==> status == PermDenied
      ensures l in mem && (write ==> mem[l].prot.write) && !mem[l].prot.read <==> status == Unreadable
      ensures l in mem && (write ==> mem[l].prot.write) && mem[l].prot.read <==> status == Success
      // one fault is enough
      ensures status == Success ==> l in ptes && ptes[l].prot.read && (write ==> ptes[l].prot.write)
      // no PTE but the faulting one changes
      ensures SameExcept(old(ptes), ptes, l)
      // reading never copies, and neither does writing an anon no one else holds
      ensures !write ==> slots == old(slots) && anons == old(anons)
      ensures forall k :: Covers(old(Now()), k, l) && HeldBy(old(Now()), k, l, 1, 1) ==>
                slots == old(slots) && anons == old(anons) && pages == old(pages)
      // writing a shared anon takes this slot, and no other, off it
      ensures forall k :: Covers(old(Now()), k, l) && status == Success && write ==>
                SameExcept(old(slots), slots, ShownSlot(Now(), k, l))
    {
      hide IndexOf, EntriesOk, AmapsPrivate, AmapRefsOk, ObjRefsOk, AnonRefsOk, PagesOk, NoLeak, IdsOk, PtesOk, Refines, ContentAt;
      var found, k := LookupEntry(l);
      if !found {
        return NoEnt;
      }
      if !entries[k].prot.write && write {
        return PermDenied;
      }
      if !entries[k].prot.read {
        return Unreadable;
      }
      if entries[k].SlotAt(l.vpn) in slots {
        FaultAnon(k, l, write);
      } else {
        FaultBacking(k, l, write);
      }
      return Success;
    }

    /** A fault on a page whose amap slot holds an anon. */
    method FaultAnon(k: Loc, l: Loc, write: bool)
      requires EntryFacts(Now(), mem, k, l) && AllowsFault(Now(), k, write)
      requires ShownSlot(Now(), k, l) in slots
      requires Valid()
      modifies this`ptes, this`slots, this`anons, this`pages, this`nextId
      ensures l in ptes && SameExcept(old(ptes), ptes, l) && ptes[l].prot.read && (write ==> ptes[l].prot.write)
      ensures if HeldBy(old(Now()), k, l, 0, 1) || !write then
                slots == old(slots) && anons == old(anons) && pages == old(pages)
              else
                SameExcept(old(slots), slots, ShownSlot(Now(), k, l))
      ensures Valid()
    {
      hide IndexOf, EntriesOk, AmapsPrivate, AmapRefsOk, ObjRefsOk, AnonRefsOk, PagesOk, NoLeak, IdsOk, PtesOk, Refines, ContentAt;
      var prot := entries[k].prot;
      var slot := entries[k].SlotAt(l.vpn);
      var n := slots[slot];
      if anons[n].refcnt > 1 {
        if !write {
          prot := prot.(write := false);
        } else {
          // vm_anon_copy: a private copy replaces the shared anon here
          CopyStep(Now(), mem, k, l, Pte(nextId, prot), {}, multiset{}, {});
          var page := nextId;
          pages := pages[page := pages[anons[n].page]];
          anons := anons[n := Anon(anons[n].page, anons[n].refcnt - 1)][nextId + 1 := Anon(page, 1)];
          slots := slots[slot := nextId + 1];
          nextId := nextId + 2;
          ptes := ptes[l := Pte(page, prot)];
          return;
        }
      }
      SetPteStep(Now(), mem, k, l, Pte(anons[n].page, prot), {}, multiset{}, {});
      ptes := ptes[l := Pte(anons[n].page, prot)];
    }

    /** A fault on a page still backed by the object. */
    method FaultBacking(k: Loc, l: Loc, write: bool)
      requires EntryFacts(Now(), mem, k, l) && AllowsFault(Now(), k, write)
      requires ShownSlot(Now(), k, l) !in slots
      requires Valid()
      modifies this`ptes, this`slots, this`anons, this`pages, this`objPages, this`nextId
      ensures l in ptes && SameExcept(old(ptes), ptes, l) && ptes[l].prot.read && (write ==> ptes[l].prot.write)
      ensures if !write then slots == old(slots) && anons == old(anons)
              else SameExcept(old(slots), slots, ShownSlot(Now(), k, l))
      ensures Valid()
    {
      hide IndexOf, EntriesOk, AmapsPrivate, AmapRefsOk, ObjRefsOk, AnonRefsOk, PagesOk, NoLeak, IdsOk, PtesOk, Refines, ContentAt;
      var prot := entries[k].prot;
      var backing := LookupPage(entries[k].BackingAt(l.vpn), {}, multiset{}, {});
      if write {
        FillAnon(k, l, backing);
      } else {
        prot := prot.(write := false);
        SetPteStep(Now(), mem, k, l, Pte(backing, prot), {}, multiset{}, {});
        ptes := ptes[l := Pte(backing, prot)];
      }
    }

    /** `vm_amap_fill_locked` copies the backing page into a new anon, which is
        then mapped. */
    method FillAnon(k: Loc, l: Loc, backing: nat)
      requires Valid() && Covers(Now(), k, l) && ShownSlot(Now(), k, l) !in slots
      requires k in entries && backing in pages && pages[backing] == pager(entries[k].BackingAt(l.vpn))
      modifies this`ptes, this`slots, this`anons, this`pages, this`nextId
      ensures l in ptes && SameExcept(old(ptes), ptes, l) && ptes[l].prot == entries[k].prot
      ensures SameExcept(old(slots), slots, ShownSlot(Now(), k, l))
      ensures Valid()
    {
      hide IndexOf, EntriesOk, AmapsPrivate, AmapRefsOk, ObjRefsOk, AnonRefsOk, PagesOk, NoLeak, IdsOk, PtesOk, Refines, ContentAt;
      var prot := entries[k].prot;
      FillStep(Now(), mem, k, l, Pte(nextId, prot), {}, multiset{}, {});
      var page := nextId;
      pages := pages[page := pages[backing]];
      anons := anons[nextId + 1 := Anon(page, 1)];
      slots := slots[entries[k].SlotAt(l.vpn) := nextId + 1];
      nextId := nextId + 2;
      ptes := ptes[l := Pte(page, prot)];
    }

    // Loads and stores -----------------------------------------------------

    /** A load by user code, faulting once if the page table does not permit it. */
    method ReadWord(l: Loc, word: nat) returns (status: Status, value: int)
      requires Valid() && word < PAGE_WORDS
      modifies this
      ensures Valid() && mem == old(mem)
      ensures ReadReports(mem, l, word, status, value)
    {
      hide IndexOf, EntriesOk, AmapsPrivate, AmapRefsOk, ObjRefsOk, AnonRefsOk, PagesOk, NoLeak, IdsOk, PtesOk, Refines;
      if l in ptes && (ptes[l].prot.read || ptes[l].prot.write) {
        status := Success;
      } else {
        status := Fault(l, false);
        if status != Success { return status, 0; }
      }
      PteSeen(Now(), mem, l);
      value := pages[ptes[l].page][word];
    }

    /** A store by user code, faulting once if the page table does not permit it. */
    method WriteWord(l: Loc, word: nat, value: int) returns (status: Status)
      requires Valid() && word < PAGE_WORDS
      modifies this
      ensures Valid()
      ensures WriteReports(old(mem), l, status) && (status == Success ==> l in old(mem))
      ensures mem == if l in old(mem) && status == Success then Store(old(mem), l, word, value) else old(mem)
    {
      hide IndexOf, EntriesOk, AmapsPrivate, AmapRefsOk, ObjRefsOk, AnonRefsOk, PagesOk, NoLeak, IdsOk, PtesOk, Refines;
      if l in ptes && ptes[l].prot.write {
        status := Success;
      } else {
        status := Fault(l, true);
        if status != Success { return; }
      }
      PteSeen(Now(), mem, l);
      StoreStep(Now(), mem, l, word, value);
      pages := pages[ptes[l].page := pages[ptes[l].page][word := value]];
      mem := Store(mem, l, word, value);
    }

    // Page table ranges ----------------------------------------------------

    /** `pmap_protect_range`. */
    method PmapProtectRange(space: nat, lo: nat, hi: nat, prot: Prot)
      requires lo <= hi
      modifies this`ptes
      ensures ptes == ProtectPtes(old(ptes), space, lo, hi, prot)
    {
      for v := lo to hi
        invariant ptes == ProtectPtes(old(ptes), space, lo, v, prot)
      {
        if Loc(space, v) in ptes {
          ptes := ptes[Loc(space, v) := Pte(ptes[Loc(space, v)].page, prot)];
        }
      }
    }

    /** `pmap_unmap_range`. */
    method PmapUnmapRange(space: nat, lo: nat, hi: nat)
      requires lo <= hi
      modifies this`ptes
      ensures ptes == map l | l in old(ptes) && !(l.space == space && lo <= l.vpn < hi) :: old(ptes)[l]
    {
      for v := lo to hi
        invariant ptes == map l | l in old(ptes) && !(l.space == space && lo <= l.vpn < v) :: old(ptes)[l]
      {
        ptes := ptes - {Loc(space, v)};
      }
    }

    // Fork -----------------------------------------------------------------

    /** `vm_amap_create`: an empty amap over object `o`. */
    method AmapCreate(o: nat, ghost ho: multiset<nat>, ghost open: set<Loc>) returns (b: nat)
      requires ValidWith({}, ho, open) && o in objs
      modifies this`amaps, this`objs, this`nextId
      ensures ValidWith({b}, ho, open) && b !in old(amaps) && amaps == old(amaps)[b := Amap(o, 1)]
      ensures AmapHolders(entries, b) == {} && forall t :: t in slots ==> t.amap != b
      ensures objs.Keys == old(objs).Keys
    {
      hide IndexOf, EntriesOk, AmapsPrivate, AmapRefsOk, ObjRefsOk, AnonRefsOk, PagesOk, NoLeak, PtesOk, Refines, AmapHolders;
      RefObjStep(Now(), mem, o, {}, ho, open);
      objs := objs[o := objs[o] + 1];
      NewAmapStep(Now(), mem, o, {}, ho + multiset{o}, open);
      b := nextId;
      amaps := amaps[b := Amap(o, 1)];
      nextId := b + 1;
      assert ho + multiset{o} - multiset{o} == ho && {} + {b} == {b};
    }

    /** `vm_amap_copy`: a new amap sharing every anon of `a`. */
    method AmapCopy(a: nat, ghost ho: multiset<nat>, ghost open: set<Loc>) returns (b: nat)
      requires ValidWith({}, ho, open) && a in amaps && amaps[a].obj in objs
      requires CopyOpen(Now(), a, open)
      modifies this`amaps, this`objs, this`slots, this`anons, this`nextId
      ensures ValidWith({b}, ho, open) && b !in old(amaps) && amaps == old(amaps)[b := Amap(old(amaps)[a].obj, 1)]
      ensures AmapHolders(entries, b) == {}
      ensures SlotsCopied(old(slots), slots, a, b) && SamePages(old(anons), anons)
      ensures objs.Keys == old(objs).Keys
    {
      hide IndexOf, EntriesOk, AmapsPrivate, AmapRefsOk, ObjRefsOk, AnonRefsOk, PagesOk, NoLeak, IdsOk, PtesOk, Refines, AmapHolders;
      b := AmapCreate(amaps[a].obj, ho, open);
      ShareAll(a, b, ho, open);
    }

    /** The loops of `vm_amap_copy` over the slots of `a`. */
    method ShareAll(a: nat, b: nat, ghost ho: multiset<nat>, ghost open: set<Loc>)
      requires ValidWith({b}, ho, open) && a != b && b in amaps && CopyOpen(Now(), a, open)
      requires AmapHolders(entries, b) == {} && forall t :: t in slots ==> t.amap != b
      modifies this`slots, this`anons
      ensures ValidWith({b}, ho, open)
      ensures SlotsCopied(old(slots), slots, a, b) && SamePages(old(anons), anons)
    {
      hide IndexOf, EntriesOk, AmapsPrivate, AmapRefsOk, ObjRefsOk, AnonRefsOk, PagesOk, NoLeak, IdsOk, PtesOk, Refines, AmapHolders, PageOf;
      // the three nested loops go through the indices in the order of their pages
      for n := 0 to REACH
        invariant ValidWith({b}, ho, open)
        invariant forall t: Slot :: t.amap != b ==> (t in slots <==> t in old(slots)) && (t in slots ==> slots[t] == old(slots)[t])
        invariant forall t: Slot :: t.amap == b && t in slots ==> Slot(a, t.at) in old(slots) && slots[t] == old(slots)[Slot(a, t.at)]
        invariant forall t: Slot :: t.amap == a && t in old(slots) ==> (Slot(b, t.at) in slots <==> PageOf(t.at) < n)
        invariant SamePages(old(anons), anons)
      {
        var t := Slot(a, IndexOf(n));
        PageOfIndex(n);
        forall x: Index | n <= PageOf(x) && x != IndexOf(n) ensures n + 1 <= PageOf(x) { NextIndex(n, x); }
        if t in slots {
          SlotAnonLive(Now(), t);
          ShareStep(Now(), mem, t, Slot(b, t.at), {b}, ho, open);
          anons := anons[slots[t] := anons[slots[t]].(refcnt := anons[slots[t]].refcnt + 1)];
          slots := slots[Slot(b, t.at) := slots[t]];
        }
      }
      forall t: Slot | t.amap == b ensures t in slots <==> Slot(a, t.at) in old(slots) {
        assert t == Slot(b, t.at);
      }
    }

    /** Fork takes write permission off the pages of a writable entry. */
    method WriteProtect(k: Loc, ghost ha: set<nat>, ghost ho: multiset<nat>)
      requires k in entries && entries[k].base <= entries[k].end
      requires ValidWith(ha, ho, OpenIn(ptes, k.space))
      modifies this`ptes
      ensures ptes.Keys == old(ptes).Keys && forall l :: l in ptes && ptes[l].prot.write ==> old(ptes)[l].prot.write
      ensures forall l :: Covers(Now(), k, l) && l in ptes ==> !ptes[l].prot.write
      ensures ValidWith(ha, ho, OpenIn(ptes, k.space))
    {
      hide IndexOf, EntriesOk, AmapsPrivate, AmapRefsOk, ObjRefsOk, AnonRefsOk, PagesOk, NoLeak, IdsOk, PtesOk, Refines, OpenIn;
      ForkReadOnly(Now(), k, OpenIn(ptes, k.space));
      if entries[k].prot.write {
        WriteProtectStep(Now(), mem, k, ha, ho);
        PmapProtectRange(k.space, entries[k].base, entries[k].end, entries[k].prot.(write := false));
        ProtectedReadOnly(old(ptes), ptes, k.space, entries[k].base, entries[k].end, entries[k].prot.(write := false));
      }
    }

    /** One turn of the loop of `vm_map_fork`. */
    method ForkEntry(k: Loc, to: nat)
      requires k in entries && to != k.space && Free(entries, to, entries[k].base, entries[k].end)
      requires ValidWith({}, multiset{}, OpenIn(ptes, k.space))
      modifies this
      ensures Loc(to, k.vpn) in entries && SameExcept(old(entries), entries, Loc(to, k.vpn))
      ensures entries[Loc(to, k.vpn)].end == old(entries)[k].end
      ensures ptes.Keys == old(ptes).Keys && forall l :: l in ptes && ptes[l].prot.write ==> old(ptes)[l].prot.write
      ensures forall l :: Covers(Now(), k, l) && l in ptes ==> !ptes[l].prot.write
      ensures mem == old(mem) + RangeCopy(old(mem), k.space, to, k.vpn, old(entries)[k].end)
      ensures ValidWith({}, multiset{}, OpenIn(ptes, k.space))
    {
      hide IndexOf, EntriesOk, AmapsPrivate, AmapRefsOk, ObjRefsOk, AnonRefsOk, PagesOk, NoLeak, IdsOk, PtesOk, Refines, AmapHolders, Free,
           SlotsCopied, SamePages, RangeCopy, WithEntry, CopyOpen, OpenIn;
      var e := entries[k];
      ghost var open := OpenIn(ptes, k.space);
      EntryLive(Now(), k);
      EntryReach(Now(), k);
      ObjLive(Now(), k, multiset{});
      RefObjStep(Now(), mem, e.obj, {}, multiset{}, open);
      objs := objs[e.obj := objs[e.obj] + 1];
      assert multiset{} + multiset{e.obj} == multiset{e.obj};
      ForkOpen(Now(), k, open);
      ghost var shared := Now();
      var b := AmapCopy(e.amap, multiset{e.obj}, open);
      WriteProtect(k, {b}, multiset{e.obj});
      var e' := e.(amap := b);
      AddEntryStep(Now(), mem, Loc(to, e.base), e', {b}, multiset{e.obj}, OpenIn(ptes, k.space));
      CopiedMem(shared, Now(), mem, k, to, e');
      mem := WithEntry(Now(), mem, to, e');
      entries := entries[Loc(to, e.base) := e'];
      assert {b} - {b} == {} && multiset{e.obj} - multiset{e.obj} == multiset{};
    }

    /** `vm_map_fork` into a space with no entries. */
    method Fork(from: nat, to: nat)
      requires Valid() && from != to && forall k :: k in entries ==> k.space != to
      modifies this
      ensures Valid() && mem == EagerMemory.Fork(old(mem), from, to)
    {
      hide IndexOf, EntriesOk, AmapsPrivate, AmapRefsOk, ObjRefsOk, AnonRefsOk, PagesOk, NoLeak, IdsOk, PtesOk, Refines, OpenIn, Free,
           ForkedEntries, ForkedMem, InvWith, Sealed, Covers, SameExcept, RangeCopy;
      var todo := set k | k in entries && k.space == from;
      ghost var s0 := Now();
      ghost var all, done := todo, {};
      OpenStep(Now(), {}, OpenIn(ptes, from), {}, multiset{});
      ForkStart(s0, mem, from, to);
      while todo != {}
        invariant ValidWith({}, multiset{}, OpenIn(ptes, from))
        invariant todo + done == all && todo !! done
        invariant ForkedEntries(s0.entries, entries, done, to)
        invariant ForkedMem(s0, mem, done, from, to, old(mem))
        invariant ptes.Keys == s0.ptes.Keys && Sealed(s0, done, ptes)
      {
        var k :| k in todo;
        ForkRoom(s0, entries, done, k, to);
        ghost var s1, m1 := Now(), mem;
        ForkEntry(k, to);
        ForkProgress(s0, m1, mem, done, k, from, to, old(mem));
        ForkedMore(s0.entries, s1.entries, entries, done, k, to);
        SealMore(s0, s1, Now(), done, k, to);
        todo, done := todo - {k}, done + {k};
      }
      ForkDone(s0, Now(), mem, done, from, to, old(mem));
      OpenStep(Now(), OpenIn(ptes, from), {}, {}, multiset{});
    }

    // Dropping references --------------------------------------------------

    /** `vm_object_deref` of a reference the operation holds. */
    method ObjDeref(o: nat, ghost ha: set<nat>, ghost ho: multiset<nat>, ghost open: set<Loc>)
      requires ValidWith(ha, ho, open) && o in ho && o in objs
      modifies this`objs, this`objPages, this`pages
      ensures ValidWith(ha, ho - multiset{o}, open)
    {
      hide IndexOf, EntriesOk, AmapsPrivate, AmapRefsOk, ObjRefsOk, AnonRefsOk, PagesOk, NoLeak, IdsOk, PtesOk, Refines;
      if objs[o] > 1 {
        DropObjRefStep(Now(), mem, o, ha, ho, open);
        objs := objs[o := objs[o] - 1];
      } else {
        LastObjRef(Now(), o, ho);
        var todo := PagesOf(objPages, o);
        while todo != {}
          invariant ValidWith(ha, ho, open) && objs == old(objs)
          invariant todo == PagesOf(objPages, o)
        {
          var b :| b in todo;
          FreeObjPageStep(Now(), mem, b, ha, ho, open);
          pages := pages - {objPages[b]};
          objPages := objPages - {b};
          todo := todo - {b};
        }
        assert forall b :: b in objPages && b.obj == o ==> b in PagesOf(objPages, o);
        FreeObjStep(Now(), mem, o, ha, ho, open);
        objs := objs - {o};
      }
    }

    /** `vm_amap_deref` of a reference the operation holds; the last one frees
        the amap with `amap_free_all`. */
    method AmapDeref(a: nat, ghost ho: multiset<nat>, ghost open: set<Loc>)
      requires ValidWith({a}, ho, open) && a in amaps
      modifies this`amaps, this`slots, this`anons, this`objs, this`objPages, this`pages
      ensures ValidWith({}, ho, open)
    {
      hide IndexOf, EntriesOk, AmapsPrivate, AmapRefsOk, ObjRefsOk, AnonRefsOk, PagesOk, NoLeak, IdsOk, PtesOk, Refines, AmapHolders;
      assert {a} - {a} == {};
      if amaps[a].refcnt > 1 {
        DropAmapRefStep(Now(), mem, a, {a}, ho, open);
        amaps := amaps[a := amaps[a].(refcnt := amaps[a].refcnt - 1)];
      } else {
        LastAmapRef(Now(), a);
        FreeAll(a, ho, open);
        var o := amaps[a].obj;
        FreeAmapStep(Now(), mem, a, {a}, ho, open);
        amaps := amaps - {a};
        HeldObjLive(Now(), o, ho + multiset{o});
        ObjDeref(o, {}, ho + multiset{o}, open);
        assert ho + multiset{o} - multiset{o} == ho;
      }
    }

    /** `amap_free_all`. */
    method FreeAll(a: nat, ghost ho: multiset<nat>, ghost open: set<Loc>)
      requires ValidWith({a}, ho, open) && AmapHolders(entries, a) == {}
      modifies this`slots, this`anons, this`pages
      ensures ValidWith({a}, ho, open) && forall t :: t in slots ==> t.amap != a
    {
      hide IndexOf, EntriesOk, AmapsPrivate, AmapRefsOk, ObjRefsOk, AnonRefsOk, PagesOk, NoLeak, IdsOk, PtesOk, Refines, AmapHolders, PageOf;
      // the three nested loops go through the indices in the order of their pages
      for i := 0 to REACH
        invariant ValidWith({a}, ho, open)
        invariant forall t :: t in slots && t.amap == a ==> i <= PageOf(t.at)
      {
        var t := Slot(a, IndexOf(i));
        forall x: Index | i <= PageOf(x) && x != IndexOf(i) ensures i + 1 <= PageOf(x) { NextIndex(i, x); }
        if t in slots {
          SlotAnonLive(Now(), t);
          ReleaseStep(Now(), mem, t, {a}, ho, open);
          var n := slots[t];
          if anons[n].refcnt == 1 {
            pages := pages - {anons[n].page};
            anons := anons - {n};
          } else {
            anons := anons[n := anons[n].(refcnt := anons[n].refcnt - 1)];
          }
          slots := slots - {t};
        }
        forall u | u in slots && u.amap == a ensures i + 1 <= PageOf(u.at) {
          assert u == Slot(a, u.at);
        }
      }
    }

    // The entry tree -------------------------------------------------------

    /** `map_lower_bound`: the lowest entry at or above `addr`. `RBT_NEXT` of an
        entry is the lower bound just above its base. */
    method LowerBound(space: nat, addr: nat) returns (r: Option<Loc>)
      ensures r.Some? ==> r.value in entries && r.value.space == space && addr <= r.value.vpn
      ensures forall k :: k in entries && k.space == space && addr <= k.vpn ==> r.Some? && r.value.vpn <= k.vpn
    {
      r := None;
      var todo := set k | k in entries && k.space == space && addr <= k.vpn;
      while todo != {}
        invariant r.Some? ==> r.value in entries && r.value.space == space && addr <= r.value.vpn
        invariant forall k :: k in entries && k.space == space && addr <= k.vpn && k !in todo ==> r.Some? && r.value.vpn <= k.vpn
      {
        var k :| k in todo;
        if r.None? || k.vpn < r.value.vpn { r := Some(k); }
        todo := todo - {k};
      }
    }

    /** The highest entry below `addr`: `RBT_PREV` of the entry at `addr`, or
        `RBT_MAX` when nothing is at or above `addr`. */
    method Below(space: nat, addr: nat) returns (r: Option<Loc>)
      ensures r.Some? ==> r.value in entries && r.value.space == space && r.value.vpn < addr
      ensures forall k :: k in entries && k.space == space && k.vpn < addr ==> r.Some? && k.vpn <= r.value.vpn
    {
      r := None;
      var todo := set k | k in entries && k.space == space && k.vpn < addr;
      while todo != {}
        invariant r.Some? ==> r.value in entries && r.value.space == space && r.value.vpn < addr
        invariant forall k :: k in entries && k.space == space && k.vpn < addr && k !in todo ==> r.Some? && k.vpn <= r.value.vpn
      {
        var k :| k in todo;
        if r.None? || r.value.vpn < k.vpn { r := Some(k); }
        todo := todo - {k};
      }
    }

    /** Where `vm_unmap` and `vm_protect` start: at an entry with nothing of
        the space mapped between `lo` and its base. */
    method FirstFrom(space: nat, lo: nat, ghost hi: nat) returns (r: Option<Loc>)
      requires Valid()
      ensures r.Some? ==> r.value in entries && r.value.space == space
      ensures NoneIn(mem, space, lo, Cursor(r, lo, hi))
      ensures forall k :: k in entries && k.space == space && k.vpn < lo < entries[k].end ==> r == Some(k)
    {
      hide IndexOf, EntriesOk, AmapsPrivate, AmapRefsOk, ObjRefsOk, AnonRefsOk, PagesOk, NoLeak, IdsOk, PtesOk, Refines, NoneIn, Cursor;
      r := LowerBound(space, lo);
      if r.None? {
        r := Below(space, lo);
        if r.None? {
          StartFrom(Now(), mem, space, lo, hi, r);
          return;
        }
      }
      var prev := Below(space, r.value.vpn);
      EndsBelow(Now(), space, lo, r.value, prev);
      if prev.Some? && entries[prev.value].end > lo {
        r := prev;
      }
      StartFrom(Now(), mem, space, lo, hi, r);
    }

    /** Cut entry `k` in two at page `x`, both halves holding references. */
    method Cut(k: Loc, x: nat)
      requires k in entries && entries[k].base < x < entries[k].end
      requires Valid()
      modifies this`entries, this`amaps, this`objs
      ensures entries == old(entries)[k := old(entries)[k].(end := x)][Loc(k.space, x) := Tail(old(entries)[k], x)]
      ensures Loc(k.space, x) !in old(entries) && SameTranslation(old(Now()), Now())
      ensures Valid()
    {
      hide SameTranslation, Covers;
      hide IndexOf, EntriesOk, AmapsPrivate, AmapRefsOk, ObjRefsOk, AnonRefsOk, PagesOk, NoLeak, IdsOk, PtesOk, Refines;
      var e := entries[k];
      EntryLive(Now(), k);
      ObjLive(Now(), k, multiset{});
      SplitStep(Now(), mem, k, x, {}, multiset{}, {});
      SplitDisjoint(Now(), k, x);
      SplitTranslation(Now(), k, x);
      entries := entries[k := e.(end := x)][Loc(k.space, x) := e.(base := x, offset := e.offset + (x - e.base))];
      amaps := amaps[e.amap := amaps[e.amap].(refcnt := amaps[e.amap].refcnt + 1)];
      objs := objs[e.obj := objs[e.obj] + 1];
    }

    /** `carve_entry`: entry `k` cut down to pages [lo, hi), what is left on
        either side becoming entries of its own. */
    method Carve(k: Loc, lo: nat, hi: nat)
      requires k in entries && entries[k].base <= lo < hi <= entries[k].end && k.vpn == entries[k].base
      requires Valid()
      modifies this`entries, this`amaps, this`objs
      ensures Loc(k.space, lo) in entries
      ensures entries[Loc(k.space, lo)] == Tail(old(entries)[k], lo).(end := hi)
      ensures forall j :: j in old(entries) && j != k ==> j in entries && entries[j] == old(entries)[j]
      ensures SameTranslation(old(Now()), Now())
      ensures Valid()
    {
      hide IndexOf, EntriesOk, AmapsPrivate, AmapRefsOk, ObjRefsOk, AnonRefsOk, PagesOk, NoLeak, IdsOk, PtesOk, Refines;
      hide SameTranslation;
      var origBase, origEnd := entries[k].base, entries[k].end;
      var middle := k;
      SameTranslationRefl(Now(), Now());
      if origBase < lo {
        Cut(k, lo);
        middle := Loc(k.space, lo);
      }
      ghost var s1 := Now();
      if hi < origEnd {
        Cut(middle, hi);
        SameTranslationTrans(old(Now()), s1, Now());
      }
    }

    // Unmapping and protecting ranges --------------------------------------

    /** Drop entry `k` whole: PTEs, references, entry. (The entry leaves the
        tree before its references are dropped; nothing looks in between.) */
    method Drop(k: Loc)
      requires k in entries
      requires Valid()
      modifies this
      ensures entries == old(entries) - {k}
      ensures mem == EagerMemory.Unmap(old(mem), k.space, old(entries)[k].base, old(entries)[k].end)
      ensures Valid()
    {
      hide IndexOf, EntriesOk, AmapsPrivate, AmapRefsOk, ObjRefsOk, AnonRefsOk, PagesOk, NoLeak, IdsOk, PtesOk, Refines;
      var e := entries[k];
      EntryLive(Now(), k);
      ObjLive(Now(), k, multiset{});
      DropPtesStep(Now(), mem, k);
      PmapUnmapRange(k.space, e.base, e.end);
      RemoveEntryStep(Now(), mem, k, {}, multiset{}, {});
      mem := EagerMemory.Unmap(mem, k.space, e.base, e.end);
      entries := entries - {k};
      assert {} + {e.amap} == {e.amap} && multiset{} + multiset{e.obj} == multiset{e.obj};
      AmapDeref(e.amap, multiset{e.obj}, {});
      HeldObjLive(Now(), e.obj, multiset{e.obj});
      ObjDeref(e.obj, {}, multiset{e.obj}, {});
      assert multiset{e.obj} - multiset{e.obj} == multiset{};
    }

    /** `vm_unmap` of a non-empty range. */
    method Unmap(space: nat, lo: nat, hi: nat)
      requires lo < hi
      requires Valid()
      modifies this
      ensures mem == EagerMemory.Unmap(old(mem), space, lo, hi)
      ensures Valid()
    {
      hide IndexOf, EntriesOk, AmapsPrivate, AmapRefsOk, ObjRefsOk, AnonRefsOk, PagesOk, NoLeak, IdsOk, PtesOk, Refines;
      var cur := FirstFrom(space, lo, hi);
      RangeNothing(mem, space, lo, Cursor(cur, lo, hi));
      while cur.Some? && cur.value.vpn < hi
        invariant cur.Some? ==> cur.value in entries && cur.value.space == space
        invariant mem == EagerMemory.Unmap(old(mem), space, lo, Cursor(cur, lo, hi))
        invariant Valid()
        decreases if cur.Some? then hi - cur.value.vpn else 0
      {
        var k := cur.value;
        var next := LowerBound(space, k.vpn + 1);
        NothingBetween(Now(), mem, k, next, hi);
        var e := entries[k];
        ghost var m := mem;
        if e.end <= lo {
          UnmapSkip(old(mem), space, lo, hi, k, e.end, next);
        } else {
          var splitBase := if e.base < lo then lo else e.base;
          var splitEnd := if hi < e.end then hi else e.end;
          if e.base != splitBase || e.end != splitEnd {
            Carve(k, splitBase, splitEnd);
          }
          Drop(Loc(space, splitBase));
          UnmapAdvance(old(mem), m, space, lo, hi, k, e.end, next);
        }
        cur := next;
      }
    }

    /** `vm_unmap` of an empty range. If `lo` lies strictly inside an entry,
        `carve_entry` inserts the pieces on both sides of `lo`, fails to insert
        the empty middle (its base is taken), and the piece from `lo` to the end
        of the entry is unmapped instead. The middle keeps its references. */
    method UnmapEmpty(space: nat, lo: nat)
      requires Valid()
      modifies this
      ensures (forall k :: k in old(entries) && k.space == space ==> lo <= k.vpn || old(entries)[k].end <= lo) ==>
                Valid() && mem == old(mem) && entries == old(entries)
      ensures forall k :: k in old(entries) && k.space == space && k.vpn < lo < old(entries)[k].end ==>
                && mem == EagerMemory.Unmap(old(mem), space, lo, old(entries)[k].end)
                && entries == old(entries)[k := old(entries)[k].(end := lo)]
                && ValidWith({old(entries)[k].amap}, multiset{old(entries)[k].obj}, {}) && !Valid()
    {
      hide IndexOf, EntriesOk, AmapsPrivate, AmapRefsOk, ObjRefsOk, AnonRefsOk, PagesOk, NoLeak, IdsOk, PtesOk, Refines;
      var cur := FirstFrom(space, lo, lo);
      if cur.Some? && cur.value.vpn < lo && lo < entries[cur.value].end {
        var k := cur.value;
        EntryLive(Now(), k);
        Cut(k, lo);
        Drop(Loc(space, lo));
        KeepRefs(k);
      }
    }

    /** What is left of the piece that did not go into the tree: its references
        to the amap and the object of entry `k`. */
    method KeepRefs(k: Loc)
      requires k in entries && Valid()
      modifies this`amaps, this`objs
      ensures ValidWith({entries[k].amap}, multiset{entries[k].obj}, {}) && !Valid()
    {
      hide IndexOf, EntriesOk, AmapsPrivate, AmapRefsOk, ObjRefsOk, AnonRefsOk, PagesOk, NoLeak, IdsOk, PtesOk, Refines;
      var e := entries[k];
      EntryLive(Now(), k);
      ObjLive(Now(), k, multiset{});
      assert {} + {e.amap} == {e.amap} && multiset{} + multiset{e.obj} == multiset{e.obj};
      RefAmapStep(Now(), mem, e.amap, {}, multiset{}, {});
      amaps := amaps[e.amap := amaps[e.amap].(refcnt := amaps[e.amap].refcnt + 1)];
      RefObjStep(Now(), mem, e.obj, {e.amap}, multiset{}, {});
      objs := objs[e.obj := objs[e.obj] + 1];
      EntryLive(Now(), k);
      HeldShows(Now(), e.amap, multiset{e.obj}, {});
    }

    /** One turn of the loop of `vm_protect`: entry `k` is cut down to the range
        and, if its maximum allows, protected. */
    method ProtectPiece(k: Loc, lo: nat, hi: nat, prot: Prot, setMax: bool) returns (ok: bool)
      requires k in entries && lo < hi && k.vpn < hi && lo < entries[k].end && k.vpn == entries[k].base < entries[k].end
      requires prot.write ==> Unshared(Now(), k.space, lo, hi)
      requires Valid()
      modifies this
      ensures forall j :: j in old(entries) && j != k ==> j in entries
      ensures ok <==> setMax || AllowedBy(old(entries)[k].maxProt, prot)
      ensures forall v :: PieceLo(k, lo) <= v < PieceHi(old(entries)[k], hi) ==>
                Loc(k.space, v) in old(mem) && old(mem)[Loc(k.space, v)].maxProt == old(entries)[k].maxProt
      ensures mem == if ok then Reprotected(old(mem), k.space, PieceLo(k, lo), PieceHi(old(entries)[k], hi), prot, setMax) else old(mem)
      ensures prot.write ==> Unshared(Now(), k.space, lo, hi)
      ensures Valid()
    {
      hide IndexOf, EntriesOk, AmapsPrivate, AmapRefsOk, ObjRefsOk, AnonRefsOk, PagesOk, NoLeak, IdsOk, PtesOk, Refines,
           WriteGrantSafe, SameTranslation, Unshared, CellAt;
      var e := entries[k];
      var splitBase := if e.base < lo then lo else e.base;
      var splitEnd := if hi < e.end then hi else e.end;
      EntryCells(Now(), mem, k);
      if e.base != splitBase || e.end != splitEnd {
        Carve(k, splitBase, splitEnd);
        if prot.write { UnsharedCarved(old(Now()), Now(), k.space, lo, hi); }
      }
      var k' := Loc(k.space, splitBase);
      if !setMax && !AllowedBy(entries[k'].maxProt, prot) {
        return false;
      }
      ProtectWhole(k', lo, hi, prot, setMax);
      return true;
    }

    /** Entry `k`, which lies within the range, is protected. */
    method ProtectWhole(k: Loc, ghost lo: nat, ghost hi: nat, prot: Prot, setMax: bool)
      requires k in entries && lo <= k.vpn == entries[k].base < entries[k].end <= hi
      requires prot.write ==> Unshared(Now(), k.space, lo, hi)
      requires Valid()
      modifies this
      ensures entries.Keys == old(entries).Keys
      ensures mem == Reprotected(old(mem), k.space, old(entries)[k].base, old(entries)[k].end, prot, setMax)
      ensures prot.write ==> Unshared(Now(), k.space, lo, hi)
      ensures Valid()
    {
      hide IndexOf, EntriesOk, AmapsPrivate, AmapRefsOk, ObjRefsOk, AnonRefsOk, PagesOk, NoLeak, IdsOk, PtesOk, Refines,
           WriteGrantSafe, Unshared, CellAt, Reprotected;
      var e := entries[k];
      if prot.write { UnsharedSafe(Now(), k, lo, hi); }
      ProtectEntryStep(Now(), mem, k, prot, setMax, {}, multiset{}, {});
      if prot.write { UnsharedProtected(Now(), k, prot, setMax, lo, hi); }
      mem := Reprotected(mem, k.space, e.base, e.end, prot, setMax);
      PmapProtectRange(k.space, e.base, e.end, prot);
      entries := entries[k := e.(prot := prot, maxProt := if setMax then prot else e.maxProt)];
    }

    /** `vm_protect` of a non-empty range. Granting write access is allowed
        here on ranges whose PTEs no one else shares (see WriteGrant.GrantExact). */
    method Protect(space: nat, lo: nat, hi: nat, prot: Prot, setMax: bool) returns (status: Status)
      requires lo < hi
      requires prot.write ==> Unshared(Now(), space, lo, hi)
      requires Valid()
      modifies this
      ensures mem == EagerMemory.Protect(old(mem), space, lo, hi, prot, setMax)
      ensures status == PermDenied <==> !setMax && FirstDenied(old(mem), space, lo, hi, prot) < hi
      ensures status == PermDenied || status == Success
      ensures Valid()
    {
      hide IndexOf, EntriesOk, AmapsPrivate, AmapRefsOk, ObjRefsOk, AnonRefsOk, PagesOk, NoLeak, IdsOk, PtesOk, Refines, WriteGrantSafe;
      var cur := FirstFrom(space, lo, hi);
      RangeNothing(mem, space, lo, Cursor(cur, lo, hi));
      ReprotectNothing(mem, space, lo, Cursor(cur, lo, hi), prot, setMax);
      while cur.Some? && cur.value.vpn < hi
        invariant cur.Some? ==> cur.value in entries && cur.value.space == space
        invariant mem == Reprotected(old(mem), space, lo, Cursor(cur, lo, hi), prot, setMax)
        invariant setMax || AllAllow(old(mem), space, lo, Cursor(cur, lo, hi), prot)
        invariant prot.write ==> Unshared(Now(), space, lo, hi)
        invariant Valid()
        decreases if cur.Some? then hi - cur.value.vpn else 0
      {
        var k := cur.value;
        var next := LowerBound(space, k.vpn + 1);
        NothingBetween(Now(), mem, k, next, hi);
        var end := entries[k].end;
        ghost var m, maxProt := mem, entries[k].maxProt;
        if end <= lo {
          ProtectSkip(old(mem), mem, space, lo, hi, k, end, next, prot, setMax);
        } else {
          var ok := ProtectPiece(k, lo, hi, prot, setMax);
          if !ok {
            ProtectDenied(old(mem), mem, space, lo, hi, Cursor(cur, lo, hi), prot);
            return PermDenied;
          }
          ProtectAdvance(old(mem), m, mem, maxProt, space, lo, hi, k, end, next, prot, setMax);
        }
        cur := next;
      }
      if !setMax { ProtectAllowed(old(mem), space, lo, hi, prot); }
      return Success;
    }

    // Mapping and whole runs -----------------------------------------------

    /** A reference to the given object, or to a new one. */
    method TakeObject(obj: Option<nat>) returns (o: nat)
      requires obj.Some? ==> obj.value in objs
      requires Valid()
      modifies this`objs, this`nextId
      ensures (if obj.Some? then o == obj.value else o !in old(objs)) && o in objs
      ensures ValidWith({}, multiset{o}, {})
    {
      hide IndexOf, EntriesOk, AmapsPrivate, AmapRefsOk, ObjRefsOk, AnonRefsOk, PagesOk, NoLeak, PtesOk, Refines;
      if obj.None? {
        NewObjStep(Now(), mem, {}, multiset{}, {});
        o := nextId;
        objs := objs[o := 1];
        nextId := o + 1;
      } else {
        o := obj.value;
        RefObjStep(Now(), mem, o, {}, multiset{}, {});
        objs := objs[o := objs[o] + 1];
      }
      assert multiset{} + multiset{o} == multiset{o};
    }

    /** `vm_map` of `VM_INHERIT_COPY` at a free range, of an existing object or
        of a new one (`obj` being None). */
    method Map(space: nat, base: nat, len: nat, offset: nat, prot: Prot, obj: Option<nat>) returns (o: nat)
      requires 0 < len && Free(entries, space, base, base + len) && (obj.Some? ==> obj.value in objs)
      requires Valid()
      modifies this
      ensures if obj.Some? then o == obj.value else o !in old(objs)
      ensures mem == EagerMemory.Map(old(mem), space, base, len, ObjPage(o, offset), prot, pager) && Refines(Now(), mem)
      ensures Loc(space, base) in entries && entries == old(entries)[Loc(space, base) := entries[Loc(space, base)]]
      ensures entries[Loc(space, base)].base == base && entries[Loc(space, base)].end == base + len
      ensures Valid() <==> len <= REACH
    {
      hide IndexOf, EntriesOk, AmapsPrivate, AmapRefsOk, ObjRefsOk, AnonRefsOk, PagesOk, NoLeak, PtesOk, Refines, Free, WithEntry, AmapHolders;
      hide EagerMemory.Map, IdsOk;
      o := TakeObject(obj);
      var a := AmapCreate(o, multiset{o}, {});
      var e := Entry(base, base + len, offset, o, a, prot, prot);
      AddEntryStep(Now(), mem, Loc(space, base), e, {a}, multiset{o}, {});
      NewMem(Now(), mem, space, e);
      mem := WithEntry(Now(), mem, space, e);
      entries := entries[Loc(space, base) := e];
      assert {a} - {a} == {} && multiset{o} - multiset{o} == multiset{};
    }

    /** `vm_map` with `VM_MAP_FIXED`, and `VM_MAP_OVERWRITE` if `overwrite`: the
        neighbours of the address decide whether the range is occupied, and then
        it is refused or unmapped first. `obj` is None for a new object. */
    method MapFixed(space: nat, base: nat, len: nat, offset: nat, prot: Prot, obj: Option<nat>, overwrite: bool)
      returns (status: Status, o: nat)
      requires 0 < len && Valid() && (obj.Some? ==> obj.value in objs && !overwrite)
      modifies this
      ensures status == Exists <==> Busy(old(mem), space, base, base + len) && !overwrite
      ensures status == Exists || status == Success
      ensures status == Exists ==> mem == old(mem) && o == 0
      ensures status == Success ==>
        mem == EagerMemory.Map(EagerMemory.Unmap(old(mem), space, base, base + len), space, base, len, ObjPage(o, offset), prot, pager)
      ensures status == Success ==>
        if obj.Some? then o == obj.value else NewObject(EagerMemory.Unmap(old(mem), space, base, base + len), o)
      ensures Refines(Now(), mem) && (Valid() <==> status == Exists || len <= REACH)
    {
      hide IndexOf, EntriesOk, AmapsPrivate, AmapRefsOk, ObjRefsOk, AnonRefsOk, PagesOk, NoLeak, IdsOk, PtesOk, Refines, Free;
      hide EagerMemory.Map, EagerMemory.Unmap;
      o := 0;
      var next := LowerBound(space, base);
      var prev := Below(space, if next.Some? then next.value.vpn else base);
      NeighboursFree(Now(), mem, space, base, base + len, prev, next);
      if (prev.Some? && entries[prev.value].end > base) || (next.Some? && next.value.vpn < base + len) {
        if !overwrite {
          return Exists, o;
        }
        Unmap(space, base, base + len);
        UnmappedFree(Now(), old(mem), mem, space, base, base + len);
      } else {
        RangeNothing(mem, space, base, base + len);
      }
      BacksLive(Now(), mem);
      o := Map(space, base, len, offset, prot, obj);
      status := Success;
    }

    /** Run one operation if it is admissible. */
    method Perform(op: Op) returns (out: Outcome)
      requires Valid()
      modifies this
      ensures Step(old(mem), op, out, mem, pager)
      ensures Valid()
    {
      hide IndexOf, EntriesOk, AmapsPrivate, AmapRefsOk, ObjRefsOk, AnonRefsOk, PagesOk, NoLeak, IdsOk, PtesOk, Refines,
           ReadReports, WriteReports, Busy, EagerMemory.Map, EagerMemory.Unmap, EagerMemory.Fork, EagerMemory.Protect;
      out := Skipped;
      match op
      case OpMap(space, base, len, offset, prot, overwrite) =>
        if 0 < len <= REACH {
          var status, o := MapFixed(space, base, len, offset, prot, None, overwrite);
          out := Done(status, o);
        }
      case OpMapSame(space, base, len, offset, prot, like) =>
        var found, k := LookupEntry(like);
        if found && 0 < len <= REACH {
          UnmapNothing(mem, space, base, base + len);
          var status, o := MapFixed(space, base, len, offset, prot, Some(entries[k].obj), false);
          out := Done(status, o);
        }
      case OpUnmap(space, lo, hi) =>
        if lo < hi {
          Unmap(space, lo, hi);
          out := Done(Success, 0);
        }
      case OpProtect(space, lo, hi, prot, setMax) =>
        if lo < hi && !prot.write {
          var status := Protect(space, lo, hi, prot, setMax);
          out := Done(status, 0);
        }
      case OpFork(from, to) =>
        var empty := forall k | k in entries :: k.space != to;
        EmptyExact(Now(), mem, to);
        if from != to && empty {
          Fork(from, to);
          out := Done(Success, 0);
        }
      case OpRead(l, word) =>
        if word < PAGE_WORDS {
          var status, value := ReadWord(l, word);
          out := Done(status, value);
        }
      case OpWrite(l, word, value) =>
        if word < PAGE_WORDS {
          var status := WriteWord(l, word, value);
          out := Done(status, 0);
        }
    }

    /** Every run of map, unmap, protect, fork, load and store operations gives
        the results of a run of the eager model and ends in its memory. */
    method Run(ops: seq<Op>) returns (outs: seq<Outcome>, ghost trace: seq<Mem>)
      requires Valid()
      modifies this
      ensures IsRun(ops, outs, trace, pager) && trace[0] == old(mem) && trace[|ops|] == mem
      ensures Valid()
    {
      hide InvWith, Step;
      outs, trace := [], [mem];
      for i := 0 to |ops|
        invariant |outs| == i && |trace| == i + 1 && trace[0] == old(mem) && trace[i] == mem
        invariant forall j :: 0 <= j < i ==> Step(trace[j], ops[j], outs[j], trace[j + 1], pager)
        invariant Valid()
      {
        var out := Perform(ops[i]);
        outs, trace := outs + [out], trace + [mem];
      }
    }
  }

  /** Unmapping nothing in the middle of a mapping of two pages: the second page
      is gone, and references to its amap and object are never given back. */
  method UnmapEmptyExample(prot: Prot, pager: ObjPage -> Content) returns (vm: Vm)
    ensures Loc(0, 0) in vm.mem && Loc(0, 1) !in vm.mem && !vm.Valid()
  {
    vm := new Vm(pager);
    var o := vm.Map(0, 0, 2, 0, prot, None);
    assert Loc(0, 0) in vm.mem;
    vm.UnmapEmpty(0, 1);
  }
}
