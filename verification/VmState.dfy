/** The memory state shared by every address space: map entries, page table
    entries, amaps, anons, backing objects and physical pages, with the
    invariants that tie them together.

    Addresses, offsets and lengths are counted in pages. */
module VmState {
  import opened AmapIndex

  const PAGE_WORDS: nat := 512

  /** The contents of one physical page. */
  type Content = c: seq<int> | |c| == PAGE_WORDS witness seq(PAGE_WORDS, i => 0)

  /** A page of one address space; also the key (its base) of a map entry. */
  datatype Loc = Loc(space: nat, vpn: nat)

  /** One position of an amap, in its three levels of tables. */
  datatype Slot = Slot(amap: nat, at: Index)

  /** One page of a backing object. */
  datatype ObjPage = ObjPage(obj: nat, off: int)

  datatype Prot = Prot(read: bool, write: bool, exec: bool)

  /** A `VM_MAP_ENT_OBJ` entry with `VM_INHERIT_COPY`. */
  datatype Entry = Entry(base: nat, end: nat, offset: nat, obj: nat, amap: nat, prot: Prot, maxProt: Prot)
  {
    function SlotAt(vpn: nat): Slot {
      Slot(amap, IndexOf(offset + (vpn - base)))
    }

    function BackingAt(vpn: nat): ObjPage {
      ObjPage(obj, offset + (vpn - base))
    }
  }

  datatype Pte = Pte(page: nat, prot: Prot)

  datatype Amap = Amap(obj: nat, refcnt: nat)

  datatype Anon = Anon(page: nat, refcnt: nat)

  datatype State = State(
    entries: map<Loc, Entry>,
    ptes: map<Loc, Pte>,
    amaps: map<nat, Amap>,
    slots: map<Slot, nat>,
    anons: map<nat, Anon>,
    objs: map<nat, nat>,
    objPages: map<ObjPage, nat>,
    pages: map<nat, Content>,
    nextId: nat,
    pager: ObjPage -> Content)

  ghost predicate Covers(s: State, k: Loc, l: Loc) {
    k in s.entries && k.space == l.space && s.entries[k].base <= l.vpn < s.entries[k].end
  }

  // Reference holders ------------------------------------------------------

  ghost function AmapHolders(entries: map<Loc, Entry>, a: nat): set<Loc> {
    set k | k in entries && entries[k].amap == a
  }

  ghost function ObjEntries(entries: map<Loc, Entry>, o: nat): set<Loc> {
    set k | k in entries && entries[k].obj == o
  }

  ghost function ObjAmaps(amaps: map<nat, Amap>, o: nat): set<nat> {
    set a | a in amaps && amaps[a].obj == o
  }

  ghost function AnonHolders(slots: map<Slot, nat>, n: nat): set<Slot> {
    set t | t in slots && slots[t] == n
  }

  // Invariants -------------------------------------------------------------

  /** Entries are keyed by base, non-empty, disjoint within a space, and name a
      live amap over their own object. */
  ghost predicate EntriesOk(entries: map<Loc, Entry>, amaps: map<nat, Amap>) {
    && (forall k :: k in entries ==>
          && entries[k].base == k.vpn < entries[k].end
          && entries[k].amap in amaps
          && amaps[entries[k].amap].obj == entries[k].obj)
    && (forall j, k :: j in entries && k in entries && j.space == k.space && j.vpn < k.vpn ==>
          entries[j].end <= k.vpn)
  }

  /** Two entries over one amap are pieces of one mapping: same space, same
      distance between address and offset, and no further apart than the tables
      of the amap reach. So an amap slot is visible at no more than one page. */
  ghost predicate AmapsPrivate(entries: map<Loc, Entry>) {
    forall j, k :: j in entries && k in entries && entries[j].amap == entries[k].amap ==>
      && j.space == k.space
      && entries[j].offset + k.vpn == entries[k].offset + j.vpn
      && entries[k].end - j.vpn <= REACH
  }

  /** `amap->refcnt` is the number of entries holding the amap, plus one if the
      running operation itself holds a reference (`held`). */
  ghost predicate AmapRefsOk(amaps: map<nat, Amap>, entries: map<Loc, Entry>, held: set<nat>) {
    forall a :: a in amaps ==>
      amaps[a].refcnt == |AmapHolders(entries, a)| + (if a in held then 1 else 0) > 0
  }

  /** An object is referenced by the entries and the amaps over it. */
  ghost predicate ObjRefsOk(objs: map<nat, nat>, entries: map<Loc, Entry>, amaps: map<nat, Amap>, held: multiset<nat>) {
    && (forall o :: o in objs ==>
          objs[o] == |ObjEntries(entries, o)| + |ObjAmaps(amaps, o)| + held[o] > 0)
    && (forall a :: a in amaps ==> amaps[a].obj in objs)
    && (forall o :: o in held ==> o in objs)
  }

  /** `anon->refcnt` is the number of amap slots holding the anon. */
  ghost predicate AnonRefsOk(slots: map<Slot, nat>, amaps: map<nat, Amap>, anons: map<nat, Anon>) {
    && (forall t :: t in slots ==> t.amap in amaps && slots[t] in anons)
    && (forall n :: n in anons ==> anons[n].refcnt == |AnonHolders(slots, n)| > 0)
  }

  /** A page belongs to at most one anon or object page, and an object page
      still has the contents the pager gave it. */
  ghost predicate PagesOk(anons: map<nat, Anon>, objPages: map<ObjPage, nat>, objs: map<nat, nat>,
                          pages: map<nat, Content>, pager: ObjPage -> Content)
  {
    && (forall n :: n in anons ==> anons[n].page in pages)
    && (forall m, n :: m in anons && n in anons && anons[m].page == anons[n].page ==> m == n)
    && (forall b :: b in objPages ==> b.obj in objs && objPages[b] in pages && pages[objPages[b]] == pager(b))
    && (forall b, c :: b in objPages && c in objPages && objPages[b] == objPages[c] ==> b == c)
    && (forall b, n :: b in objPages && n in anons ==> objPages[b] != anons[n].page)
  }

  /** Every allocated page is in use: a page is freed with its last user. */
  ghost predicate NoLeak(anons: map<nat, Anon>, objPages: map<ObjPage, nat>, pages: map<nat, Content>) {
    forall p :: p in pages ==> HasAnon(anons, p) || HasObjPage(objPages, p)
  }

  ghost predicate HasAnon(anons: map<nat, Anon>, p: nat) {
    exists n :: n in anons && anons[n].page == p
  }

  ghost predicate HasObjPage(objPages: map<ObjPage, nat>, p: nat) {
    exists b :: b in objPages && objPages[b] == p
  }

  /** Identifiers are handed out in increasing order. */
  ghost predicate IdsOk(amaps: map<nat, Amap>, anons: map<nat, Anon>, objs: map<nat, nat>,
                        pages: map<nat, Content>, nextId: nat)
  {
    && (forall a :: a in amaps ==> a < nextId)
    && (forall n :: n in anons ==> n < nextId)
    && (forall o :: o in objs ==> o < nextId)
    && (forall p :: p in pages ==> p < nextId)
  }

  ghost predicate LeqProt(p: Prot, q: Prot) {
    (p.read ==> q.read) && (p.write ==> q.write) && (p.exec ==> q.exec)
  }

  /** What a PTE at page `v` of entry `e` may say: it points at the page the
      entry shows there, and grants no more than the entry. */
  ghost predicate PteShows(s: State, e: Entry, v: nat, pte: Pte) {
    && LeqProt(pte.prot, e.prot)
    && var t := e.SlotAt(v);
       if t in s.slots then
         s.slots[t] in s.anons && pte.page == s.anons[s.slots[t]].page
       else
         e.BackingAt(v) in s.objPages && pte.page == s.objPages[e.BackingAt(v)]
  }

  /** A writable PTE points at an anon that no one else holds. */
  ghost predicate PteUnshared(s: State, e: Entry, v: nat, pte: Pte) {
    pte.prot.write ==>
      var t := e.SlotAt(v);
      t in s.slots && s.slots[t] in s.anons && s.anons[s.slots[t]].refcnt == 1
  }

  /** The PTE at `l`, if any, is justified by entry `k` over it; pages in `open`
      may be writable although shared (inside fork, before they are
      write-protected). */
  ghost predicate PteOk(s: State, k: Loc, l: Loc, open: set<Loc>)
    requires Covers(s, k, l)
  {
    l in s.ptes ==>
      && PteShows(s, s.entries[k], l.vpn, s.ptes[l])
      && (l !in open ==> PteUnshared(s, s.entries[k], l.vpn, s.ptes[l]))
  }

  ghost predicate PtesOk(s: State, open: set<Loc>) {
    && (forall l :: l in s.ptes ==> exists k :: Covers(s, k, l))
    && (forall k, l :: Covers(s, k, l) ==> PteOk(s, k, l, open))
  }

  /** The invariant in the middle of an operation that holds a reference to
      each amap in `amaps` and one reference to an object for each element of
      `objs`. */
  ghost predicate InvWith(s: State, amaps: set<nat>, objs: multiset<nat>, open: set<Loc>) {
    && EntriesOk(s.entries, s.amaps)
    && AmapsPrivate(s.entries)
    && AmapRefsOk(s.amaps, s.entries, amaps)
    && ObjRefsOk(s.objs, s.entries, s.amaps, objs)
    && AnonRefsOk(s.slots, s.amaps, s.anons)
    && PagesOk(s.anons, s.objPages, s.objs, s.pages, s.pager)
    && NoLeak(s.anons, s.objPages, s.pages)
    && IdsOk(s.amaps, s.anons, s.objs, s.pages, s.nextId)
    && PtesOk(s, open)
  }

  ghost predicate Inv(s: State) {
    InvWith(s, {}, multiset{}, {})
  }
}
