/** The page tables of an address space against the page table entries that the
    copy-on-write model keeps as one flat map. A user space holds small pages only. */
module SpaceTables {
  import AmapIndex
  import opened EagerMemory
  import opened VmLoops
  import opened VmState
  import opened VmSteps
  import P = PageTables

  /** How the protection of a page is written in its entry. */
  function Bits(p: Prot): nat {
    (if p.read then 1 else 0) + (if p.write then 2 else 0) + if p.exec then 4 else 0
  }

  function AttrOf(p: Prot): P.Attr {
    P.Attr(Bits(p), 0)
  }

  lemma BitsBack(p: Prot, q: Prot)
    requires AttrOf(p) == AttrOf(q)
    ensures p == q
  {
  }

  function HitOf(ptes: map<Loc, Pte>, l: Loc): P.Hit {
    if l in ptes then P.Hit(ptes[l].page, AttrOf(ptes[l].prot)) else P.Miss
  }

  /** The tables translate exactly the pages of the space that have an entry. */
  ghost predicate Shows(p: P.Pmap, space: nat, ptes: map<Loc, Pte>)
    reads p
  {
    && p.Valid()
    && (forall l :: l in ptes && l.space == space ==> p.InRange(l.vpn))
    && (forall v: nat :: p.InRange(v) ==> p.Open(v, 0) && p.At(v) == HitOf(ptes, Loc(space, v)))
  }

  /** `pmap_init`: nothing is mapped. */
  method Fresh(last: nat, space: nat) returns (p: P.Pmap)
    ensures fresh(p) && p.last == last && Shows(p, space, map[])
  {
    p := new P.Pmap(last);
  }

  /** `pmap_map`, as the fault calls it, sets the one entry. */
  method MapPage(p: P.Pmap, ghost space: nat, v: nat, page: nat, prot: Prot, ghost ptes: map<Loc, Pte>)
    requires Shows(p, space, ptes) && p.InRange(v)
    modifies p
    ensures Shows(p, space, ptes[Loc(space, v) := Pte(page, prot)])
  {
    hide P.Translate, P.NoLarge, P.Up, P.Offset, P.Size;
    P.Bottom();
    P.NoOffset();
    p.Map(v, page, 0, AttrOf(prot));
    forall w: nat | p.InRange(w) ensures p.Open(w, 0) && p.At(w) == HitOf(ptes[Loc(space, v) := Pte(page, prot)], Loc(space, w)) {
    }
  }

  /** `pmap_protect_range` changes the protection of the entries in the range. */
  method ProtectPages(p: P.Pmap, ghost space: nat, lo: nat, hi: nat, prot: Prot, ghost ptes: map<Loc, Pte>)
    requires Shows(p, space, ptes) && lo <= hi && hi <= P.Size(p.last + 1)
    modifies p
    ensures Shows(p, space, ProtectPtes(ptes, space, lo, hi, prot))
  {
    hide P.Translate, P.NoLarge, P.Size;
    P.SmallestSize();
    p.ProtectRange(lo, hi - lo, 0, AttrOf(prot));
  }

  ghost function UnmapPtes(ptes: map<Loc, Pte>, space: nat, lo: nat, hi: nat): map<Loc, Pte> {
    map l | l in ptes && !(l.space == space && lo <= l.vpn < hi) :: ptes[l]
  }

  /** `pmap_unmap_range` removes the entries in the range. */
  method UnmapPages(p: P.Pmap, ghost space: nat, lo: nat, hi: nat, ghost ptes: map<Loc, Pte>)
    requires Shows(p, space, ptes) && lo <= hi && hi <= P.Size(p.last + 1)
    modifies p
    ensures Shows(p, space, UnmapPtes(ptes, space, lo, hi))
  {
    hide P.Translate, P.NoLarge;
    assert P.Size(0) == 1;
    p.UnmapRange(lo, hi - lo, 0);
  }

  /** What the hardware reads through the tables of a space is what the eager
      memory holds there, and it may write only where that memory says so. */
  lemma HardwareSees(s: State, m: Mem, p: P.Pmap, space: nat, v: nat)
    requires Inv(s) && Refines(s, m) && Shows(p, space, s.ptes) && p.InRange(v) && p.At(v).Hit?
    ensures var l, f := Loc(space, v), p.At(v).frame;
      && l in m && f in s.pages && s.pages[f] == m[l].content
      && exists prot :: p.At(v).attr == AttrOf(prot) && LeqProt(prot, m[l].prot)
  {
    hide Inv, Refines, AttrOf, LeqProt;
    var l := Loc(space, v);
    assert p.At(v) == HitOf(s.ptes, l);
    PteSeen(s, m, l);
  }

  /** A store that the tables of one space permit is seen at no page of another. */
  lemma WritableAlone(s: State, m: Mem, p: P.Pmap, p': P.Pmap, space: nat, v: nat, space': nat, v': nat, prot: Prot)
    requires Inv(s) && Refines(s, m) && Shows(p, space, s.ptes) && Shows(p', space', s.ptes) && Loc(space, v) != Loc(space', v')
    requires p.InRange(v) && p.At(v).Hit? && p.At(v).attr == AttrOf(prot) && prot.write
    requires p'.InRange(v') && p'.At(v').Hit?
    ensures p.At(v).frame != p'.At(v').frame
  {
    hide Refines;
    var l, l' := Loc(space, v), Loc(space', v');
    BitsBack(prot, s.ptes[l].prot);
    WritableOnce(s, l, l');
  }

  /** A page that an entry makes writable is at no other page. */
  lemma WritableOnce(s: State, l: Loc, l': Loc)
    requires Inv(s) && l in s.ptes && l' in s.ptes && l != l' && s.ptes[l].prot.write
    ensures s.ptes[l].page != s.ptes[l'].page
  {
    hide AmapIndex.IndexOf, EntriesOk, AmapsPrivate, AmapRefsOk, ObjRefsOk, AnonRefsOk, NoLeak, IdsOk;
    var k :| Covers(s, k, l);
    var k' :| Covers(s, k', l');
    assert PteOk(s, k, l, {}) && PteOk(s, k', l', {});
    var t, t' := s.entries[k].SlotAt(l.vpn), s.entries[k'].SlotAt(l'.vpn);
    if s.ptes[l].page == s.ptes[l'].page {
      assert t' in s.slots && s.slots[t'] == s.slots[t];
      SoleHolder(s, t, t');
      SlotSeenOnce(s, k, l, k', l');
    }
  }
}
