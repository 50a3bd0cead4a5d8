/** What happens to mappings that are longer than an amap reaches. */
module LongMappings {
  import opened AmapIndex
  import opened VmState
  import opened EagerMemory
  import opened VmSteps
  import opened VmLoops

  /** The state after `vm_map` of `len` pages in an otherwise empty system. */
  ghost function Mapped(space: nat, base: nat, len: nat, offset: nat, prot: Prot, pager: ObjPage -> Content): State {
    State(map[Loc(space, base) := Entry(base, base + len, offset, 0, 1, prot, prot)], map[],
          map[1 := Amap(0, 1)], map[], map[], map[0 := 2], map[], map[], 2, pager)
  }

  /** The state after a store to page `v` of that mapping: a write fault fills
      the slot of the page, and the word is written. */
  ghost function StoredAt(s: State, k: Loc, v: nat, word: nat, value: int): State
    requires k in s.entries && word < PAGE_WORDS
  {
    var e := s.entries[k];
    var s' := Filled(s, e, Loc(k.space, v), Pte(s.nextId, e.prot));
    s'.(pages := Written(s', s.nextId, word, value))
  }

  /** The eager model agrees with a fresh mapping of any length. */
  lemma MappedRefines(space: nat, base: nat, len: nat, offset: nat, prot: Prot, pager: ObjPage -> Content)
    requires len > 0
    ensures Refines(Mapped(space, base, len, offset, prot, pager),
                    EagerMemory.Map(map[], space, base, len, ObjPage(0, offset), prot, pager))
  {
    hide IndexOf, Mapped, CellAt, EagerMemory.Map;
    var s := Mapped(space, base, len, offset, prot, pager);
    forall l: Loc { MappedAt(space, base, len, offset, prot, pager, l); }
    assert forall l: Loc :: Covers(s, Loc(space, base), l) ==> exists k :: Covers(s, k, l);
  }

  lemma MappedAt(space: nat, base: nat, len: nat, offset: nat, prot: Prot, pager: ObjPage -> Content, l: Loc)
    requires len > 0
    ensures var s, k := Mapped(space, base, len, offset, prot, pager), Loc(space, base);
      var m := EagerMemory.Map(map[], space, base, len, ObjPage(0, offset), prot, pager);
      && (l in m <==> Covers(s, k, l))
      && (forall j :: Covers(s, j, l) ==> j == k && m[l] == CellAt(s, s.entries[j], l.vpn))
  {
    hide IndexOf;
    assert l == Loc(l.space, l.vpn);
  }

  /** A store in a mapping longer than 2^27 pages is also seen 2^27 pages further
      on: the slots of the two pages are one. */
  lemma StoreSeenAgain(space: nat, base: nat, len: nat, offset: nat, prot: Prot, pager: ObjPage -> Content, word: nat, value: int)
    requires word < PAGE_WORDS && len > REACH
    ensures
      var s := StoredAt(Mapped(space, base, len, offset, prot, pager), Loc(space, base), base, word, value);
      ContentAt(s, s.entries[Loc(space, base)], base + REACH) == pager(ObjPage(0, offset))[word := value]
  {
    hide IndexOf;
    Aliases(offset, offset + REACH);
  }

  /** Copying lazily is copying eagerly exactly for mappings that an amap
      reaches: any longer one shows a store at a page it was not made to. */
  lemma LongMappingBreaks(space: nat, base: nat, len: nat, offset: nat, prot: Prot, pager: ObjPage -> Content, word: nat, value: int)
    requires word < PAGE_WORDS && len > REACH && value != pager(ObjPage(0, offset + REACH))[word]
    ensures
      var s := Mapped(space, base, len, offset, prot, pager);
      var m := EagerMemory.Map(map[], space, base, len, ObjPage(0, offset), prot, pager);
      && Refines(s, m)
      && !Refines(StoredAt(s, Loc(space, base), base, word, value), Store(m, Loc(space, base), word, value))
  {
    hide IndexOf, Mapped, StoredAt, ContentAt, Refines, EagerMemory.Map, Store;
    MappedRefines(space, base, len, offset, prot, pager);
    StoreSeenAgain(space, base, len, offset, prot, pager, word, value);
    var s, k, l := Mapped(space, base, len, offset, prot, pager), Loc(space, base), Loc(space, base + REACH);
    var m := EagerMemory.Map(map[], space, base, len, ObjPage(0, offset), prot, pager);
    MappedAt(space, base, len, offset, prot, pager, k);
    MappedAt(space, base, len, offset, prot, pager, l);
    EagerElsewhere(space, base, len, offset, prot, pager, word, value);
    FilledEntries(s, k, base, word, value);
    Disagrees(StoredAt(s, k, base, word, value), Store(m, k, word, value), k, l);
  }

  /** The eager store leaves the page further on as the pager gave it. */
  lemma EagerElsewhere(space: nat, base: nat, len: nat, offset: nat, prot: Prot, pager: ObjPage -> Content, word: nat, value: int)
    requires word < PAGE_WORDS && len > REACH
    ensures var m := EagerMemory.Map(map[], space, base, len, ObjPage(0, offset), prot, pager);
      var l := Loc(space, base + REACH);
      Loc(space, base) in m && l in m && l in Store(m, Loc(space, base), word, value)
      && Store(m, Loc(space, base), word, value)[l].content == pager(ObjPage(0, offset + REACH))
  {
    hide IndexOf;
  }

  lemma Disagrees(s: State, m: Mem, k: Loc, l: Loc)
    requires Covers(s, k, l) && l in m && m[l].content != ContentAt(s, s.entries[k], l.vpn)
    ensures !Refines(s, m)
  {
    hide ContentAt;
  }

  lemma FilledEntries(s: State, k: Loc, v: nat, word: nat, value: int)
    requires k in s.entries && word < PAGE_WORDS
    ensures StoredAt(s, k, v, word, value).entries == s.entries
  {
  }
}
