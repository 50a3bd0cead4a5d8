/** Multi-level page tables against a flat translation, in page numbers. */
module PageTables {
  import opened Arithmetic

  const ENTRIES: nat := 512
  const FREE_BATCH := 32

  datatype Attr = Attr(prot: nat, cache: nat)

  /** Above level 0 a leaf is a large page. */
  datatype Pte = Zero | Dir(table: nat) | Leaf(frame: nat, attr: Attr)

  datatype Hit = Miss | Hit(frame: nat, attr: Attr)

  /** Which part of the address space a table serves: at its level, the pages
      whose numbers start with `prefix`. */
  datatype Place = Place(level: nat, prefix: nat)

  type Tables = map<nat, seq<Pte>>

  // Page numbers ---------------------------------------------------------------------

  /** A page number without its last `l` digits. */
  function Up(l: nat, v: nat): nat {
    if l == 0 then v else Up(l - 1, v) / ENTRIES
  }

  function Index(l: nat, v: nat): (i: nat)
    ensures i < ENTRIES
  {
    Up(l, v) % ENTRIES
  }

  /** The pages below one entry of level `l`. */
  function Size(l: nat): (n: nat)
    ensures n > 0
  {
    if l == 0 then 1 else ENTRIES * Size(l - 1)
  }

  lemma UpSplit(l: nat, v: nat)
    ensures Up(l, v) == Up(l + 1, v) * ENTRIES + Index(l, v)
  {
  }

  /** Where a page is within its block of level `l`. */
  function Offset(l: nat, v: nat): nat {
    if l == 0 then 0 else Offset(l - 1, v) + Index(l - 1, v) * Size(l - 1)
  }

  lemma Regroup(q: nat, i: nat, s: nat, r: nat)
    requires i < ENTRIES && r < s
    ensures (q * ENTRIES + i) * s + r == q * (ENTRIES * s) + (r + i * s) && r + i * s < ENTRIES * s
  {
    assert (q * ENTRIES + i) * s == q * ENTRIES * s + i * s;
    assert q * (ENTRIES * s) == q * ENTRIES * s;
    AtLeast(ENTRIES - i, s);
    assert (ENTRIES - i) * s == ENTRIES * s - i * s;
  }

  lemma {:induction false} OffsetIs(l: nat, v: nat)
    ensures v == Up(l, v) * Size(l) + Offset(l, v) && Offset(l, v) < Size(l)
  {
    if l > 0 {
      OffsetIs(l - 1, v);
      UpSplit(l - 1, v);
      hide Up, Size;
      Regroup(Up(l, v), Index(l - 1, v), Size(l - 1), Offset(l - 1, v));
      assert Size(l) == ENTRIES * Size(l - 1) by { SizeStep(l); }
    }
  }

  lemma SizeStep(l: nat)
    requires l > 0
    ensures Size(l) == ENTRIES * Size(l - 1)
  {
  }

  /** The pages of one block are a range that starts aligned. */
  lemma BlockRange(l: nat, va: nat, v: nat)
    requires va % Size(l) == 0
    ensures Up(l, v) == Up(l, va) <==> va <= v < va + Size(l)
    ensures Up(l, v) == Up(l, va) ==> Offset(l, v) == v - va
  {
    OffsetIs(l, va);
    OffsetIs(l, v);
    hide Up, Offset, Size;
    var s, p: int, q: int := Size(l), Up(l, v), Up(l, va);
    Multiple(va, q, Offset(l, va), s);
    Sub(p, q, s);
    Sub(q, p, s);
    if p > q { AtLeast(p - q, s); }
    if p < q { AtLeast(q - p, s); }
  }

  /** `pte_paddr` */
  function Target(e: Pte): nat {
    match e
    case Zero => 0
    case Dir(c) => c
    case Leaf(f, _) => f
  }

  // Walking --------------------------------------------------------------------------

  function EntryOf(ts: Tables, t: nat, i: nat): Pte {
    if t in ts && i < |ts[t]| then ts[t][i] else Zero
  }

  /** What the hardware finds for a page, from a table of level `l`. */
  function Translate(ts: Tables, t: nat, l: nat, v: nat): Hit
    decreases l
  {
    match EntryOf(ts, t, Index(l, v))
    case Zero => Miss
    case Leaf(f, attr) => Hit(f + Offset(l, v), attr)
    case Dir(c) => if l == 0 then Miss else Translate(ts, c, l - 1, v)
  }

  /** The table at level `at` on the way to a page, if the way gets there. */
  function Walk(ts: Tables, t: nat, l: nat, v: nat, at: nat): (r: int)
    requires at <= l
    ensures r >= -1
    decreases l
  {
    if l == at then t
    else match EntryOf(ts, t, Index(l, v))
      case Dir(c) => Walk(ts, c, l - 1, v, at)
      case _ => -1
  }

  /** No large page above level `at` on the way to a page. */
  predicate NoLarge(ts: Tables, t: nat, l: nat, v: nat, at: nat)
    requires at <= l
    decreases l
  {
    l == at || (match EntryOf(ts, t, Index(l, v))
      case Zero => true
      case Leaf(_, _) => false
      case Dir(c) => NoLarge(ts, c, l - 1, v, at))
  }

  /** Each table has its place, and directories lead to the next place. */
  ghost predicate Shaped(ts: Tables, places: map<nat, Place>) {
    && ts.Keys == places.Keys
    && (forall t :: t in ts ==> |ts[t]| == ENTRIES)
    && (forall t, i :: t in ts && 0 <= i < ENTRIES && ts[t][i].Dir? ==> LeadsOn(places, t, i, ts[t][i].table))
  }

  predicate LeadsOn(places: map<nat, Place>, t: nat, i: nat, c: nat)
    requires t in places
  {
    places[t].level > 0 && c in places && places[c] == Place(places[t].level - 1, places[t].prefix * ENTRIES + i)
  }

  /** A table serves the pages that reach it. */
  predicate Serves(places: map<nat, Place>, t: nat, l: nat, v: nat) {
    t in places && places[t] == Place(l, Up(l + 1, v))
  }

  lemma ServesOn(ts: Tables, places: map<nat, Place>, t: nat, l: nat, v: nat)
    requires Shaped(ts, places) && Serves(places, t, l, v) && EntryOf(ts, t, Index(l, v)).Dir?
    ensures l > 0 && Serves(places, EntryOf(ts, t, Index(l, v)).table, l - 1, v)
  {
    assert LeadsOn(places, t, Index(l, v), ts[t][Index(l, v)].table);
  }

  function Stored(ts: Tables, t: nat, i: nat, e: Pte): Tables
    requires t in ts && i < |ts[t]|
  {
    ts[t := ts[t][i := e]]
  }

  /** A store in one entry does not show on pages outside its block. */
  lemma {:induction false} StoreElsewhere(ts: Tables, places: map<nat, Place>, t: nat, l: nat, v: nat, x: nat, w: nat, a: nat, e: Pte)
    requires Shaped(ts, places) && Serves(places, t, l, v) && Serves(places, x, a, w) && Up(a, v) != Up(a, w)
    ensures Translate(Stored(ts, x, Index(a, w), e), t, l, v) == Translate(ts, t, l, v)
    ensures forall at: nat :: at <= l ==> NoLarge(Stored(ts, x, Index(a, w), e), t, l, v, at) == NoLarge(ts, t, l, v, at)
    decreases l
  {
    UpSplit(a, v);
    UpSplit(a, w);
    var ts' := Stored(ts, x, Index(a, w), e);
    assert EntryOf(ts', t, Index(l, v)) == EntryOf(ts, t, Index(l, v));
    if EntryOf(ts, t, Index(l, v)).Dir? {
      ServesOn(ts, places, t, l, v);
      StoreElsewhere(ts, places, EntryOf(ts, t, Index(l, v)).table, l - 1, v, x, w, a, e);
    }
  }

  /** The way to the block of a page is that of all pages in it. */
  lemma {:induction false} SameWay(ts: Tables, t: nat, l: nat, v: nat, w: nat, at: nat)
    requires at <= l && Up(at, v) == Up(at, w)
    ensures Walk(ts, t, l, v, at) == Walk(ts, t, l, w, at) && NoLarge(ts, t, l, v, at) == NoLarge(ts, t, l, w, at)
    decreases l
  {
    SameUp(at, l, v, w);
    if l > at && EntryOf(ts, t, Index(l, v)).Dir? {
      SameWay(ts, EntryOf(ts, t, Index(l, v)).table, l - 1, v, w, at);
    }
  }

  lemma {:induction false} SameUp(a: nat, l: nat, v: nat, w: nat)
    requires a <= l && Up(a, v) == Up(a, w)
    ensures Up(l, v) == Up(l, w)
    decreases l
  {
    if l > a { SameUp(a, l - 1, v, w); }
  }

  lemma {:induction false} WalkServes(ts: Tables, places: map<nat, Place>, t: nat, l: nat, v: nat, at: nat)
    requires at <= l && Shaped(ts, places) && Serves(places, t, l, v) && Walk(ts, t, l, v, at) >= 0
    ensures Serves(places, Walk(ts, t, l, v, at), at, v)
    decreases l
  {
    if l > at {
      ServesOn(ts, places, t, l, v);
      WalkServes(ts, places, EntryOf(ts, t, Index(l, v)).table, l - 1, v, at);
    }
  }

  /** A translation may be taken up from any table on the way. */
  lemma {:induction false} TranslateFrom(ts: Tables, t: nat, l: nat, v: nat, at: nat)
    requires at <= l
    ensures Walk(ts, t, l, v, at) >= 0 ==> Translate(ts, t, l, v) == Translate(ts, Walk(ts, t, l, v, at), at, v)
    ensures Walk(ts, t, l, v, at) < 0 && NoLarge(ts, t, l, v, at) ==> Translate(ts, t, l, v) == Miss
    decreases l
  {
    if l > at && EntryOf(ts, t, Index(l, v)).Dir? {
      TranslateFrom(ts, EntryOf(ts, t, Index(l, v)).table, l - 1, v, at);
    }
  }

  /** A store at level `a` leaves the way there as it is. */
  lemma {:induction false} StoreBelow(ts: Tables, places: map<nat, Place>, t: nat, l: nat, v: nat, x: nat, a: nat, e: Pte)
    requires a <= l && Shaped(ts, places) && Serves(places, t, l, v) && Serves(places, x, a, v)
    ensures Walk(Stored(ts, x, Index(a, v), e), t, l, v, a) == Walk(ts, t, l, v, a)
    ensures NoLarge(Stored(ts, x, Index(a, v), e), t, l, v, a) == NoLarge(ts, t, l, v, a)
    decreases l
  {
    if l > a {
      assert t != x;
      var e' := EntryOf(ts, t, Index(l, v));
      assert EntryOf(Stored(ts, x, Index(a, v), e), t, Index(l, v)) == e';
      if e'.Dir? {
        ServesOn(ts, places, t, l, v);
        StoreBelow(ts, places, e'.table, l - 1, v, x, a, e);
      }
    }
  }

  /** And the way to every table at that level or above, for all pages. */
  lemma {:induction false} StoreWay(ts: Tables, places: map<nat, Place>, t: nat, l: nat, w: nat, at: nat, x: nat, i: nat, e: Pte)
    requires at <= l && Shaped(ts, places) && Serves(places, t, l, w) && x in places && places[x].level <= at && i < ENTRIES
    ensures Walk(Stored(ts, x, i, e), t, l, w, at) == Walk(ts, t, l, w, at)
    decreases l
  {
    if l > at {
      assert t != x;
      var e' := EntryOf(ts, t, Index(l, w));
      assert EntryOf(Stored(ts, x, i, e), t, Index(l, w)) == e';
      if e'.Dir? {
        ServesOn(ts, places, t, l, w);
        StoreWay(ts, places, e'.table, l - 1, w, at, x, i, e);
      }
    }
  }

  // New tables -----------------------------------------------------------------------

  function Blank(): (s: seq<Pte>)
    ensures |s| == ENTRIES
  {
    seq(ENTRIES, _ => Zero)
  }

  /** An empty table hung into an empty entry. */
  function Grown(ts: Tables, x: nat, i: nat, c: nat): Tables
    requires x in ts && i < |ts[x]|
  {
    Stored(ts, x, i, Dir(c))[c := Blank()]
  }

  /** A new table changes no translation. */
  lemma {:induction false} GrowKeeps(ts: Tables, x: nat, i: nat, c: nat, t: nat, l: nat, v: nat)
    requires x in ts && i < |ts[x]| && ts[x][i] == Zero && c !in ts && t != c
    requires forall y, j :: y in ts && 0 <= j < |ts[y]| ==> ts[y][j] != Dir(c)
    ensures Translate(Grown(ts, x, i, c), t, l, v) == Translate(ts, t, l, v)
    ensures forall at: nat :: at <= l ==> NoLarge(Grown(ts, x, i, c), t, l, v, at) == NoLarge(ts, t, l, v, at)
    ensures forall at: nat :: at <= l && Walk(ts, t, l, v, at) >= 0 ==> Walk(Grown(ts, x, i, c), t, l, v, at) == Walk(ts, t, l, v, at)
    decreases l
  {
    var ts' := Grown(ts, x, i, c);
    var e, e' := EntryOf(ts, t, Index(l, v)), EntryOf(ts', t, Index(l, v));
    if t == x && Index(l, v) == i {
      assert e == Zero && e' == Dir(c);
      if l > 0 { assert EntryOf(ts', c, Index(l - 1, v)) == Zero; }
    } else {
      assert e' == e;
      if e.Dir? && l > 0 { GrowKeeps(ts, x, i, c, e.table, l - 1, v); }
    }
  }

  /** The way goes on where an entry leads. */
  lemma {:induction false} WalkOn(ts: Tables, t: nat, l: nat, v: nat, at: nat)
    requires 0 < at <= l && Walk(ts, t, l, v, at) >= 0
    ensures
      var e := EntryOf(ts, Walk(ts, t, l, v, at), Index(at, v));
      Walk(ts, t, l, v, at - 1) == if e.Dir? then e.table else -1
    decreases l
  {
    if l > at { WalkOn(ts, EntryOf(ts, t, Index(l, v)).table, l - 1, v, at); }
  }

  lemma {:induction false} NoLargeUp(ts: Tables, t: nat, l: nat, v: nat, a: nat, b: nat)
    requires a <= b <= l && NoLarge(ts, t, l, v, a)
    ensures NoLarge(ts, t, l, v, b)
    decreases l
  {
    if l > b && EntryOf(ts, t, Index(l, v)).Dir? {
      NoLargeUp(ts, EntryOf(ts, t, Index(l, v)).table, l - 1, v, a, b);
    }
  }

  /** A large page is not met at the entry itself when it is not met below. */
  lemma {:induction false} NoLargeAt(ts: Tables, t: nat, l: nat, v: nat, at: nat)
    requires 0 < at <= l && NoLarge(ts, t, l, v, at)
    ensures Walk(ts, t, l, v, at) >= 0 ==>
      (NoLarge(ts, t, l, v, at - 1) <==> !EntryOf(ts, Walk(ts, t, l, v, at), Index(at, v)).Leaf?)
    ensures Walk(ts, t, l, v, at) < 0 ==> NoLarge(ts, t, l, v, at - 1)
    decreases l
  {
    if l > at && EntryOf(ts, t, Index(l, v)).Dir? {
      NoLargeAt(ts, EntryOf(ts, t, Index(l, v)).table, l - 1, v, at);
    }
  }

  /** The lower part of the page numbers is served by the top table. */
  lemma TopServes(places: map<nat, Place>, top: nat, last: nat, v: nat)
    requires top in places && places[top] == Place(last, 0) && v < Size(last + 1)
    ensures Serves(places, top, last, v)
  {
    OffsetIs(last + 1, v);
    if Up(last + 1, v) >= 1 { AtLeast(Up(last + 1, v), Size(last + 1)); }
  }

  datatype Piece = Piece(va: nat, frame: nat, level: nat)

  class Pmap {
    /** The level of the top table. */
    const last: nat
    var top: nat
    var tables: Tables
    var next: nat
    ghost var places: map<nat, Place>

    ghost predicate Valid()
      reads this
    {
      && Shaped(tables, places) && top in places && places[top] == Place(last, 0)
      && (forall t :: t in tables ==> t < next)
    }

    /** What a page number translates to. */
    function At(v: nat): Hit
      reads this
    {
      Translate(tables, top, last, v)
    }

    /** No large page is above level `at` on the way to a page. */
    predicate Open(v: nat, at: nat)
      requires at <= last
      reads this
    {
      NoLarge(tables, top, last, v, at)
    }

    /** The table of level `at` on the way to a page, or -1. */
    function Way(v: nat, at: nat): int
      requires at <= last
      reads this
    {
      Walk(tables, top, last, v, at)
    }

    /** The entry of a page at a level; no table is an empty entry. */
    ghost function Entry(v: nat, at: nat): Pte
      requires at <= last
      reads this
    {
      if Way(v, at) < 0 then Zero else EntryOf(tables, Way(v, at), Index(at, v))
    }

    constructor (last: nat)
      ensures Valid() && this.last == last && (forall v :: At(v) == Miss) && (forall v: nat, a: nat :: a <= last ==> Open(v, a))
      ensures forall v: nat, a: nat :: a < last ==> Way(v, a) == -1
    {
      this.last := last;
      top := 0;
      tables := map[0 := Blank()];
      next := 1;
      places := map[0 := Place(last, 0)];
    }

    /** `pmm_alloc_zeroed` and the directory entry that leads to the new table. */
    method AddTable(x: nat, ghost lvl: nat, v: nat, i: nat) returns (c: nat)
      requires Valid() && x in tables && 0 < lvl <= last && v < Size(last + 1) && i == Index(lvl, v)
      requires Serves(places, x, lvl, v) && tables[x][i] == Zero
      modifies this
      ensures Valid() && top == old(top) && c in tables && Serves(places, c, lvl - 1, v)
      ensures c !in old(tables) && tables == Grown(old(tables), x, i, c)
      ensures forall w :: At(w) == old(At(w))
      ensures forall w, a: nat :: a <= last ==> Open(w, a) == old(Open(w, a))
      ensures forall w, a: nat :: a <= last && old(Way(w, a)) >= 0 ==> Way(w, a) == old(Way(w, a))
    {
      c := next;
      next := next + 1;
      ghost var ts: Tables := tables;
      UpSplit(lvl, v);
      assert forall y, j :: y in ts && 0 <= j < ENTRIES && ts[y][j].Dir? ==> LeadsOn(places, y, j, ts[y][j].table);
      assert forall y, j :: y in ts && 0 <= j < |ts[y]| ==> ts[y][j] != Dir(c);
      tables := Grown(tables, x, i, c);
      places := places[c := Place(lvl - 1, places[x].prefix * ENTRIES + i)];
      forall w: nat ensures At(w) == old(At(w)) { GrowKeeps(ts, x, i, c, top, last, w); }
      forall w: nat, a: nat | a <= last ensures Open(w, a) == old(Open(w, a)) { GrowKeeps(ts, x, i, c, top, last, w); }
      forall w: nat, a: nat | a <= last && old(Way(w, a)) >= 0 ensures Way(w, a) == old(Way(w, a)) {
        GrowKeeps(ts, x, i, c, top, last, w);
      }
    }

    /** `pte_fetch`: the table that holds the entry of a page at a level, or -1. */
    method PteFetch(v: nat, at: nat, alloc: bool) returns (table: int)
      requires Valid() && v < Size(last + 1) && at <= last && Open(v, at)
      modifies this
      ensures Valid() && top == old(top) && -1 <= table && (alloc ==> table >= 0)
      ensures !alloc ==> tables == old(tables) && table == Way(v, at)
      ensures table >= 0 ==> table == Way(v, at) && Serves(places, table, at, v)
      ensures forall w :: At(w) == old(At(w))
      ensures forall w, a: nat :: a <= last ==> Open(w, a) == old(Open(w, a))
    {
      hide NoLarge, Translate, Walk, Index, Up;
      TopServes(places, top, last, v);
      var lvl := last;
      table := top;
      WalkHere(tables, top, lvl, v);
      while lvl != at
        invariant Valid() && top == old(top) && at <= lvl <= last && table >= 0
        invariant Serves(places, table, lvl, v) && Way(v, lvl) == table
        invariant !alloc ==> tables == old(tables)
        invariant forall w :: At(w) == old(At(w))
        invariant forall w, a: nat :: a <= last ==> Open(w, a) == old(Open(w, a))
      {
        var i := Index(lvl, v);
        var pte := Fetch(table, i);
        ghost var ts, ps := tables, places;
        WalkOn(tables, top, last, v, lvl);
        NoLargeUp(tables, top, last, v, at, lvl);
        NoLargeUp(tables, top, last, v, at, lvl - 1);
        NoLargeAt(tables, top, last, v, lvl);
        if pte == Zero {
          if !alloc {
            WalkStops(tables, top, last, v, lvl - 1, at);
            return -1;
          }
          var c := AddTable(table, lvl, v, i);
          assert Way(v, lvl) == table && EntryOf(tables, table, i) == Dir(c);
          WalkOn(tables, top, last, v, lvl);
          assert Way(v, lvl - 1) == c;
          table := c;
        } else {
          assert !pte.Leaf?;
          ServesOn(tables, places, table, lvl, v);
          assert Way(v, lvl - 1) == pte.table;
          table := pte.table;
        }
        lvl := lvl - 1;
      }
    }

    method Fetch(t: nat, i: nat) returns (pte: Pte)
      requires Valid() && t in tables && i < ENTRIES
      ensures pte == EntryOf(tables, t, i) == tables[t][i]
    {
      pte := tables[t][i];
    }

    /** A page number in the range the tables serve. */
    predicate InRange(v: nat) {
      v < Size(last + 1)
    }

    /** A store in the entry of a page replaces what its block translates to. */
    method PteStore(x: nat, v: nat, at: nat, e: Pte)
      requires Valid() && InRange(v) && at <= last && Way(v, at) == x && !e.Dir?
      modifies this`tables
      ensures Valid()
      ensures forall w :: InRange(w) && Up(at, w) != Up(at, v) ==> At(w) == old(At(w))
      ensures forall w, a: nat :: InRange(w) && Up(at, w) != Up(at, v) && a <= last ==> Open(w, a) == old(Open(w, a))
      ensures forall w :: InRange(w) && Up(at, w) == Up(at, v) && old(Open(v, at)) ==> At(w) == HitOf(e, at, w) && Open(w, at)
      ensures EntryOf(tables, x, Index(at, v)) == e
      ensures forall w: nat, b: nat :: InRange(w) && at <= b <= last ==> Way(w, b) == old(Way(w, b))
      ensures forall w: nat :: InRange(w) && Up(at, w) != Up(at, v) ==> Entry(w, at) == old(Entry(w, at))
    {
      hide Up, Offset;
      TopServes(places, top, last, v);
      WalkServes(tables, places, top, last, v, at);
      ghost var ts: Tables := tables;
      assert IndexUp(at) by { IndexIs(at); }
      tables := Stored(tables, x, Index(at, v), e);
      forall w: nat | InRange(w) && Up(at, w) != Up(at, v) ensures At(w) == old(At(w)) { Elsewhere(ts, w, x, v, at, e); }
      forall w: nat, a: nat | InRange(w) && Up(at, w) != Up(at, v) && a <= last ensures Open(w, a) == old(Open(w, a)) {
        Elsewhere(ts, w, x, v, at, e);
      }
      forall w: nat | InRange(w) && Up(at, w) == Up(at, v) && NoLarge(ts, top, last, v, at)
        ensures At(w) == HitOf(e, at, w) && Open(w, at)
      {
        StoreBelow(ts, places, top, last, v, x, at, e);
        SameWay(tables, top, last, w, v, at);
        TranslateFrom(tables, top, last, w, at);
      }
      forall w: nat, b: nat | InRange(w) && at <= b <= last ensures Way(w, b) == old(Way(w, b)) {
        TopServes(places, top, last, w);
        StoreWay(ts, places, top, last, w, b, x, Index(at, v), e);
      }
      forall w: nat | InRange(w) && Up(at, w) != Up(at, v) ensures Entry(w, at) == old(Entry(w, at)) {
        EntryElsewhere(ts, w, x, v, at, e);
      }
    }

    lemma EntryElsewhere(ts: Tables, w: nat, x: nat, v: nat, at: nat, e: Pte)
      requires Shaped(ts, places) && top in places && places[top] == Place(last, 0) && InRange(w) && at <= last
      requires Serves(places, x, at, v) && Up(at, w) != Up(at, v)
      ensures var t := Walk(ts, top, last, w, at);
        t >= 0 ==> EntryOf(Stored(ts, x, Index(at, v), e), t, Index(at, w)) == EntryOf(ts, t, Index(at, w))
    {
      hide Up;
      TopServes(places, top, last, w);
      if Walk(ts, top, last, w, at) == x {
        WalkServes(ts, places, top, last, w, at);
        UpSplit(at, v);
        UpSplit(at, w);
      }
    }

    lemma Elsewhere(ts: Tables, w: nat, x: nat, v: nat, at: nat, e: Pte)
      requires Shaped(ts, places) && top in places && places[top] == Place(last, 0) && InRange(w)
      requires Serves(places, x, at, v) && Up(at, w) != Up(at, v)
      ensures Translate(Stored(ts, x, Index(at, v), e), top, last, w) == Translate(ts, top, last, w)
      ensures forall a: nat :: a <= last ==> NoLarge(Stored(ts, x, Index(at, v), e), top, last, w, a) == NoLarge(ts, top, last, w, a)
    {
      TopServes(places, top, last, w);
      StoreElsewhere(ts, places, top, last, w, x, v, at, e);
    }

    /** `pmap_map`: one page of a level. */
    method Map(v: nat, frame: nat, level: nat, attr: Attr)
      requires Valid() && InRange(v) && level <= last && Open(v, level)
      modifies this
      ensures Valid() && top == old(top)
      ensures forall w :: InRange(w) ==> At(w) == if Up(level, w) == Up(level, v) then Hit(frame + Offset(level, w), attr) else old(At(w))
      ensures forall w, a: nat :: InRange(w) && Up(level, w) != Up(level, v) && a <= last ==> Open(w, a) == old(Open(w, a))
      ensures Open(v, level) && Way(v, level) >= 0
    {
      hide Translate, NoLarge, Walk, Up, Offset, Index;
      var x := PteFetch(v, level, true);
      PteStore(x, v, level, Leaf(frame, attr));
    }

    /** `do_unmap`: what the entry leads to, which is 0 if it is empty, or -1 if
        there is no table for it. */
    method Unmap(v: nat, level: nat) returns (pa: int)
      requires Valid() && InRange(v) && level <= last && Open(v, level)
      modifies this
      ensures Valid() && top == old(top)
      ensures forall w :: InRange(w) ==> At(w) == if Up(level, w) == Up(level, v) then Miss else old(At(w))
      ensures forall w, a: nat :: InRange(w) && Up(level, w) != Up(level, v) && a <= last ==> Open(w, a) == old(Open(w, a))
      ensures Open(v, level)
      ensures level == 0 && old(At(v)).Hit? ==> pa == old(At(v)).frame
      ensures level == 0 && old(At(v)).Miss? ==> pa == if old(Way(v, 0)) < 0 then -1 else 0
      ensures pa == -1 <==> old(Way(v, level)) < 0
      ensures pa >= 0 ==> pa == Target(old(EntryOf(tables, Way(v, level), Index(level, v))))
      ensures forall w: nat, b: nat :: InRange(w) && level <= b <= last ==> Way(w, b) == old(Way(w, b))
    {
      hide NoLarge, Up, Offset, Index;
      var x := PteFetch(v, level, false);
      TranslateFrom(tables, top, last, v, level);
      if x < 0 {
        forall w: nat | Up(level, w) == Up(level, v) ensures At(w) == Miss {
          SameWay(tables, top, last, w, v, level);
          TranslateFrom(tables, top, last, w, level);
        }
        return -1;
      }
      var pte := Fetch(x, Index(level, v));
      if level == 0 { BottomEntry(tables, places, x, v); }
      pa := Target(pte);
      PteStore(x, v, level, Zero);
    }

    /** `pmap_unmap_range` */
    method UnmapRange(va: nat, length: nat, level: nat)
      requires Valid() && level <= last && va % Size(level) == 0 && length % Size(level) == 0 && va + length <= Size(last + 1)
      requires forall w: nat :: va <= w < va + length ==> Open(w, level)
      modifies this
      ensures Valid() && top == old(top)
      ensures forall w: nat :: InRange(w) ==> At(w) == if va <= w < va + length then Miss else old(At(w))
      ensures level == 0 ==> forall w: nat :: InRange(w) && old(Open(w, 0)) ==> Open(w, 0)
    {
      hide Up, Offset, Size, Translate, NoLarge;
      var pgsz := Size(level);
      var i := 0;
      while i < length
        invariant Valid() && top == old(top) && i <= length && i % pgsz == 0
        invariant forall w: nat :: InRange(w) ==> At(w) == if va <= w < va + i then Miss else old(At(w))
        invariant forall w: nat :: va + i <= w < va + length ==> Open(w, level)
        invariant level == 0 ==> forall w: nat :: InRange(w) && old(Open(w, 0)) ==> Open(w, 0)
      {
        NextPage(va, i, length, level);
        Bottom();
        var _ := Unmap(va + i, level);
        i := i + pgsz;
      }
    }

    /** What `do_unmap` returns for a small page. */
    ghost function Unmapped(v: nat): int
      reads this
    {
      if At(v).Hit? then At(v).frame else if Way(v, 0) < 0 then -1 else 0
    }

    ghost function Hits(va: nat, length: nat): (hits: seq<Hit>)
      reads this
      ensures |hits| == length && forall i :: 0 <= i < length ==> hits[i] == At(va + i)
    {
      seq(length, (i: nat) reads this => At(va + i))
    }

    /** `pmap_unmap_range_and_free`: what it hands to `pmm_free`, batch by batch. */
    method UnmapRangeAndFree(va: nat, length: nat) returns (freed: seq<int>)
      requires Valid() && va + length <= Size(last + 1)
      requires forall w: nat :: va <= w < va + length ==> Open(w, 0)
      modifies this
      ensures Valid() && top == old(top)
      ensures forall w: nat :: InRange(w) ==> At(w) == if va <= w < va + length then Miss else old(At(w))
      ensures |freed| == length && forall i :: 0 <= i < length ==> freed[i] == old(Unmapped(va + i))
      ensures freed == Frames(old(Hits(va, length))) <==> forall w: nat :: va <= w < va + length ==> old(At(w)).Hit?
    {
      hide Size, Translate, NoLarge, Walk;
      ghost var hits := Hits(va, length);
      freed := [];
      var batch: seq<int> := [];
      var offset := 0;
      while offset < length
        invariant Valid() && top == old(top) && offset <= length && |batch| < FREE_BATCH && |freed| + |batch| == offset
        invariant forall w: nat :: InRange(w) ==> At(w) == if va <= w < va + offset then Miss else old(At(w))
        invariant forall w: nat :: InRange(w) ==> Way(w, 0) == old(Way(w, 0))
        invariant forall w: nat :: va + offset <= w < va + length ==> Open(w, 0)
        invariant forall i :: 0 <= i < offset ==> (freed + batch)[i] == old(Unmapped(va + i))
      {
        Bottom();
        var pa := Unmap(va + offset, 0);
        assert pa == old(Unmapped(va + offset));
        assert freed + (batch + [pa]) == (freed + batch) + [pa];
        batch := batch + [pa];
        offset := offset + 1;
        if |batch| == FREE_BATCH {
          freed := freed + batch;
          assert freed + [] == freed;
          batch := [];
        }
      }
      if |batch| > 0 {
        freed := freed + batch;
      } else {
        assert freed + batch == freed;
      }
      FreedExact(hits, freed);
      assert forall w: nat :: va <= w < va + length ==> hits[w - va] == old(At(w));
    }

    /** `pmap_protect_range`: where the entries are pages or empty, only attributes
        change; a directory becomes a large page over its table. */
    method ProtectRange(va: nat, length: nat, level: nat, attr: Attr)
      requires Valid() && level <= last && va % Size(level) == 0 && length % Size(level) == 0 && va + length <= Size(last + 1)
      requires forall w: nat :: va <= w < va + length ==> Open(w, level)
      modifies this
      ensures Valid() && top == old(top)
      ensures forall w: nat :: InRange(w) ==>
        At(w) == if va <= w < va + length then Reset(old(Entry(w, level)), level, w, attr) else old(At(w))
      ensures forall w: nat :: va <= w < va + length && !old(Entry(w, level)).Dir? ==> At(w) == WithAttr(old(At(w)), attr)
      ensures level == 0 ==> forall w: nat :: InRange(w) ==>
        !old(Entry(w, 0)).Dir? && (old(Open(w, 0)) ==> Open(w, 0))
    {
      hide Up, Offset, Size, Translate, NoLarge, Entry;
      forall w: nat | va <= w < va + length && !Entry(w, level).Dir?
        ensures Reset(Entry(w, level), level, w, attr) == WithAttr(At(w), attr)
      {
        EntryShown(w, level, attr);
      }
      if level == 0 { BottomEntries(); }
      var pgsz := Size(level);
      var i := 0;
      while i < length
        invariant Valid() && top == old(top) && i <= length && i % pgsz == 0
        invariant forall w: nat :: InRange(w) ==> At(w) == if va <= w < va + i then Reset(old(Entry(w, level)), level, w, attr) else old(At(w))
        invariant forall w: nat :: va + i <= w < va + length ==> Open(w, level) && Entry(w, level) == old(Entry(w, level))
        invariant level == 0 ==> forall w: nat :: InRange(w) && old(Open(w, 0)) ==> Open(w, 0)
      {
        NextPage(va, i, length, level);
        Bottom();
        ProtectPage(va + i, level, attr);
        i := i + pgsz;
      }
    }

    /** One round of `pmap_protect_range`. */
    method ProtectPage(v: nat, level: nat, attr: Attr)
      requires Valid() && InRange(v) && level <= last && Open(v, level)
      modifies this
      ensures Valid() && top == old(top)
      ensures forall w: nat :: InRange(w) ==>
        At(w) == if Up(level, w) == Up(level, v) then Reset(old(Entry(w, level)), level, w, attr) else old(At(w))
      ensures forall w, a: nat :: InRange(w) && Up(level, w) != Up(level, v) && a <= last ==> Open(w, a) == old(Open(w, a))
      ensures forall w: nat :: InRange(w) && Up(level, w) != Up(level, v) ==> Entry(w, level) == old(Entry(w, level))
      ensures Open(v, level)
    {
      hide Size, Translate, NoLarge, Index, Up, Offset;
      assert IndexUp(level) by { IndexIs(level); }
      forall w: nat | InRange(w) && Up(level, w) == Up(level, v)
        ensures Entry(w, level) == Entry(v, level) && Open(w, level)
        ensures Entry(w, level).Zero? ==> At(w) == Miss
      {
        SameWay(tables, top, last, w, v, level);
        EntryShown(w, level, attr);
      }
      var x := PteFetch(v, level, false);
      if x >= 0 {
        var pte := Fetch(x, Index(level, v));
        if pte != Zero {
          PteStore(x, v, level, Leaf(Target(pte), attr));
        }
      }
    }

    /** A page or an empty entry shows in the translation. */
    ghost predicate EntryShows(v: nat, at: nat, attr: Attr)
      requires at <= last
      reads this
    {
      !Entry(v, at).Dir? ==> At(v) == HitOf(Entry(v, at), at, v) && Reset(Entry(v, at), at, v, attr) == WithAttr(At(v), attr)
    }

    lemma EntryShown(v: nat, at: nat, attr: Attr)
      requires at <= last && Open(v, at)
      ensures EntryShows(v, at, attr)
    {
      TranslateFrom(tables, top, last, v, at);
    }

    lemma BottomEntries()
      requires Valid()
      ensures forall v: nat :: InRange(v) ==> !Entry(v, 0).Dir?
    {
      hide Size, Up, Index;
      forall v: nat | InRange(v) ensures !Entry(v, 0).Dir? {
        TopServes(places, top, last, v);
        if Way(v, 0) >= 0 {
          WalkServes(tables, places, top, last, v, 0);
          BottomEntry(tables, places, Way(v, 0), v);
        }
      }
    }

    /** `pmap_map` of a large or small page at an aligned place. */
    method MapPiece(va: nat, frame: nat, level: nat, attr: Attr)
      requires Valid() && level <= last && va % Size(level) == 0 && va + Size(level) <= Size(last + 1)
      requires Open(va, 0)
      modifies this
      ensures Valid() && top == old(top)
      ensures forall w: nat :: InRange(w) ==> At(w) == if va <= w < va + Size(level) then Hit(frame + (w - va), attr) else old(At(w))
      ensures forall w: nat, a: nat :: InRange(w) && !(va <= w < va + Size(level)) && a <= last ==> Open(w, a) == old(Open(w, a))
    {
      hide Up, Offset, Size, Translate, NoLarge;
      NoLargeUp(tables, top, last, va, 0, level);
      Map(va, frame, level, attr);
      forall w: nat
        ensures Up(level, w) == Up(level, va) <==> va <= w < va + Size(level)
        ensures Up(level, w) == Up(level, va) ==> Offset(level, w) == w - va
      {
        BlockRange(level, va, w);
      }
    }

    /** The largest page that fits here, or level 0. */
    method LargestLevel(curr: nat, va: nat, end: nat) returns (level: nat)
      ensures Largest(level, curr, va, end)
    {
      hide Fits;
      level := 2;
      while level > 0
        invariant level <= 2 && forall k :: level < k <= 2 ==> !Fits(k, curr, va, end)
      {
        if FitsHere(level, curr, va, end) { return; }
        level := level - 1;
      }
    }

    predicate FitsHere(level: nat, curr: nat, va: nat, end: nat)
      ensures FitsHere(level, curr, va, end) == Fits(level, curr, va, end)
    {
      curr + Size(level) <= end && curr % Size(level) == 0 && va % Size(level) == 0
    }

    /** How far `pmap_large_map_range` is, from the tables `ts`. */
    ghost predicate Progress(ts: Tables, r: Job, n: nat, pieces: seq<Piece>)
      reads this
    {
      && Valid() && n <= r.length && r.va + r.length <= Size(last + 1)
      && (forall w: nat :: InRange(w) ==>
            At(w) == if r.va <= w < r.va + n then Hit(r.base + (w - r.va), r.attr) else Translate(ts, top, last, w))
      && (forall w: nat :: r.va + n <= w < r.va + r.length ==> Open(w, 0))
      && Tile(pieces, r.va, r.base, n, r.base + r.length)
    }

    /** One page of `pmap_large_map_range`. */
    method MapStep(level: nat, ghost ts: Tables, r: Job, n: nat, ghost pieces: seq<Piece>) returns (ghost pieces': seq<Piece>)
      requires Progress(ts, r, n, pieces) && level <= last && Largest(level, r.base + n, r.va + n, r.base + r.length)
      requires n + Size(level) <= r.length
      modifies this
      ensures top == old(top) && Progress(ts, r, n + Size(level), pieces')
    {
      hide Up, Offset, Size, Translate, NoLarge, Fits, Valid;
      AlignedHere(level, r.base + n, r.va + n, r.base + r.length);
      MapPiece(r.va + n, r.base + n, level, r.attr);
      pieces' := pieces + [Piece(r.va + n, r.base + n, level)];
      assert pieces'[..|pieces|] == pieces;
    }

    /** The small pages up to the next boundary of a large one. */
    method SmallPages(pages: nat, ghost ts: Tables, r: Job, n: nat, ghost pieces: seq<Piece>) returns (ghost pieces': seq<Piece>)
      requires Progress(ts, r, n, pieces) && n + pages <= r.length
      requires (r.base + n) % ENTRIES != 0 && (r.base + n) % ENTRIES + pages <= ENTRIES
      modifies this
      ensures top == old(top) && Progress(ts, r, n + pages, pieces')
    {
      hide Progress, Size;
      pieces' := pieces;
      var done := 0;
      while done < pages
        invariant top == old(top) && done <= pages && Progress(ts, r, n + done, pieces')
        invariant done < pages ==> (r.base + n + done) % ENTRIES == (r.base + n) % ENTRIES + done
      {
        SmallestSize();
        NoneFits(r.base + n + done, r.va + n + done, r.base + r.length);
        pieces' := MapStep(0, ts, r, n + done, pieces');
        done := done + 1;
      }
    }

    /** `pmap_large_map_range`: each step takes the largest page that fits. */
    method LargeMapRange(r: Job) returns (ghost pieces: seq<Piece>)
      requires Valid() && last >= 2 && r.va + r.length <= Size(last + 1)
      requires forall w: nat :: r.va <= w < r.va + r.length ==> Open(w, 0)
      modifies this
      ensures Valid() && top == old(top)
      ensures forall w: nat :: InRange(w) ==>
        At(w) == if r.va <= w < r.va + r.length then Hit(r.base + (w - r.va), r.attr) else old(At(w))
      ensures Tile(pieces, r.va, r.base, r.length, r.base + r.length)
    {
      hide Up, Offset, Size, Translate, NoLarge, Largest;
      var curr, end := r.base, r.base + r.length;
      ghost var ts := tables;
      pieces := [];
      SmallestSize();
      while curr < end
        invariant top == old(top) && r.base <= curr <= end && Progress(ts, r, curr - r.base, pieces)
      {
        hide Progress, Valid;
        var va := r.va + (curr - r.base);
        var level := LargestLevel(curr, va, end);
        RoomFor(level, curr, va, end);
        if level != 0 {
          pieces := MapStep(level, ts, r, curr - r.base, pieces);
          curr := curr + Size(level);
          continue;
        }
        var misalign := curr % ENTRIES;
        if misalign != 0 {
          var pages := if curr + (ENTRIES - misalign) > end then end - curr else ENTRIES - misalign;
          pieces := SmallPages(pages, ts, r, curr - r.base, pieces);
          curr := curr + pages;
          continue;
        }
        pieces := MapStep(0, ts, r, curr - r.base, pieces);
        curr := curr + 1;
      }
    }
  }

  /** What is to be mapped: `length` pages from the frame `base` at `va`. */
  datatype Job = Job(va: nat, base: nat, length: nat, attr: Attr)

  /** The frames of the pages that are mapped, in order. */
  function Frames(hits: seq<Hit>): (fs: seq<int>)
    ensures |fs| <= |hits|
  {
    if hits == [] then []
    else
      var k := |hits| - 1;
      Frames(hits[..k]) + if hits[k].Hit? then [hits[k].frame] else []
  }

  /** A list with one entry for each page is the list of their frames exactly
      when all are mapped. */
  lemma {:induction false} FreedExact(hits: seq<Hit>, freed: seq<int>)
    requires |freed| == |hits| && forall i :: 0 <= i < |hits| && hits[i].Hit? ==> freed[i] == hits[i].frame
    ensures freed == Frames(hits) <==> forall i :: 0 <= i < |hits| ==> hits[i].Hit?
    decreases |hits|
  {
    if hits != [] {
      var k := |hits| - 1;
      FreedExact(hits[..k], freed[..k]);
      assert freed == freed[..k] + [freed[k]];
      if hits[k].Hit? { assert (Frames(hits[..k]) + [hits[k].frame])[..|Frames(hits[..k])|] == Frames(hits[..k]); }
      assert (forall i :: 0 <= i < |hits| ==> hits[i].Hit?) <==> hits[k].Hit? && forall i :: 0 <= i < k ==> hits[..k][i].Hit?;
    }
  }

  /** The way to a table is the same for all pages it serves. */
  lemma {:induction false} SameTable(ts: Tables, t: nat, l: nat, v: nat, w: nat, at: nat)
    requires at <= l && Up(at + 1, v) == Up(at + 1, w)
    ensures Walk(ts, t, l, v, at) == Walk(ts, t, l, w, at)
    decreases l
  {
    if l > at {
      SameUp(at + 1, l, v, w);
      if EntryOf(ts, t, Index(l, v)).Dir? { SameTable(ts, EntryOf(ts, t, Index(l, v)).table, l - 1, v, w, at); }
    }
  }

  /** Page 6 is never mapped: before its neighbour is, unmapping it gives -1, and
      afterwards 0, which freeing the two pages then hands to the allocator. */
  method UnmapAbsent(frame: nat, attr: Attr) returns (p: Pmap, before: int, after: int, freed: seq<int>)
    ensures before == -1 && after == 0 && freed == [frame, 0] && fresh(p)
  {
    hide Translate, NoLarge, Walk, Size;
    p := new Pmap(3);
    Bottom();
    assert Size(4) > 8 by { BigEnough(); }
    before := p.Unmap(6, 0);
    p.Map(5, frame, 0, attr);
    assert Up(1, 5) == 0 == Up(1, 6);
    SameTable(p.tables, p.top, p.last, 5, 6, 0);
    NoOffset();
    after := p.Unmap(6, 0);
    SameTable(p.tables, p.top, p.last, 5, 6, 0);
    freed := p.UnmapRangeAndFree(5, 2);
  }

  lemma BigEnough()
    ensures Size(4) > 8
  {
    assert Size(1) == 512;
    SizeStep(2);
    SizeStep(3);
    SizeStep(4);
  }

  lemma AlignedHere(level: nat, curr: nat, va: nat, end: nat)
    requires Largest(level, curr, va, end)
    ensures curr % Size(level) == 0 && va % Size(level) == 0
  {
  }

  lemma RoomFor(level: nat, curr: nat, va: nat, end: nat)
    requires Largest(level, curr, va, end) && curr < end
    ensures level <= 2 && curr + Size(level) <= end
  {
  }

  /** What a page of a block translates to once its entry `e` is protected. */
  function Reset(e: Pte, l: nat, v: nat, attr: Attr): Hit {
    if e.Zero? then Miss else Hit(Target(e) + Offset(l, v), attr)
  }

  function WithAttr(h: Hit, attr: Attr): Hit {
    if h.Hit? then Hit(h.frame, attr) else h
  }

  /** A page of this size may be mapped here. */
  predicate Fits(level: nat, curr: nat, va: nat, end: nat) {
    curr + Size(level) <= end && curr % Size(level) == 0 && va % Size(level) == 0
  }

  predicate Largest(level: nat, curr: nat, va: nat, end: nat) {
    && level <= 2 && (level > 0 ==> Fits(level, curr, va, end))
    && (forall k :: level < k <= 2 ==> !Fits(k, curr, va, end))
  }

  /** Aligned pages that follow each other, each the largest that fits. */
  ghost predicate Tile(pieces: seq<Piece>, va: nat, frame: nat, length: nat, end: nat) {
    if pieces == [] then length == 0
    else
      var k := |pieces| - 1;
      var n := Size(pieces[k].level);
      && n <= length && pieces[k].va == va + (length - n) && pieces[k].frame == frame + (length - n)
      && pieces[k].va % n == 0 && pieces[k].frame % n == 0 && Largest(pieces[k].level, pieces[k].frame, pieces[k].va, end)
      && Tile(pieces[..k], va, frame, length - n, end)
  }

  lemma Bottom()
    ensures forall w: nat :: Up(0, w) == w
  {
  }

  lemma NoOffset()
    ensures forall w: nat :: Offset(0, w) == 0
  {
  }

  lemma SmallestSize()
    ensures Size(0) == 1 && Size(1) == ENTRIES && Size(2) == ENTRIES * ENTRIES
  {
  }

  lemma NextPage(va: nat, i: nat, length: nat, l: nat)
    requires va % Size(l) == 0 && i % Size(l) == 0 && length % Size(l) == 0 && i < length
    ensures i + Size(l) <= length && (i + Size(l)) % Size(l) == 0
    ensures forall w: nat :: Up(l, w) == Up(l, va + i) <==> va + i <= w < va + i + Size(l)
  {
    hide Up, Size;
    SumMultiple(va, i, Size(l));
    SumMultiple(i, Size(l), Size(l));
    GapMultiple(i, length, Size(l));
    forall w: nat ensures Up(l, w) == Up(l, va + i) <==> va + i <= w < va + i + Size(l) {
      BlockRange(l, va + i, w);
    }
  }

  lemma NoneFits(curr: nat, va: nat, end: nat)
    requires curr % Size(1) != 0
    ensures Largest(0, curr, va, end)
  {
    hide Size;
    SmallestSize();
    if curr % Size(2) == 0 {
      ModIs(curr, curr / Size(2) * ENTRIES, 0, ENTRIES);
    }
  }

  function HitOf(e: Pte, l: nat, v: nat): Hit
    requires !e.Dir?
  {
    if e.Zero? then Miss else Hit(e.frame + Offset(l, v), e.attr)
  }

  /** Entries of the lowest level are pages. */
  lemma BottomEntry(ts: Tables, places: map<nat, Place>, x: nat, v: nat)
    requires Shaped(ts, places) && Serves(places, x, 0, v)
    ensures !EntryOf(ts, x, Index(0, v)).Dir? && Offset(0, v) == 0
  {
    if EntryOf(ts, x, Index(0, v)).Dir? { ServesOn(ts, places, x, 0, v); }
  }

  ghost predicate IndexUp(at: nat) {
    forall v: nat, w: nat :: Up(at, v) == Up(at, w) ==> Index(at, v) == Index(at, w)
  }

  lemma IndexIs(at: nat)
    ensures IndexUp(at)
  {
    hide Up;
  }

  lemma WalkHere(ts: Tables, t: nat, l: nat, v: nat)
    ensures Walk(ts, t, l, v, l) == t
  {
  }

  lemma {:induction false} WalkStops(ts: Tables, t: nat, l: nat, v: nat, a: nat, b: nat)
    requires b <= a <= l && Walk(ts, t, l, v, a) < 0
    ensures Walk(ts, t, l, v, b) < 0
    decreases l
  {
    if l > a && EntryOf(ts, t, Index(l, v)).Dir? {
      WalkStops(ts, EntryOf(ts, t, Index(l, v)).table, l - 1, v, a, b);
    }
  }
}
