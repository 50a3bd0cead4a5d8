/** Choosing and claiming address ranges: `alloc_map_range_locked`. */
module AddressRange {

  /** The addresses [base, end) of a map entry. */
  datatype Range = Range(base: nat, end: nat)

  /** `Crash` is a failed assertion or a NULL dereference. */
  datatype Outcome = Found(base: nat) | InvalidArgs | NoSpace | Exists | Crash

  /** The map tree in address order: disjoint entries within the bounds. */
  ghost predicate Ordered(es: seq<Range>, min: nat, max: nat) {
    && (forall i :: 0 <= i < |es| ==> min <= es[i].base < es[i].end <= max)
    && (forall i, j :: 0 <= i < j < |es| ==> es[i].end <= es[j].base)
  }

  /** [b, b + length) lies within the bounds and touches no entry. */
  ghost predicate Fits(es: seq<Range>, min: nat, max: nat, b: int, length: nat) {
    min <= b && b + length <= max && forall i :: 0 <= i < |es| ==> es[i].end <= b || b + length <= es[i].base
  }

  ghost predicate Somewhere(es: seq<Range>, min: nat, max: nat, length: nat) {
    exists b :: Fits(es, min, max, b, length)
  }

  /** Address `a` is mapped. */
  ghost predicate Mapped(es: seq<Range>, a: int) {
    exists i :: 0 <= i < |es| && es[i].base <= a < es[i].end
  }

  function Clamp(a: nat, min: nat, max: nat): nat {
    if a < min then min else if a > max then max else a
  }

  /** When the search for a range without FIXED fails an assertion, because the
      hint lies above the base of every entry, or dereferences NULL, because the
      only entry, not below the hint, leaves no room on either side. */
  ghost predicate Crashes(es: seq<Range>, min: nat, max: nat, hint: nat, length: nat) {
    && es != []
    && ((forall i :: 0 <= i < |es| ==> es[i].base < Clamp(hint, min, max))
        || (|es| == 1 && es[0].base < min + length && max - es[0].end < length))
  }

  /** When a free range at the hint is what the search returns: the map is empty,
      or some entry lies below the hint, or the hint is the lower bound. Below
      the first entry the search forgets the hint. */
  ghost predicate HintTaken(es: seq<Range>, min: nat, hint: nat) {
    es == [] || hint == min || exists i :: 0 <= i < |es| && es[i].base < hint
  }

  /** The start of the gap after entry `p`; entry -1 stands for the lower bound. */
  ghost function GapStart(es: seq<Range>, min: nat, p: int): nat
    requires -1 <= p < |es|
  {
    if p == -1 then min else es[p].end
  }

  /** The end of that gap. */
  ghost function GapEnd(es: seq<Range>, max: nat, p: int): nat
    requires -1 <= p < |es|
  {
    if p + 1 < |es| then es[p + 1].base else max
  }

  /** Everything that fits from `lo` on starts at `start` or later. */
  ghost predicate From(es: seq<Range>, min: nat, max: nat, length: nat, lo: nat, start: nat) {
    forall b :: Fits(es, min, max, b, length) && b >= lo ==> b >= start
  }

  /** Some entry lies below the hint, so the search starts at the hint. */
  ghost predicate HintCounts(es: seq<Range>, h: nat) {
    es == [] || exists i :: 0 <= i < |es| && es[i].base < h
  }

  /** The range chosen for the hint `h`, if it counts: the least one from the hint
      on, or the least of all if there is none. */
  ghost predicate Chosen(es: seq<Range>, min: nat, max: nat, h: nat, counts: bool, length: nat, b: nat) {
    && Fits(es, min, max, b, length)
    && if counts && FitsFrom(es, min, max, h, length) then h <= b && From(es, min, max, length, h, b)
       else From(es, min, max, length, min, b)
  }

  ghost predicate FitsFrom(es: seq<Range>, min: nat, max: nat, h: nat, length: nat) {
    exists b :: Fits(es, min, max, b, length) && b >= h
  }

  /** A gap that is too small can be skipped. */
  lemma SkipGap(es: seq<Range>, min: nat, max: nat, length: nat, lo: nat, start: nat, p: nat)
    requires p < |es| && length > 0 && From(es, min, max, length, lo, start) && es[p].base - start < length
    ensures From(es, min, max, length, lo, es[p].end)
  {
    forall b | Fits(es, min, max, b, length) && b >= lo ensures b >= es[p].end {
      var e := es[p];
      assert e.end <= b || b + length <= e.base;
    }
  }

  lemma LastGap(es: seq<Range>, min: nat, max: nat, length: nat, lo: nat)
    requires es != [] && From(es, min, max, length, lo, es[|es| - 1].end) && es[|es| - 1].end + length > max
    ensures !FitsFrom(es, min, max, lo, length)
  {
    var e := es[|es| - 1];
    forall b ensures !(Fits(es, min, max, b, length) && b >= lo) {
      assert Fits(es, min, max, b, length) && b >= lo ==> b >= e.end;
    }
  }

  lemma NothingFits(es: seq<Range>, min: nat, max: nat, length: nat)
    ensures FitsFrom(es, min, max, min, length) <==> Somewhere(es, min, max, length)
  {
    if b :| Fits(es, min, max, b, length) { assert b >= min; }
  }

  lemma GapFits(es: seq<Range>, min: nat, max: nat, length: nat, p: int, b: int)
    requires Ordered(es, min, max) && -1 <= p < |es| && GapStart(es, min, p) <= b
    requires b + length <= GapEnd(es, max, p)
    ensures Fits(es, min, max, b, length)
  {
  }

  /** From the hint on, everything is behind an entry that lies below it. */
  lemma BehindEntry(es: seq<Range>, min: nat, max: nat, length: nat, h: nat, p: nat)
    requires p < |es| && es[p].base < h && length > 0
    ensures From(es, min, max, length, h, es[p].end)
  {
    var e := es[p];
    assert forall b :: Fits(es, min, max, b, length) ==> e.end <= b || b + length <= e.base;
  }

  lemma Start(es: seq<Range>, min: nat, max: nat, length: nat)
    ensures From(es, min, max, length, min, min)
  {
  }

  /** Where the search looks in a gap is no later than what it looks for. */
  lemma FromStart(es: seq<Range>, min: nat, max: nat, length: nat, lo: nat, gap: nat, base: nat, start: nat, same: bool)
    requires From(es, min, max, length, lo, gap) && start == (if gap < base then base else gap)
    requires if same then lo == base else base <= gap
    ensures From(es, min, max, length, lo, start)
  {
  }

  lemma EmptyChosen(min: nat, max: nat, h: nat, length: nat, b: nat)
    requires min <= h <= max && 0 < length <= max - min && b == if h + length > max then min else h
    ensures Chosen([], min, max, h, true, length, b)
  {
    if h + length <= max { assert FitsFrom([], min, max, h, length) by { assert Fits([], min, max, h, length); } }
  }

  lemma ChosenFits(es: seq<Range>, min: nat, max: nat, h: nat, counts: bool, length: nat, b: nat)
    requires Chosen(es, min, max, h, counts, length, b)
    ensures Fits(es, min, max, b, length) && Somewhere(es, min, max, length)
  {
  }

  lemma HintInRange(es: seq<Range>, min: nat, max: nat, hint: nat, length: nat)
    ensures Fits(es, min, max, hint, length) ==> Clamp(hint, min, max) == hint
  {
  }

  lemma FitsSomewhere(es: seq<Range>, min: nat, max: nat, b: nat, length: nat)
    requires Fits(es, min, max, b, length)
    ensures Somewhere(es, min, max, length)
  {
  }

  /** The search takes the first room it comes to. */
  lemma Take(es: seq<Range>, min: nat, max: nat, length: nat, h: nat, counts: bool, wrapped: bool, start: nat)
    requires Fits(es, min, max, start, length)
    requires if wrapped then !(counts && FitsFrom(es, min, max, h, length)) && From(es, min, max, length, min, start)
             else if counts then h <= start && From(es, min, max, length, h, start)
             else From(es, min, max, length, min, start)
    ensures Chosen(es, min, max, h, counts, length, start)
  {
    if counts && !wrapped { assert FitsFrom(es, min, max, h, length); }
  }

  /** A hint that is free is chosen exactly when it counts or is the lower bound. */
  lemma HintChosen(es: seq<Range>, min: nat, max: nat, hint: nat, counts: bool, length: nat, b: nat)
    requires Chosen(es, min, max, hint, counts, length, b) && Fits(es, min, max, hint, length)
    requires !counts && es != [] ==> es[0].base >= hint
    requires es == [] ==> counts
    requires Ordered(es, min, max) && length > 0
    ensures counts || hint == min ==> b == hint
    ensures !counts && hint != min ==> b != hint
  {
    if counts { assert FitsFrom(es, min, max, hint, length); }
    if !counts && hint != min {
      assert Fits(es, min, max, min, length);
    }
  }

  /** Without a hint the lowest range that fits is chosen. */
  lemma LowestWithoutHint(es: seq<Range>, min: nat, max: nat, length: nat, b: nat)
    requires Ordered(es, min, max) && min <= max && Chosen(es, min, max, Clamp(0, min, max), HintCounts(es, Clamp(0, min, max)), length, b)
    ensures forall c :: Fits(es, min, max, c, length) ==> b <= c
  {
    if es == [] { assert FitsFrom(es, min, max, min, length); }
  }

  class AddressMap {
    const min: nat
    const max: nat
    var entries: seq<Range>

    ghost predicate Valid()
      reads this
    {
      min <= max && Ordered(entries, min, max)
    }

    constructor (min: nat, max: nat)
      requires min <= max
      ensures Valid() && entries == [] && this.min == min && this.max == max
    {
      this.min, this.max, entries := min, max, [];
    }

    /** `map_lower_bound`: the first entry whose base is at least `addr`. */
    method LowerBound(addr: nat) returns (i: nat)
      ensures i <= |entries| && (i < |entries| ==> addr <= entries[i].base)
      ensures forall j :: 0 <= j < i ==> entries[j].base < addr
    {
      i := 0;
      while i < |entries| && addr > entries[i].base
        invariant i <= |entries| && forall j :: 0 <= j < i ==> entries[j].base < addr
      {
        i := i + 1;
      }
    }

    /** The search without FIXED. `prev` and `next` are positions in the order;
        -1 and the length stand for NULL. */
    method Search(hint: nat, length: nat) returns (r: Outcome)
      requires Valid() && 0 < length <= max - min
      ensures r.Crash? <==> Crashes(entries, min, max, hint, length)
      ensures r.Found? <==> !r.Crash? && Somewhere(entries, min, max, length)
      ensures r.NoSpace? <==> !r.Crash? && !Somewhere(entries, min, max, length)
      ensures r.Found? ==> Fits(entries, min, max, r.base, length)
      ensures Fits(entries, min, max, hint, length) && !r.Crash? ==> (r == Found(hint) <==> HintTaken(entries, min, hint))
      // which range is chosen
      ensures r.Found? ==>
        Chosen(entries, min, max, Clamp(hint, min, max), HintCounts(entries, Clamp(hint, min, max)), length, r.base)
    {
      hide Fits, Somewhere, From, Chosen, FitsFrom;
      var base := hint;
      if base < min { base := min; }
      if base > max { base := max; }
      ghost var h, counts := base, HintCounts(entries, base);
      NothingFits(entries, min, max, length);
      Start(entries, min, max, length);
      if entries == [] {
        if base + length > max {
          base := min;
        }
        EmptyChosen(min, max, h, length, base);
        r := Found(base);
      } else {
        var next: int := LowerBound(base);
        var prev := if next < |entries| then next - 1 else -1;
        if prev == -1 {
          if next == |entries| {
            return Crash;
          }
          assert !counts;
          if entries[next].base >= min + length {
            GapFits(entries, min, max, length, -1, min);
            Take(entries, min, max, length, h, counts, false, min);
            r := Found(min);
          } else {
            SkipGap(entries, min, max, length, min, min, next);
            prev := next;
            next := next + 1;
            r := Scan(hint, length, base, prev, counts);
          }
        } else {
          assert counts;
          BehindEntry(entries, min, max, length, base, prev);
          r := Scan(hint, length, base, prev, counts);
        }
      }
      if r.Found? {
        ChosenFits(entries, min, max, h, counts, length, r.base);
        HintInRange(entries, min, max, hint, length);
        if Fits(entries, min, max, hint, length) { HintChosen(entries, min, max, hint, counts, length, r.base); }
      } else if Fits(entries, min, max, hint, length) {
        FitsSomewhere(entries, min, max, hint, length);
      }
    }

    /** The test of one gap: is there room after entry `prev`, from `base` on? */
    method Room(prev: int, base: nat, length: nat) returns (room: bool, gapStart: nat)
      requires Valid() && -1 <= prev < |entries| && length > 0
      ensures gapStart == if GapStart(entries, min, prev) < base then base else GapStart(entries, min, prev)
      ensures room <==> gapStart + length <= GapEnd(entries, max, prev)
      ensures room ==> Fits(entries, min, max, gapStart, length)
    {
      gapStart := if prev >= 0 then entries[prev].end else min;
      var gapEnd := if prev + 1 < |entries| then entries[prev + 1].base else max;
      if gapStart < base { gapStart := base; }
      room := gapEnd - gapStart >= length;
      if room { GapFits(entries, min, max, length, prev, gapStart); }
    }

    /** The loop over the gaps, from the one after entry `prev0`; `counts` if that
        entry lies below the hint `base0`. */
    method Scan(hint: nat, length: nat, base0: nat, prev0: int, ghost counts: bool) returns (r: Outcome)
      requires Valid() && 0 < length <= max - min && entries != [] && 0 <= prev0 < |entries|
      requires hint == 0 ==> !counts
      requires min <= base0 && (prev0 + 1 < |entries| ==> base0 <= entries[prev0 + 1].base)
      requires prev0 + 1 == |entries| ==> |entries| == 1 && base0 <= entries[0].base && entries[0].base < min + length && !counts
      requires if counts then entries[prev0].base < base0 else base0 <= entries[prev0].base
      requires From(entries, min, max, length, if counts then base0 else min, entries[prev0].end)
      ensures r.Crash? <==> prev0 + 1 == |entries| && max - entries[0].end < length
      ensures r.Found? ==> Chosen(entries, min, max, base0, counts, length, r.base)
      ensures r.NoSpace? ==> !Somewhere(entries, min, max, length)
      ensures r.Crash? || r.Found? || r.NoSpace?
    {
      hide Fits, Somewhere, From, Chosen, FitsFrom;
      var base, prev, next, wrapped := base0, prev0, prev0 + 1, false;
      ghost var lo := if counts then base0 else min;
      while true
        invariant -1 <= prev < |entries| && next == prev + 1
        invariant next == |entries| ==> !wrapped && prev == prev0
        invariant prev0 + 1 == |entries| ==> next == |entries|
        invariant if wrapped then base == lo == min && !(counts && FitsFrom(entries, min, max, base0, length))
                  else base == base0 && prev >= prev0 && lo == if counts then base0 else min
        invariant next < |entries| ==> base <= entries[next].base
        invariant From(entries, min, max, length, lo, GapStart(entries, min, prev))
        decreases !wrapped, |entries| - next
      {
        var room, gapStart := Room(prev, base, length);
        FromStart(entries, min, max, length, lo, GapStart(entries, min, prev), base, gapStart, wrapped || counts);
        if room {
          Take(entries, min, max, length, base0, counts, wrapped, gapStart);
          return Found(gapStart);
        }
        if next == |entries| {
          return Crash;
        }
        SkipGap(entries, min, max, length, lo, gapStart, next);
        prev := next;
        next := next + 1;
        if next == |entries| {
          if entries[prev].end + length <= max {
            GapFits(entries, min, max, length, prev, entries[prev].end);
            Take(entries, min, max, length, base0, counts, wrapped, entries[prev].end);
            return Found(entries[prev].end);
          }
          LastGap(entries, min, max, length, lo);
          if hint == 0 || wrapped {
            NothingFits(entries, min, max, length);
            return NoSpace;
          }
          wrapped := true;
          base, lo := min, min;
          prev := -1;
          next := 0;
          Start(entries, min, max, length);
        }
      }
    }

    /** What `vm_unmap` does to the ranges: each entry keeps what lies outside
        [lo, hi). */
    method Clear(lo: nat, hi: nat)
      requires Valid() && lo < hi
      modifies this`entries
      ensures Valid() && entries == Cleared(old(entries), lo, hi)
    {
      var i := 0;
      var kept: seq<Range> := [];
      while i < |entries|
        invariant entries == old(entries) && i <= |entries| && kept == Cleared(entries[..i], lo, hi)
      {
        hide Cleared, Pieces, Ordered;
        assert entries[..i + 1] == entries[..i] + [entries[i]];
        ClearedLast(entries[..i], entries[i], lo, hi);
        kept := kept + Pieces(entries[i], lo, hi);
        i := i + 1;
      }
      assert entries[..i] == entries;
      ClearedOk(entries, lo, hi, min, max);
      entries := kept;
    }

    /** Insert a range that fits, in order. */
    method Insert(base: nat, length: nat)
      requires Valid() && length > 0 && Fits(entries, min, max, base, length)
      modifies this`entries
      ensures Valid() && forall a :: Mapped(entries, a) <==> Mapped(old(entries), a) || base <= a < base + length
      ensures Range(base, base + length) in entries && forall e :: e in old(entries) ==> e in entries
      ensures |entries| == |old(entries)| + 1
    {
      var i := LowerBound(base);
      InsertOk(entries, min, max, i, Range(base, base + length));
      entries := entries[..i] + [Range(base, base + length)] + entries[i..];
    }

    /** The part of `alloc_map_range_locked` for FIXED. */
    method Claim(hint: nat, length: nat, overwrite: bool) returns (r: Outcome)
      requires Valid() && 0 < length <= max - min
      modifies this`entries
      ensures Valid()
      ensures r == InvalidArgs <==> !(min <= hint && hint + length <= max)
      ensures r == Exists <==> r != InvalidArgs && !Fits(old(entries), min, max, hint, length) && !overwrite
      ensures r == InvalidArgs || r == Exists || r == Found(hint)
      ensures r != Found(hint) ==> entries == old(entries)
      ensures r == Found(hint) ==> Fits(entries, min, max, hint, length)
      ensures r == Found(hint) ==> forall a :: Mapped(entries, a) <==> Mapped(old(entries), a) && !(hint <= a < hint + length)
    {
      hide Fits, Cleared, Mapped;
      if hint < min || hint + length > max {
        return InvalidArgs;
      }
      var next := LowerBound(hint);
      var prev := next - 1;
      NeighboursDecide(entries, min, max, hint, length, next);
      if (prev >= 0 && entries[prev].end > hint) || (next < |entries| && entries[next].base < hint + length) {
        if !overwrite {
          return Exists;
        }
        ClearedFits(entries, min, max, hint, length);
        ClearedMapped(entries, hint, hint + length);
        Clear(hint, hint + length);
      } else {
        FitsUnmapped(entries, min, max, hint, length);
      }
      r := Found(hint);
    }

    /** `alloc_map_range_locked`. */
    method AllocRange(hint: nat, length: nat, fixed: bool, overwrite: bool) returns (r: Outcome)
      requires Valid()
      modifies this`entries
      ensures Valid()
      ensures length == 0 ==> r == InvalidArgs
      ensures length > max - min ==> r == if length == 0 then InvalidArgs else NoSpace
      ensures fixed && 0 < length <= max - min ==>
        && (r == InvalidArgs <==> !(min <= hint && hint + length <= max))
        && (r == Exists <==> r != InvalidArgs && !Fits(old(entries), min, max, hint, length) && !overwrite)
        && (r == InvalidArgs || r == Exists || r == Found(hint))
      ensures !fixed && 0 < length <= max - min ==>
        && (r.Crash? <==> Crashes(old(entries), min, max, hint, length))
        && (r.Found? <==> !r.Crash? && Somewhere(old(entries), min, max, length))
        && (r.NoSpace? <==> !r.Crash? && !Somewhere(old(entries), min, max, length))
        && (Fits(old(entries), min, max, hint, length) && !r.Crash? ==> (r == Found(hint) <==> HintTaken(old(entries), min, hint)))
        && (r.Found? ==>
              Chosen(old(entries), min, max, Clamp(hint, min, max), HintCounts(old(entries), Clamp(hint, min, max)), length, r.base))
      ensures !r.Found? ==> entries == old(entries)
      ensures r.Found? ==> min <= r.base && r.base + length <= max && Range(r.base, r.base + length) in entries
      ensures r.Found? && !fixed ==> Fits(old(entries), min, max, r.base, length) && |entries| == |old(entries)| + 1
      ensures r.Found? ==> forall a :: Mapped(entries, a) <==> Mapped(old(entries), a) || r.base <= a < r.base + length
    {
      hide Ordered, Mapped, Crashes, Somewhere, Chosen, HintCounts;
      if length == 0 {
        return InvalidArgs;
      }
      if length > max - min {
        return NoSpace;
      }
      if fixed {
        r := Claim(hint, length, overwrite);
      } else {
        r := Search(hint, length);
      }
      if r.Found? {
        Insert(r.base, length);
      }
    }
  }

  // Searches that go wrong --------------------------------------------------------

  /** The hint lies above the only entry: the search fails an assertion although
      six pages are free. */
  method HintAbove() returns (m: AddressMap, r: Outcome)
    ensures fresh(m) && m.min == 0 && m.max == 8 && m.entries == [Range(0, 2)]
    ensures r == Crash && Fits(m.entries, 0, 8, 5, 1)
  {
    m := new AddressMap(0, 8);
    r := m.AllocRange(0, 2, false, false);
    assert Somewhere([], 0, 8, 2) by { assert Fits([], 0, 8, 0, 2); }
    r := m.AllocRange(5, 1, false, false);
  }

  /** The only entry leaves too little room on either side: the search follows
      NULL where it should report that there is no space. */
  method NoRoom() returns (m: AddressMap, r: Outcome)
    ensures fresh(m) && m.min == 0 && m.max == 8 && m.entries == [Range(2, 7)]
    ensures r == Crash && !Somewhere(m.entries, 0, 8, 3)
  {
    m := new AddressMap(0, 8);
    r := m.AllocRange(2, 5, false, false);
    assert Somewhere([], 0, 8, 5) by { assert Fits([], 0, 8, 2, 5); }
    r := m.AllocRange(0, 3, false, false);
  }

  /** The hint is free, but lies below the only entry: it is not taken. */
  method HintForgotten() returns (m: AddressMap, r: Outcome)
    ensures fresh(m) && r.Found? && r != Found(2)
    ensures forall a :: Mapped(m.entries, a) <==> a == r.base || 6 <= a < 8
  {
    m := new AddressMap(0, 8);
    r := m.AllocRange(6, 2, false, false);
    assert Somewhere([], 0, 8, 2) by { assert Fits([], 0, 8, 6, 2); }
    var es := m.entries;
    assert es == [Range(6, 8)];
    assert Somewhere(es, 0, 8, 1) by { assert Fits(es, 0, 8, 2, 1); }
    r := m.AllocRange(2, 1, false, false);
  }

  // Clearing a range -------------------------------------------------------------

  /** What is left of an entry outside [lo, hi). */
  function Pieces(e: Range, lo: nat, hi: nat): seq<Range> {
    if e.end <= lo || hi <= e.base then [e]
    else (if e.base < lo then [Range(e.base, lo)] else []) + (if hi < e.end then [Range(hi, e.end)] else [])
  }

  function Cleared(es: seq<Range>, lo: nat, hi: nat): seq<Range> {
    if es == [] then [] else Cleared(es[..|es| - 1], lo, hi) + Pieces(es[|es| - 1], lo, hi)
  }

  lemma ClearedLast(es: seq<Range>, e: Range, lo: nat, hi: nat)
    ensures Cleared(es + [e], lo, hi) == Cleared(es, lo, hi) + Pieces(e, lo, hi)
  {
    assert (es + [e])[..|es|] == es;
  }

  lemma {:induction false} ClearedOk(es: seq<Range>, lo: nat, hi: nat, min: nat, max: nat)
    requires Ordered(es, min, max) && lo < hi
    ensures Ordered(Cleared(es, lo, hi), min, max)
    ensures forall i :: 0 <= i < |Cleared(es, lo, hi)| ==>
      var e := Cleared(es, lo, hi)[i];
      (e.end <= lo || hi <= e.base) && (es != [] ==> e.end <= es[|es| - 1].end)
    decreases |es|
  {
    if es != [] {
      var front, e := es[..|es| - 1], es[|es| - 1];
      ClearedOk(front, lo, hi, min, max);
      var c, p := Cleared(front, lo, hi), Pieces(e, lo, hi);
      assert forall i :: 0 <= i < |c| ==> c[i].end <= e.base;
      PiecesOk(e, lo, hi, min, max);
      Appended(c, p, min, max, e.base);
    }
  }

  lemma PiecesOk(e: Range, lo: nat, hi: nat, min: nat, max: nat)
    requires min <= e.base < e.end <= max && lo < hi
    ensures Ordered(Pieces(e, lo, hi), min, max)
    ensures forall i :: 0 <= i < |Pieces(e, lo, hi)| ==>
      var p := Pieces(e, lo, hi)[i];
      e.base <= p.base < p.end <= e.end && (p.end <= lo || hi <= p.base)
  {
  }

  lemma Appended(c: seq<Range>, p: seq<Range>, min: nat, max: nat, at: nat)
    requires Ordered(c, min, max) && Ordered(p, min, max)
    requires (forall i :: 0 <= i < |c| ==> c[i].end <= at) && forall i :: 0 <= i < |p| ==> at <= p[i].base
    ensures Ordered(c + p, min, max)
  {
  }

  lemma ClearedFits(es: seq<Range>, min: nat, max: nat, base: nat, length: nat)
    requires Ordered(es, min, max) && length > 0 && min <= base && base + length <= max
    ensures Fits(Cleared(es, base, base + length), min, max, base, length)
  {
    ClearedOk(es, base, base + length, min, max);
  }

  /** Clearing unmaps exactly the addresses in the range. */
  lemma {:induction false} ClearedMapped(es: seq<Range>, lo: nat, hi: nat)
    requires forall i :: 0 <= i < |es| ==> es[i].base < es[i].end
    ensures forall a :: Mapped(Cleared(es, lo, hi), a) <==> Mapped(es, a) && !(lo <= a < hi)
    decreases |es|
  {
    if es != [] {
      var front, e := es[..|es| - 1], es[|es| - 1];
      ClearedMapped(front, lo, hi);
      assert es == front + [e];
      forall a ensures Mapped(Cleared(es, lo, hi), a) <==> Mapped(es, a) && !(lo <= a < hi) {
        MappedSplit(Cleared(front, lo, hi), Pieces(e, lo, hi), a);
        MappedSplit(front, [e], a);
        PiecesMapped(e, lo, hi, a);
      }
    }
  }

  lemma MappedSplit(x: seq<Range>, y: seq<Range>, a: int)
    ensures Mapped(x + y, a) <==> Mapped(x, a) || Mapped(y, a)
  {
    if i :| 0 <= i < |x| && x[i].base <= a < x[i].end {
      assert (x + y)[i] == x[i];
    }
    if i :| 0 <= i < |y| && y[i].base <= a < y[i].end {
      assert (x + y)[|x| + i] == y[i];
    }
  }

  lemma PiecesMapped(e: Range, lo: nat, hi: nat, a: int)
    ensures Mapped([e], a) <==> e.base <= a < e.end
    ensures Mapped(Pieces(e, lo, hi), a) <==> e.base <= a < e.end && !(lo <= a < hi)
  {
    assert [e][0] == e;
    var p := Pieces(e, lo, hi);
    if e.base <= a < e.end && !(lo <= a < hi) {
      assert exists i :: 0 <= i < |p| && p[i].base <= a < p[i].end by {
        if e.end <= lo || hi <= e.base || a < lo { assert p[0].base <= a < p[0].end; } else { assert p[|p| - 1].base <= a < p[|p| - 1].end; }
      }
    }
  }

  lemma FitsUnmapped(es: seq<Range>, min: nat, max: nat, base: nat, length: nat)
    requires Fits(es, min, max, base, length) && length > 0
    ensures forall a :: Mapped(es, a) ==> !(base <= a < base + length)
  {
  }

  // Inserting ----------------------------------------------------------------------

  lemma InsertOk(es: seq<Range>, min: nat, max: nat, i: nat, e: Range)
    requires Ordered(es, min, max) && e.base < e.end && Fits(es, min, max, e.base, e.end - e.base) && i <= |es|
    requires (i < |es| ==> e.base <= es[i].base) && forall j :: 0 <= j < i ==> es[j].base < e.base
    ensures var es' := es[..i] + [e] + es[i..];
      && Ordered(es', min, max) && e in es' && (forall x :: x in es ==> x in es')
      && forall a :: Mapped(es', a) <==> Mapped(es, a) || e.base <= a < e.end
  {
    hide Mapped, Fits, Ordered;
    var es' := es[..i] + [e] + es[i..];
    assert es'[i] == e;
    assert es == es[..i] + es[i..];
    InsertOrdered(es, min, max, i, e);
    forall a ensures Mapped(es', a) <==> Mapped(es, a) || e.base <= a < e.end {
      MappedSplit(es[..i], es[i..], a);
      MappedSplit(es[..i] + [e], es[i..], a);
      MappedSplit(es[..i], [e], a);
      PiecesMapped(e, 0, 0, a);
    }
  }

  lemma InsertOrdered(es: seq<Range>, min: nat, max: nat, i: nat, e: Range)
    requires Ordered(es, min, max) && e.base < e.end && Fits(es, min, max, e.base, e.end - e.base) && i <= |es|
    requires (i < |es| ==> e.base <= es[i].base) && forall j :: 0 <= j < i ==> es[j].base < e.base
    ensures Ordered(es[..i] + [e] + es[i..], min, max)
  {
    forall j | 0 <= j < i ensures es[j].end <= e.base {}
    forall j | i <= j < |es| ensures e.end <= es[j].base {}
  }

  /** Only the neighbours of an address can be in the way. */
  lemma NeighboursDecide(es: seq<Range>, min: nat, max: nat, base: nat, length: nat, i: nat)
    requires Ordered(es, min, max) && length > 0 && min <= base && base + length <= max && i <= |es|
    requires (i < |es| ==> base <= es[i].base) && forall j :: 0 <= j < i ==> es[j].base < base
    ensures Fits(es, min, max, base, length) <==>
      !(i > 0 && es[i - 1].end > base) && !(i < |es| && es[i].base < base + length)
  {
  }
}
