/** Arenas that import their spans from one source arena, as `kmem_cache`,
    `kmem_hash` and `vmem_vmem` do from `vmem_internal`. */
module VmemTiers {
  import opened Arithmetic
  import opened VmemTags
  import opened VmemSteps
  import opened VmemArena

  /** `ALIGN_UP` */
  function RoundUp(n: int, quantum: int): (r: int)
    requires quantum > 0
    ensures r % quantum == 0 && n <= r < n + quantum
  {
    assert (n + quantum - 1) / quantum * quantum % quantum == 0 by { NoRemainder((n + quantum - 1) / quantum, quantum); }
    (n + quantum - 1) / quantum * quantum
  }

  /** Every span of the one arena is an allocation of the other. */
  ghost predicate Backed(q: Queue, src: Queue) {
    forall b, m :: HasSpan(q, b, m) ==> Live(src, b, m)
  }

  ghost predicate NoShared(q: Queue, q': Queue) {
    forall b, m :: !(HasSpan(q, b, m) && HasSpan(q', b, m))
  }

  /** Every span of every arena is an allocation of the source, of its own. */
  ghost predicate AllBacked(qs: seq<Queue>, src: Queue) {
    && (forall i :: 0 <= i < |qs| ==> Backed(qs[i], src))
    && (forall i, j :: 0 <= i < j < |qs| ==> NoShared(qs[i], qs[j]))
  }

  class Tiers {
    const source: Arena
    const quantum: int      // of the source
    const kids: seq<Arena>

    /** No two arenas share an object, and their sizes go together. */
    ghost predicate Shape() {
      && quantum > 0 && source.grain >= 2 && quantum % source.grain == 0
      && (forall i :: 0 <= i < |kids| ==> kids[i].grain >= 2 && source.grain % kids[i].grain == 0)
      && (forall i :: 0 <= i < |kids| ==> Apart(source, kids[i]))
      && (forall i, j :: 0 <= i < j < |kids| ==> Apart(kids[i], kids[j]))
    }

    ghost function Queues(): (qs: seq<Queue>)
      reads kids
      ensures |qs| == |kids| && forall i :: 0 <= i < |kids| ==> qs[i] == kids[i].Q()
    {
      seq(|kids|, i requires 0 <= i < |kids| reads kids => kids[i].Q())
    }

    ghost predicate Valid()
      reads source, source.freelists, source.buckets
      reads kids, set k | k in kids :: k.freelists, set k | k in kids :: k.buckets
    {
      Shape() && source.Valid() && (forall i :: 0 <= i < |kids| ==> kids[i].Valid()) && AllBacked(Queues(), source.Q())
    }

    constructor (source: Arena, quantum: int, kids: seq<Arena>)
      requires source.Valid() && source.grain >= 2 && quantum > 0 && quantum % source.grain == 0
      requires forall i :: 0 <= i < |kids| ==>
        Apart(source, kids[i]) && kids[i].Valid() && kids[i].grain >= 2 && source.grain % kids[i].grain == 0 && kids[i].live == {}
      requires forall i, j :: 0 <= i < j < |kids| ==> Apart(kids[i], kids[j])
      ensures Valid() && this.source == source && this.quantum == quantum && this.kids == kids
    {
      this.source, this.quantum, this.kids := source, quantum, kids;
    }

    lemma ShapeAt(i: nat)
      requires Shape() && i < |kids|
      ensures quantum > 0 && source.grain >= 2 && quantum % source.grain == 0 && kids[i].grain >= 2 && source.grain % kids[i].grain == 0
      ensures Apart(source, kids[i]) && forall j :: 0 <= j < |kids| && j != i ==> Apart(kids[j], kids[i]) && Apart(source, kids[j])
    {
    }

    /** `afunc`: the source allocates `n` addresses, a multiple of its quantum. */
    method Import(n: int, bestfit: bool, upper: Source) returns (from: Source)
      requires source.Valid() && source.grain >= 2 && |source.spares| >= 4 && 0 < n < ADDRESSES && n % source.grain == 0
      requires upper.Given? ==>
        n <= upper.size < ADDRESSES && upper.start % source.grain == 0 && upper.size % source.grain == 0
        && Unclaimed(source.Q(), upper.start, upper.size)
      modifies source, source.freelists, source.buckets
      ensures source.Valid()
      ensures from == Refused <==> NoneSuits(old(source.Q()), n, 0, 0) && !upper.Given?
      ensures from == Refused || (from.Given? && from.size == n && from.start % source.grain == 0)
      ensures forall b, m :: Live(source.Q(), b, m) <==> Live(old(source.Q()), b, m) || from == Given(b, m)
      ensures from.Given? ==> forall q :: Backed(q, old(source.Q())) ==> Unclaimed(q, from.start, n) && !HasSpan(q, from.start, n)
    {
      hide Backed, Live, Vac, Unclaimed, HasSpan, Vacated, Spanned, NoneSuits, Choice, LeavesOne, QueueOk, Suitable;
      hide SizesOk, SpanListOk, SparesOk, FreeListsOk, BucketsOk, Quiet;
      ghost var src := source.Q();
      var got := source.XAlloc(n, 0, 0, bestfit, upper);
      from := Refused;
      if got.Got? {
        from := Given(got.addr, n);
        forall q | Backed(q, src) ensures Unclaimed(q, got.addr, n) && !HasSpan(q, got.addr, n) {
          ImportNew(q, src, upper, got.addr, n);
        }
      }
    }

    /** `vmem_alloc` of arena `i`, whose `afunc` is `vmem_alloc` of the source.
        `upper` is what the source's own source gives, if it is asked. */
    method Alloc(i: nat, size: int, bestfit: bool, upper: Source) returns (r: Result)
      requires i < |kids| && Valid() && |kids[i].spares| >= 4 && |source.spares| >= 4
      requires 0 < size && size % kids[i].grain == 0 && RoundUp(size, quantum) < ADDRESSES
      requires upper.Given? ==>
        RoundUp(size, quantum) <= upper.size < ADDRESSES && upper.start % source.grain == 0 && upper.size % source.grain == 0
        && Unclaimed(source.Q(), upper.start, upper.size)
      modifies source, source.freelists, source.buckets, kids[i], kids[i].freelists, kids[i].buckets
      ensures Valid()
      ensures r.Failed? <==> NoneSuits(old(kids[i].Q()), size, 0, 0) && NoneSuits(old(source.Q()), RoundUp(size, quantum), 0, 0) && !upper.Given?
      ensures r.Failed? || r.Got?
      ensures !NoneSuits(old(kids[i].Q()), size, 0, 0) ==> source.Q() == old(source.Q())
      ensures r.Got? && NoneSuits(old(kids[i].Q()), size, 0, 0) ==>
        forall b, m :: Live(source.Q(), b, m) <==> Live(old(source.Q()), b, m) || (b == r.addr && m == RoundUp(size, quantum))
      ensures r.Got? ==> forall b, m :: Live(kids[i].Q(), b, m) <==> Live(old(kids[i].Q()), b, m) || (b == r.addr && m == size)
    {
      hide Live, Vac, Unclaimed, HasSpan, Spanned, NoneSuits, Choice, LeavesOne, QueueOk, Suitable, AllBacked;
      hide SizesOk, SpanListOk, SparesOk, FreeListsOk, BucketsOk, Quiet, Arena.Valid, Shape;
      ghost var qs, src := Queues(), source.Q();
      var kid, n := kids[i], RoundUp(size, quantum);
      ShapeAt(i);
      Grains(n, quantum, source.grain, kid.grain);
      BackedAt(qs, src, i);
      var from := Refused;
      var suits := Suits(kid, size, bestfit);
      if !suits {
        from := Import(n, bestfit, upper);
        if from.Given? { Divides(from.start, source.grain, kid.grain); }
      }
      ghost var src' := source.Q();
      r := AllocIn(kid, size, bestfit, from);
      forall j | 0 <= j < |kids| && j != i ensures kids[j].Valid() && kids[j].Q() == qs[j] {
        assert Apart(kids[j], kid) && Apart(source, kids[j]) && old(kids[j].Valid());
      }
      StillBacked(qs, Queues(), src, src', i, from);
    }

    /** `vmem_free` of arena `i`, whose `ffunc` is `vmem_free` of the source: what
        it gives back to the source, and what the source gives back in turn. */
    method Free(i: nat, addr: int, size: int) returns (back: Source, upper: Source)
      requires i < |kids| && Valid() && Live(kids[i].Q(), addr, size)
      modifies source, source.freelists, source.buckets, kids[i], kids[i].freelists, kids[i].buckets
      ensures Valid()
      ensures forall b, m :: Live(kids[i].Q(), b, m) <==> Live(old(kids[i].Q()), b, m) && !(b == addr && m == size)
      ensures GivesBack(old(kids[i].Q()), addr, back)
      ensures forall b, m :: Live(source.Q(), b, m) <==> Live(old(source.Q()), b, m) && back != Given(b, m)
    {
      hide Live, Vac, HasSpan, QueueOk, AllBacked;
      hide SizesOk, SpanListOk, SparesOk, FreeListsOk, BucketsOk, Quiet, Arena.Valid, Shape;
      ghost var qs, src := Queues(), source.Q();
      var kid := kids[i];
      ShapeAt(i);
      BackedAt(qs, src, i);
      back := kid.XFree(addr, size);
      upper := NoSource;
      GivenSpan(qs[i], src, addr, back);
      if back.Given? {
        upper := source.XFree(back.start, back.size);
      }
      ghost var src' := source.Q();
      ReturnedBacked(qs, Queues(), src, src', i, back);
    }
  }

  ghost predicate Apart(a: Arena, b: Arena) {
    a != b && {a.freelists, a.buckets} !! {b.freelists, b.buckets}
  }

  // Sizes ---------------------------------------------------------------------------

  lemma Divides(a: int, n: int, m: int)
    requires n > 0 && m > 0 && a % n == 0 && n % m == 0
    ensures a % m == 0
  {
    var i, j := a / n, n / m;
    assert a == m * (j * i);
    NoRemainder(j * i, m);
  }

  lemma Grains(n: int, quantum: int, up: int, down: int)
    requires quantum > 0 && up > 0 && down > 0 && n % quantum == 0 && quantum % up == 0 && up % down == 0
    ensures n % up == 0 && n % down == 0
  {
    Divides(n, quantum, up);
    Divides(n, up, down);
  }

  /** Does some segment suit, without an import? */
  method Suits(a: Arena, size: int, bestfit: bool) returns (suits: bool)
    requires a.Valid() && 2 <= size < ADDRESSES
    ensures suits <==> !NoneSuits(a.Q(), size, 0, 0)
  {
    var best, start := a.Search(size, 0, 0, bestfit, a.lost);
    NoneOrSome(a.Q(), best, size, 0, 0);
    suits := best.To?;
  }

  /** The allocation once the source has been asked, if need be. */
  method AllocIn(a: Arena, size: int, bestfit: bool, from: Source) returns (r: Result)
    requires a.Valid() && a.grain >= 2 && |a.spares| >= 4 && 0 < size < ADDRESSES && size % a.grain == 0
    requires from != NoSource && (from.Given? ==> NoneSuits(a.Q(), size, 0, 0))
    requires from.Given? ==>
      size <= from.size < ADDRESSES && from.start % a.grain == 0 && from.size % a.grain == 0 && Unclaimed(a.Q(), from.start, from.size)
    modifies a, a.freelists, a.buckets
    ensures a.Valid() && (r.Failed? || r.Got?)
    ensures r.Failed? <==> NoneSuits(old(a.Q()), size, 0, 0) && !from.Given?
    ensures from.Given? ==> r == Got(from.start)
    ensures forall b, m :: Live(a.Q(), b, m) <==> Live(old(a.Q()), b, m) || (r == Got(b) && m == size)
    ensures forall b, m :: HasSpan(a.Q(), b, m) <==> HasSpan(old(a.Q()), b, m) || from == Given(b, m)
  {
    hide Live, Vac, Unclaimed, HasSpan, Spanned, NoneSuits, Choice, LeavesOne, QueueOk, Suitable;
    hide SizesOk, SpanListOk, SparesOk, FreeListsOk, BucketsOk, Quiet;
    ghost var q := a.Q();
    r := a.XAlloc(size, 0, 0, bestfit, from);
    SpansGained(q, a.Q(), size, from, r);
  }

  // Spans and allocations ----------------------------------------------------------

  /** A live allocation lies in a span. */
  lemma LiveInSpan(q: Queue, b: int, m: int) returns (c: int, n: int)
    requires QueueOk(q) && Live(q, b, m)
    ensures HasSpan(q, c, n) && c <= b && b + m <= c + n && m > 0
  {
    var t :| IsSeg(q, t) && q.tags[t].kind.Allocated? && q.tags[t].start == b && q.tags[t].size == m;
    SegInSpan(q, t);
    c, n := q.tags[q.span[t]].start, q.tags[q.span[t]].size;
  }

  /** What the source allocates anew lies in no span imported before. */
  lemma ImportNew(q: Queue, src: Queue, upper: Source, addr: int, n: int)
    requires QueueOk(src) && Backed(q, src) && n > 0
    requires upper.Given? ==> Unclaimed(src, upper.start, upper.size)
    requires forall x :: addr <= x < addr + n ==> Vacated(src, upper, n, 0, 0, x)
    ensures Unclaimed(q, addr, n) && !HasSpan(q, addr, n)
  {
    forall b, m | HasSpan(q, b, m) ensures b + m <= addr || addr + n <= b {
      var c, k := LiveInSpan(src, b, m);
      if addr < b + m && b < addr + n {
        LiveElsewhere(src, upper, n, b, m, if b < addr then addr else b);
      }
    }
    forall s | s in q.live && s in q.tags && IsSpan(q.tags[s].kind)
      ensures !(addr < End(q.tags[s]) && q.tags[s].start < addr + n)
    {
      assert HasSpan(q, q.tags[s].start, q.tags[s].size);
    }
  }

  lemma LiveElsewhere(src: Queue, upper: Source, size: int, b: int, m: int, x: int)
    requires QueueOk(src) && Live(src, b, m) && b <= x < b + m
    requires upper.Given? ==> Unclaimed(src, upper.start, upper.size)
    ensures !Vacated(src, upper, size, 0, 0, x)
  {
    LiveApart(src, b, m, b, m, x);
    var c, n := LiveInSpan(src, b, m);
  }

  lemma SpansGained(q: Queue, q': Queue, size: int, from: Source, r: Result)
    requires r.Failed? ==> q' == q && !from.Given?
    requires r.Got? ==> forall b, m :: HasSpan(q', b, m) <==> Spanned(q, from, size, 0, 0, b, m)
    requires !r.Crash? && (from.Given? ==> NoneSuits(q, size, 0, 0))
    ensures forall b, m :: HasSpan(q', b, m) <==> HasSpan(q, b, m) || from == Given(b, m)
  {
    hide HasSpan, NoneSuits;
  }

  lemma BackedAt(qs: seq<Queue>, src: Queue, i: nat)
    requires AllBacked(qs, src) && i < |qs|
    ensures Backed(qs[i], src)
  {
  }

  /** An import, or none, by arena `i`. */
  lemma StillBacked(qs: seq<Queue>, qs': seq<Queue>, src: Queue, src': Queue, i: nat, from: Source)
    requires AllBacked(qs, src) && i < |qs| == |qs'| && forall j :: 0 <= j < |qs| && j != i ==> qs'[j] == qs[j]
    requires forall b, m :: HasSpan(qs'[i], b, m) <==> HasSpan(qs[i], b, m) || from == Given(b, m)
    requires forall b, m :: Live(src', b, m) <==> Live(src, b, m) || from == Given(b, m)
    requires from.Given? ==> forall q :: Backed(q, src) ==> !HasSpan(q, from.start, from.size)
    ensures AllBacked(qs', src')
  {
    hide HasSpan, Live;
    forall j | 0 <= j < |qs| ensures Backed(qs'[j], src') && (j != i ==> NoShared(qs'[j], qs'[i]) && NoShared(qs'[i], qs'[j])) {
      assert Backed(qs[j], src);
      assert j < i ==> NoShared(qs[j], qs[i]);
      assert i < j ==> NoShared(qs[i], qs[j]);
    }
    forall j, k | 0 <= j < k < |qs| ensures NoShared(qs'[j], qs'[k]) {
      assert NoShared(qs[j], qs[k]);
    }
  }

  /** Freeing the allocation at `addr` empties an imported span, or does not. */
  ghost predicate GivesBack(q: Queue, addr: int, back: Source) {
    exists s :: IsSpanAt(q, s, addr) && back == Returned(q, s, addr)
  }

  lemma GivenSpan(q: Queue, src: Queue, addr: int, back: Source)
    requires Backed(q, src) && GivesBack(q, addr, back)
    ensures back.Given? ==> HasSpan(q, back.start, back.size) && Live(src, back.start, back.size)
  {
    hide Live;
  }

  /** Arena `i` gives a span back, or none. */
  lemma ReturnedBacked(qs: seq<Queue>, qs': seq<Queue>, src: Queue, src': Queue, i: nat, back: Source)
    requires AllBacked(qs, src) && i < |qs| == |qs'| && forall j :: 0 <= j < |qs| && j != i ==> qs'[j] == qs[j]
    requires back.Given? ==> HasSpan(qs[i], back.start, back.size)
    requires forall b, m :: HasSpan(qs'[i], b, m) <==> HasSpan(qs[i], b, m) && back != Given(b, m)
    requires forall b, m :: Live(src', b, m) <==> Live(src, b, m) && back != Given(b, m)
    ensures AllBacked(qs', src')
  {
    hide HasSpan, Live;
    forall j | 0 <= j < |qs| ensures Backed(qs'[j], src') && (j != i ==> NoShared(qs'[j], qs'[i]) && NoShared(qs'[i], qs'[j])) {
      assert Backed(qs[j], src);
      assert j < i ==> NoShared(qs[j], qs[i]);
      assert i < j ==> NoShared(qs[i], qs[j]);
    }
    forall j, k | 0 <= j < k < |qs| ensures NoShared(qs'[j], qs'[k]) {
      assert NoShared(qs[j], qs[k]);
    }
  }

  /** No address is given out twice, whichever arenas it is asked of: live
      allocations of any two arenas are the same one or have no address in
      common, and they lie in live allocations of the source. */
  lemma AllocationsApart(qs: seq<Queue>, src: Queue, i: nat, j: nat, a: int, n: int, b: int, m: int, x: int)
    requires QueueOk(src) && (forall k :: 0 <= k < |qs| ==> QueueOk(qs[k])) && AllBacked(qs, src)
    requires i < |qs| && j < |qs| && Live(qs[i], a, n) && a <= x < a + n
    ensures exists c, k :: Live(src, c, k) && c <= a && a + n <= c + k
    ensures Live(qs[j], b, m) && b <= x < b + m ==> i == j && a == b && n == m
  {
    hide QueueOk, Live, HasSpan;
    var c, k := LiveInSpan(qs[i], a, n);
    BackedAt(qs, src, i);
    assert Live(src, c, k);
    if Live(qs[j], b, m) && b <= x < b + m {
      var d, l := LiveInSpan(qs[j], b, m);
      BackedAt(qs, src, j);
      LiveApart(src, c, k, d, l, x);
      assert i < j ==> NoShared(qs[i], qs[j]);
      assert j < i ==> NoShared(qs[j], qs[i]);
      LiveApart(qs[i], a, n, b, m, x);
    }
  }
}
