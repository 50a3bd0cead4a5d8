/** A vmem arena in place: tag queue, free lists by size, allocation hash, spans. */
module VmemArena {
  import opened Arithmetic
  import opened Lists
  import opened VmemTags
  import opened VmemSteps

  const FREELIST_COUNT := 64
  const HASH_BUCKET_COUNT := 16
  const ADDRESSES := 0x1_0000_0000_0000_0000

  // Free lists and hash ----------------------------------------------------------

  function Log2(n: int): nat
    requires n >= 1
  {
    if n < 2 then 0 else 1 + Log2(n / 2)
  }

  lemma {:induction false} Log2Bound(n: int, k: nat)
    requires 1 <= n < Pow2(k)
    ensures Log2(n) < k
    decreases n
  {
    if n >= 2 { Log2Bound(n / 2, k - 1); }
  }

  lemma {:induction false} Log2Monotone(a: int, b: int)
    requires 1 <= a <= b
    ensures Log2(a) <= Log2(b)
    decreases b
  {
    if a >= 2 { Log2Monotone(a / 2, b / 2); }
  }

  lemma {:induction false} Pow2Sum(a: nat, b: nat)
    ensures Pow2(a + b) == Pow2(a) * Pow2(b)
    decreases b
  {
    if b > 0 {
      Pow2Sum(a, b - 1);
      assert Pow2(a) * Pow2(b) == 2 * (Pow2(a) * Pow2(b - 1));
    }
  }

  lemma Pow2Of64()
    ensures Pow2(64) == ADDRESSES
  {
    assert Pow2(4) == 16;
    Pow2Sum(4, 4);
    Pow2Sum(8, 8);
    Pow2Sum(16, 16);
    Pow2Sum(32, 32);
  }

  /** `freelist_list`: the index of the free list for segments of this size. */
  function Class(size: int): int
    requires size >= 2
  {
    Log2(size) - 1
  }

  lemma ClassBound(size: int)
    requires 2 <= size < ADDRESSES
    ensures 0 <= Class(size) < FREELIST_COUNT
  {
    Pow2Of64();
    Log2Bound(size, 64);
  }

  lemma {:induction false} LogIs(n: int)
    requires n >= 1
    ensures Pow2(Log2(n)) <= n < Pow2(Log2(n) + 1)
    decreases n
  {
    if n >= 2 { LogIs(n / 2); }
  }

  lemma {:induction false} Pow2Monotone(a: nat, b: nat)
    requires a <= b
    ensures Pow2(a) <= Pow2(b)
    decreases b - a
  {
    if a < b { Pow2Monotone(a + 1, b); }
  }

  /** List `k` is for the sizes from one power of two up to the next. */
  lemma ClassIs(size: int, k: nat)
    requires size >= 2
    ensures Class(size) == k <==> Pow2(k + 1) <= size < Pow2(k + 2)
  {
    LogIs(size);
    var c := Class(size);
    if c < k { Pow2Monotone(c + 2, k + 1); }
    if c > k { Pow2Monotone(k + 2, c + 1); }
  }

  /** A size in no lower list reaches every power of two that the other does. */
  lemma ClassReaches(a: int, b: int, j: nat)
    requires 2 <= a && 2 <= b && Class(a) <= Class(b) && Pow2(j) <= a
    ensures Pow2(j) <= b
  {
    LogIs(a);
    LogIs(b);
    if j > Log2(a) { Pow2Monotone(Log2(a) + 1, j); }
    Pow2Monotone(j, Log2(b));
  }

  ghost predicate Filed(q: Queue, t: nat, k: int) {
    IsSeg(q, t) && q.tags[t].kind.Vacant? && q.tags[t].size >= 2 && Class(q.tags[t].size) == k
  }

  ghost predicate Hashed(q: Queue, t: nat, hash: int -> nat, b: int) {
    IsSeg(q, t) && q.tags[t].kind.Allocated? && hash(q.tags[t].start) % HASH_BUCKET_COUNT == b
  }

  /** Every vacant segment is on the free list of its size, but those in `ex`. */
  ghost predicate FreeListsOk(q: Queue, lists: seq<seq<nat>>, ex: set<nat>) {
    && |lists| == FREELIST_COUNT
    && (forall k :: 0 <= k < FREELIST_COUNT ==> Distinct(lists[k]))
    && (forall k, t :: 0 <= k < FREELIST_COUNT ==> (t in lists[k] <==> t !in ex && Filed(q, t, k)))
  }

  /** Every allocated segment is in the bucket of its address, but those in `ex`. */
  ghost predicate BucketsOk(q: Queue, lists: seq<seq<nat>>, hash: int -> nat, ex: set<nat>) {
    && |lists| == HASH_BUCKET_COUNT
    && (forall b :: 0 <= b < HASH_BUCKET_COUNT ==> Distinct(lists[b]))
    && (forall b, t :: 0 <= b < HASH_BUCKET_COUNT ==> (t in lists[b] <==> t !in ex && Hashed(q, t, hash, b)))
  }

  /** Sizes and addresses are multiples of the grain, and no size is 1: there is
      no free list for it. */
  ghost predicate SizesOk(q: Queue, grain: int)
    requires grain != 0
  {
    forall t :: t in q.live && t in q.tags ==>
      q.tags[t].start % grain == 0 && q.tags[t].size % grain == 0 && 2 <= q.tags[t].size < ADDRESSES
  }

  /** The span list holds the span tags. */
  ghost predicate SpanListOk(q: Queue, list: seq<nat>) {
    Distinct(list) && forall s :: s in list <==> s in q.live && s in q.tags && IsSpan(q.tags[s].kind)
  }

  /** Spare tags are not in use, and no tag is lost but those in `hand`. */
  ghost predicate SparesOk(q: Queue, spares: seq<nat>, hand: set<nat>) {
    && Distinct(spares) && (forall t :: t in spares ==> t in q.tags && t !in q.live && t !in hand)
    && (forall t :: t in q.tags ==> t in q.live || t in spares || t in hand)
    && (forall t :: t in hand ==> t in q.tags && t !in q.live)
  }

  // Finding a segment --------------------------------------------------------------

  function Lo(x: Tag, minaddr: int): int {
    if minaddr != 0 && x.start < minaddr then minaddr else x.start
  }

  function Hi(x: Tag, maxaddr: int): int {
    if maxaddr != 0 && End(x) > maxaddr then maxaddr else End(x)
  }

  predicate Room(x: Tag, size: int, minaddr: int, maxaddr: int) {
    Hi(x, maxaddr) - Lo(x, minaddr) >= size
  }

  /** A vacant segment with room for the request within the bounds. */
  ghost predicate Suitable(q: Queue, t: nat, size: int, minaddr: int, maxaddr: int) {
    IsSeg(q, t) && q.tags[t].kind.Vacant? && Room(q.tags[t], size, minaddr, maxaddr)
  }

  /** So far: what is suitable in the classes below `k` is no better than `best`. */
  ghost predicate Best(q: Queue, best: Ref, size: int, minaddr: int, maxaddr: int, k: int) {
    && (best.To? ==> Suitable(q, best.tag, size, minaddr, maxaddr))
    && forall t, c :: Suitable(q, t, size, minaddr, maxaddr) && Filed(q, t, c) && c < k ==>
         best.To? && q.tags[best.tag].size <= q.tags[t].size
  }

  ghost predicate BestIn(q: Queue, best: Ref, size: int, minaddr: int, maxaddr: int, list: seq<nat>) {
    forall t :: t in list && Suitable(q, t, size, minaddr, maxaddr) ==> best.To? && best.tag in q.tags && q.tags[best.tag].size <= q.tags[t].size
  }

  lemma BestInNone(q: Queue, size: int, minaddr: int, maxaddr: int)
    ensures BestIn(q, Null, size, minaddr, maxaddr, [])
  {
  }

  /** One more segment: it does not suit, or is no better, or is the best. */
  lemma BestInNext(q: Queue, best: Ref, size: int, minaddr: int, maxaddr: int, list: seq<nat>, t: nat)
    requires BestIn(q, best, size, minaddr, maxaddr, list) && t in q.tags && (best.To? ==> best.tag in q.tags)
    ensures !Suitable(q, t, size, minaddr, maxaddr) || (best.To? && q.tags[best.tag].size <= q.tags[t].size) ==>
      BestIn(q, best, size, minaddr, maxaddr, list + [t])
    ensures best.Null? || q.tags[t].size < q.tags[best.tag].size ==> BestIn(q, To(t), size, minaddr, maxaddr, list + [t])
  {
    hide Suitable;
  }

  /** Smaller classes are too small. */
  lemma SmallClasses(q: Queue, size: int, minaddr: int, maxaddr: int)
    requires size >= 2
    ensures Best(q, Null, size, minaddr, maxaddr, Class(size))
  {
    forall t, c | Suitable(q, t, size, minaddr, maxaddr) && Filed(q, t, c) ensures c >= Class(size) {
      Log2Monotone(size, q.tags[t].size);
    }
  }

  /** Larger classes are no better. */
  lemma LargeClasses(q: Queue, best: Ref, size: int, minaddr: int, maxaddr: int, k: int, t: nat, c: int)
    requires Best(q, best, size, minaddr, maxaddr, k) && best.To? && (exists b :: Filed(q, best.tag, b) && b < k)
    requires Suitable(q, t, size, minaddr, maxaddr) && Filed(q, t, c)
    ensures q.tags[best.tag].size <= q.tags[t].size
  {
    var b :| Filed(q, best.tag, b) && b < k;
    if c >= k && q.tags[t].size < q.tags[best.tag].size {
      Log2Monotone(q.tags[t].size, q.tags[best.tag].size);
    }
  }

  /** The source of an arena: none, out of space, or what it gave. */
  datatype Source = NoSource | Refused | Given(start: int, size: int)

  /** `Crash` is a failed assertion, or a step to the list before the first free
      list, where segments of one byte would have to go. */
  datatype Result = Failed | Got(addr: int) | Crash

  /** Cutting the request out of the segment `x` leaves a piece of one byte. */
  predicate LeavesOne(x: Tag, size: int, minaddr: int) {
    Lo(x, minaddr) - x.start == 1 || End(x) - (Lo(x, minaddr) + size) == 1
  }

  /** What `vmem_xalloc` does when no segment suits: it asserts that the request
      is unbounded before it asks the source, and what it imports may be one
      byte too long. */
  predicate ImportCrashes(source: Source, size: int, minaddr: int, maxaddr: int) {
    source != NoSource && (minaddr != 0 || maxaddr != 0 || (source.Given? && source.size == size + 1))
  }

  /** Every power of two that the size of `t` reaches, all suitable segments
      reach: `t` is in the lowest list that has a suitable segment. */
  ghost predicate LowestList(q: Queue, t: nat, size: int, minaddr: int, maxaddr: int)
    requires t in q.tags
  {
    forall u, j: nat :: Suitable(q, u, size, minaddr, maxaddr) && Pow2(j) <= q.tags[t].size ==> Pow2(j) <= q.tags[u].size
  }

  /** A suitable segment of the lowest list that has one, and a smallest one for
      best fit. */
  ghost predicate Choice(q: Queue, t: nat, size: int, minaddr: int, maxaddr: int, bestfit: bool) {
    && Suitable(q, t, size, minaddr, maxaddr) && LowestList(q, t, size, minaddr, maxaddr)
    && (bestfit ==> forall u :: Suitable(q, u, size, minaddr, maxaddr) ==> q.tags[t].size <= q.tags[u].size)
  }

  ghost predicate NoneSuits(q: Queue, size: int, minaddr: int, maxaddr: int) {
    forall t :: !Suitable(q, t, size, minaddr, maxaddr)
  }

  /** [a, a + size) lies in the segment or span `x`, within the bounds. */
  predicate FitsIn(x: Tag, a: int, size: int, minaddr: int, maxaddr: int) {
    x.start <= a && a + size <= End(x) && (minaddr != 0 ==> minaddr <= a) && (maxaddr != 0 ==> a + size <= maxaddr)
  }

  /** A segment has room exactly when the request fits somewhere in it, and is
      cut at the lowest address where it does. */
  lemma LowestCut(x: Tag, size: int, minaddr: int, maxaddr: int)
    requires size >= 0
    ensures Room(x, size, minaddr, maxaddr) <==> exists a :: FitsIn(x, a, size, minaddr, maxaddr)
    ensures Room(x, size, minaddr, maxaddr) ==> FitsIn(x, Lo(x, minaddr), size, minaddr, maxaddr)
    ensures forall a :: FitsIn(x, a, size, minaddr, maxaddr) ==> Lo(x, minaddr) <= a
  {
    if Room(x, size, minaddr, maxaddr) { assert FitsIn(x, Lo(x, minaddr), size, minaddr, maxaddr); }
  }

  /** A stretch of vacant addresses, in one span and within the bounds. */
  ghost predicate Stretch(q: Queue, s: nat, a: int, size: int, minaddr: int, maxaddr: int) {
    && s in q.live && s in q.tags && IsSpan(q.tags[s].kind) && FitsIn(q.tags[s], a, size, minaddr, maxaddr)
    && forall x :: a <= x < a + size ==> Vac(q, x)
  }

  /** Nothing suits exactly when the vacant addresses of no span leave room for
      the request: merging has left no stretch of them in two segments. */
  lemma RoomExact(q: Queue, size: int, minaddr: int, maxaddr: int)
    requires QueueOk(q) && Quiet(q, Null) && size >= 1
    ensures NoneSuits(q, size, minaddr, maxaddr) <==> forall s, a :: !Stretch(q, s, a, size, minaddr, maxaddr)
  {
    hide QueueOk, Quiet, Suitable, Stretch;
    forall t | Suitable(q, t, size, minaddr, maxaddr) ensures exists s, a :: Stretch(q, s, a, size, minaddr, maxaddr) {
      SuitableStretch(q, t, size, minaddr, maxaddr);
    }
    forall s, a | Stretch(q, s, a, size, minaddr, maxaddr) ensures exists t :: Suitable(q, t, size, minaddr, maxaddr) {
      var t := StretchSuits(q, s, a, size, minaddr, maxaddr);
    }
  }

  lemma SuitableStretch(q: Queue, t: nat, size: int, minaddr: int, maxaddr: int)
    requires QueueOk(q) && size >= 1 && Suitable(q, t, size, minaddr, maxaddr)
    ensures t in q.span && Stretch(q, q.span[t], Lo(q.tags[t], minaddr), size, minaddr, maxaddr)
  {
    hide QueueOk;
    TagOk(q, t);
    forall x | Lo(q.tags[t], minaddr) <= x < Lo(q.tags[t], minaddr) + size ensures Vac(q, x) {
      assert At(q, t, x);
    }
  }

  lemma StretchSuits(q: Queue, s: nat, a: int, size: int, minaddr: int, maxaddr: int) returns (t: nat)
    requires QueueOk(q) && Quiet(q, Null) && size >= 1 && Stretch(q, s, a, size, minaddr, maxaddr)
    ensures Suitable(q, t, size, minaddr, maxaddr)
  {
    hide QueueOk;
    assert Vac(q, a);
    t :| At(q, t, a) && q.tags[t].kind.Vacant?;
    if a + size > End(q.tags[t]) {
      var e := End(q.tags[t]);
      var u := SpanCovered(q, s, e);
      assert Vac(q, e);
      var v :| At(q, v, e) && q.tags[v].kind.Vacant?;
      TagOk(q, u);
      SegmentsApart(q, u, v, e);
      StartsBehind(q, t, u, s, a);
      NotBoth(q, u, t);
    }
  }

  lemma NotBoth(q: Queue, t: nat, p: nat)
    requires Quiet(q, Null) && t in q.live && t in q.tags && p in q.tags && q.tags[t].prev == To(p)
    ensures !(q.tags[t].kind.Vacant? && q.tags[p].kind.Vacant?)
  {
    assert QuietAt(q, t, Null);
  }

  /** The segment at the end of another one of its span follows it. */
  lemma StartsBehind(q: Queue, t: nat, u: nat, s: nat, a: int)
    requires QueueOk(q) && At(q, t, a) && At(q, u, End(q.tags[t])) && u in q.span && q.span[u] == s && s in q.tags
    requires q.tags[s].start <= a < End(q.tags[s]) && s in q.live && IsSpan(q.tags[s].kind)
    ensures q.tags[u].prev == To(t)
  {
    hide QueueOk;
    TagOk(q, t);
    TagOk(q, u);
    var w := SpanCovered(q, s, a);
    SegmentsApart(q, w, t, a);
    var last := End(q.tags[t]) - 1;
    Before(q, u);
    if q.tags[u].start <= last {
      TagOk(q, s);
      SegmentsApart(q, t, u, last);
    } else if !IsSpan(q.tags[q.tags[u].prev.tag].kind) {
      SegmentsApart(q, t, q.tags[u].prev.tag, last);
    }
  }

  /** Vacant, perhaps only because it was imported for want of a segment. */
  ghost predicate Vacated(q: Queue, source: Source, size: int, minaddr: int, maxaddr: int, x: int) {
    Vac(q, x) || (NoneSuits(q, size, minaddr, maxaddr) && source.Given? && source.start <= x < source.start + source.size)
  }

  /** What freeing [start, start + size) changes, seen from outside. */
  ghost predicate SameView(q: Queue, q': Queue, start: int, size: int) {
    && (forall x :: Vac(q', x) <==> Vac(q, x) || start <= x < start + size)
    && (forall b, m :: Live(q', b, m) <==> Live(q, b, m) && !(b == start && m == size))
  }

  ghost predicate SpanSame(q: Queue, q': Queue, s: nat) {
    && ((s in q.live && s in q.tags && IsSpan(q.tags[s].kind)) <==> (s in q'.live && s in q'.tags && IsSpan(q'.tags[s].kind)))
    && (s in q.live && s in q.tags && IsSpan(q.tags[s].kind) && s in q'.tags ==>
          q'.tags[s].start == q.tags[s].start && q'.tags[s].size == q.tags[s].size && q'.tags[s].kind == q.tags[s].kind)
  }

  /** The span tags and what they cover stay the same. */
  ghost predicate SpansSame(q: Queue, q': Queue) {
    forall s :: SpanSame(q, q', s)
  }

  /** [b, b + m) is a span. */
  ghost predicate HasSpan(q: Queue, b: int, m: int) {
    exists s :: s in q.live && s in q.tags && IsSpan(q.tags[s].kind) && q.tags[s].start == b && q.tags[s].size == m
  }

  ghost predicate IsSpanAt(q: Queue, s: nat, addr: int) {
    s in q.live && s in q.tags && IsSpan(q.tags[s].kind) && q.tags[s].start <= addr < End(q.tags[s])
  }

  /** A span, perhaps only because it was imported for want of a segment. */
  ghost predicate Spanned(q: Queue, source: Source, size: int, minaddr: int, maxaddr: int, b: int, m: int) {
    HasSpan(q, b, m) || (NoneSuits(q, size, minaddr, maxaddr) && source == Given(b, m))
  }

  /** The allocation at `addr` is the only one in span `s`. */
  ghost predicate OnlyUse(q: Queue, s: nat, addr: int)
    requires s in q.tags
  {
    forall b, m :: Live(q, b, m) && q.tags[s].start <= b < End(q.tags[s]) ==> b == addr
  }

  /** Freeing the allocation at `addr` gives its span `s` back to the source when
      the span is imported and nothing else in it is in use. */
  ghost function Returned(q: Queue, s: nat, addr: int): Source
    requires s in q.tags
  {
    if q.tags[s].kind.Imported? && OnlyUse(q, s, addr) then Given(q.tags[s].start, q.tags[s].size) else NoSource
  }

  class Arena {
    ghost const grain: int  // what all sizes are multiples of: the quantum, if callers keep to it
    const hash: int -> nat
    var tags: map<nat, Tag>
    var head: Ref
    var tail: Ref
    var spans: seq<nat>
    var spares: seq<nat>
    const freelists: array<seq<nat>>
    const buckets: array<seq<nat>>
    ghost var live: set<nat>
    ghost var span: map<nat, nat>
    ghost var rank: map<nat, real>
    ghost var lost: set<nat>        // tags that failed allocations did not give back

    ghost function Q(): Queue
      reads this
    {
      Queue(tags, head, tail, live, span, rank)
    }

    /** Consistent but for the tags in `hand` and the lists not naming those in `ex`. */
    ghost predicate Ok(hand: set<nat>, ex: set<nat>)
      reads this, freelists, buckets
    {
      && grain >= 1 && freelists != buckets
      && QueueOk(Q()) && SizesOk(Q(), grain) && SpanListOk(Q(), spans) && SparesOk(Q(), spares, hand)
      && FreeListsOk(Q(), freelists[..], ex) && BucketsOk(Q(), buckets[..], hash, ex)
    }

    ghost predicate Valid()
      reads this, freelists, buckets
    {
      Ok(lost, {}) && Quiet(Q(), Null)
    }

    /** `vmem_init` of an empty arena, with the tags it may use. */
    constructor (ghost grain: int, hash: int -> nat, spares: seq<nat>)
      requires grain >= 1 && Distinct(spares)
      ensures Valid() && fresh(freelists) && fresh(buckets) && live == lost == {} && this.spares == spares
      ensures this.grain == grain && this.hash == hash
    {
      this.grain := grain;
      this.hash, this.spares := hash, spares;
      tags := map t | t in spares :: Tag(Vacant, 0, 0, Null, Null);
      head, tail, spans := Null, Null, [];
      live, span, rank, lost := {}, map[], map[], {};
      freelists := new seq<nat>[FREELIST_COUNT](_ => []);
      buckets := new seq<nat>[HASH_BUCKET_COUNT](_ => []);
    }

    /** `tag_alloc`, from the tags the arena has in reserve. */
    method TagAlloc(ghost hand: set<nat>, ghost ex: set<nat>) returns (t: nat)
      requires Ok(hand, ex) && spares != []
      modifies this`spares
      ensures Ok(hand + {t}, ex) && t !in hand && t !in live && t in tags && |spares| == |old(spares)| - 1
    {
      t := spares[0];
      assert spares == [t] + spares[1..];
      spares := spares[1..];
    }

    /** `tag_free`. */
    method TagFree(t: nat, ghost hand: set<nat>, ghost ex: set<nat>)
      requires Ok(hand, ex) && t in hand
      modifies this`spares
      ensures Ok(hand - {t}, ex) && |spares| == |old(spares)| + 1
    {
      InsertDistinct(spares, t);
      spares := [t] + spares;
    }

    /** `insert_free`. */
    method InsertFree(t: nat, ghost hand: set<nat>, ghost ex: set<nat>)
      requires Ok(hand, ex) && t in ex && IsSeg(Q(), t) && tags[t].kind.Vacant?
      modifies freelists
      ensures Ok(hand, ex - {t})
    {
      hide QueueOk, SpanListOk, SparesOk, Class, Log2;
      ClassBound(tags[t].size);
      var k := Class(tags[t].size);
      InsertDistinct(freelists[k], t);
      FileFree(Q(), freelists[..], ex, t, k);
      UnhashVacant(Q(), buckets[..], hash, ex, t);
      freelists[k] := [t] + freelists[k];
      assert freelists[..] == old(freelists[..])[k := [t] + old(freelists[k])];
    }

    /** `LIST_REMOVE` from a free list. */
    method RemoveFree(t: nat, ghost hand: set<nat>, ghost ex: set<nat>)
      requires Ok(hand, ex) && t !in ex && IsSeg(Q(), t) && tags[t].kind.Vacant?
      modifies freelists
      ensures Ok(hand, ex + {t})
    {
      hide QueueOk, SpanListOk, SparesOk, Class, Log2;
      ClassBound(tags[t].size);
      var k := Class(tags[t].size);
      WithoutOk(freelists[k], t);
      UnfileFree(Q(), freelists[..], ex, t, k);
      UnhashVacant(Q(), buckets[..], hash, ex, t);
      freelists[k] := Without(freelists[k], t);
      assert freelists[..] == old(freelists[..])[k := Without(old(freelists[k]), t)];
    }

    /** `insert_alloc`. */
    method InsertAlloc(t: nat, ghost hand: set<nat>, ghost ex: set<nat>)
      requires Ok(hand, ex) && t in ex && IsSeg(Q(), t) && tags[t].kind.Allocated?
      modifies buckets
      ensures Ok(hand, ex - {t})
    {
      hide QueueOk, SpanListOk, SparesOk, SizesOk;
      var b := hash(tags[t].start) % HASH_BUCKET_COUNT;
      InsertDistinct(buckets[b], t);
      FileAlloc(Q(), buckets[..], hash, ex, t, b);
      UnfileAllocated(Q(), freelists[..], ex, t);
      buckets[b] := [t] + buckets[b];
      assert buckets[..] == old(buckets[..])[b := [t] + old(buckets[b])];
    }

    /** `LIST_REMOVE` from a bucket. */
    method RemoveAlloc(t: nat, ghost hand: set<nat>, ghost ex: set<nat>)
      requires Ok(hand, ex) && t !in ex && IsSeg(Q(), t) && tags[t].kind.Allocated?
      modifies buckets
      ensures Ok(hand, ex + {t})
    {
      hide QueueOk, SpanListOk, SparesOk, SizesOk;
      var b := hash(tags[t].start) % HASH_BUCKET_COUNT;
      WithoutOk(buckets[b], t);
      UnhashAlloc(Q(), buckets[..], hash, ex, t, b);
      UnfileAllocated(Q(), freelists[..], ex, t);
      buckets[b] := Without(buckets[b], t);
      assert buckets[..] == old(buckets[..])[b := Without(old(buckets[b]), t)];
    }

    /** `lookup_alloc`. */
    method LookupAlloc(addr: int, ghost hand: set<nat>) returns (r: Ref)
      requires Ok(hand, {})
      ensures r.To? ==> IsSeg(Q(), r.tag) && tags[r.tag].kind.Allocated? && tags[r.tag].start == addr
      ensures r.Null? ==> forall n :: !Live(Q(), addr, n)
    {
      hide QueueOk, SpanListOk, SparesOk, SizesOk, FreeListsOk, BucketsOk;
      var b := hash(addr) % HASH_BUCKET_COUNT;
      InBucket(Q(), buckets[..], hash, b);
      var list := buckets[b];
      assert list == buckets[..][b];
      var i := 0;
      while i < |list|
        invariant i <= |list|
        invariant forall j :: 0 <= j < i ==> list[j] in tags && tags[list[j]].start != addr
      {
        var t := list[i];
        assert t in list;
        if tags[t].start == addr {
          return To(t);
        }
        i := i + 1;
      }
      r := Null;
      forall n ensures !Live(Q(), addr, n) {
        forall t ensures !(IsSeg(Q(), t) && tags[t].kind.Allocated? && tags[t].start == addr) {
          assert Hashed(Q(), t, hash, b) ==> t in list;
        }
      }
    }

    /** The search of `vmem_xalloc`: instant fit takes the first suitable segment
        it comes to, best fit a smallest one. */
    method Search(size: int, minaddr: int, maxaddr: int, bestfit: bool, ghost hand: set<nat>) returns (best: Ref, start: int)
      requires Ok(hand, {}) && 2 <= size < ADDRESSES && 0 <= minaddr && 0 <= maxaddr && (maxaddr != 0 ==> minaddr <= maxaddr)
      ensures best.Null? ==> forall t :: !Suitable(Q(), t, size, minaddr, maxaddr)
      ensures best.To? ==> Suitable(Q(), best.tag, size, minaddr, maxaddr) && start == Lo(tags[best.tag], minaddr)
      ensures best.To? ==> Choice(Q(), best.tag, size, minaddr, maxaddr, bestfit)
    {
      hide QueueOk, SpanListOk, SparesOk, BucketsOk, Class, Log2, LowestList;
      best, start := Null, 0;
      ClassBound(size);
      SmallClasses(Q(), size, minaddr, maxaddr);
      InLists(Q(), freelists[..]);
      var k := Class(size);
      while k < FREELIST_COUNT && best.Null?
        invariant 0 <= k <= FREELIST_COUNT
        invariant Best(Q(), best, size, minaddr, maxaddr, k)
        invariant best.To? ==> start == Lo(tags[best.tag], minaddr) && exists b :: Filed(Q(), best.tag, b) && b < k
      {
        var found;
        best, start, found := SearchList(size, minaddr, maxaddr, bestfit, k, hand);
        if found {
          LowestFound(Q(), grain, best.tag, size, minaddr, maxaddr, k);
          return;
        }
        k := k + 1;
      }
      SearchDone(Q(), freelists[..], grain, best, size, minaddr, maxaddr, k);
    }

    /** One free list; `found` when instant fit is done. */
    method SearchList(size: int, minaddr: int, maxaddr: int, bestfit: bool, k: int, ghost hand: set<nat>)
      returns (best: Ref, start: int, found: bool)
      requires Ok(hand, {}) && 2 <= size && 0 <= minaddr && 0 <= maxaddr && (maxaddr != 0 ==> minaddr <= maxaddr)
      requires 0 <= k < FREELIST_COUNT && Best(Q(), Null, size, minaddr, maxaddr, k)
      ensures found ==> !bestfit && best.To? && Filed(Q(), best.tag, k)
      ensures best.To? ==> Suitable(Q(), best.tag, size, minaddr, maxaddr) && start == Lo(tags[best.tag], minaddr)
      ensures !found ==> Best(Q(), best, size, minaddr, maxaddr, k + 1)
      ensures best.To? ==> exists b :: Filed(Q(), best.tag, b) && b < k + 1
    {
      hide QueueOk, SpanListOk, SparesOk, BucketsOk, Class, Log2, FreeListsOk, SizesOk, Filed, Best, BestIn;
      best, start, found := Null, 0, false;
      InList(Q(), freelists[..], k);
      var list := freelists[k];
      assert list == freelists[..][k];
      BestInNone(Q(), size, minaddr, maxaddr);
      var i := 0;
      while i < |list|
        invariant i <= |list|
        invariant best.To? ==> best.tag in list && Suitable(Q(), best.tag, size, minaddr, maxaddr) && start == Lo(tags[best.tag], minaddr)
        invariant best.To? ==> bestfit
        invariant BestIn(Q(), best, size, minaddr, maxaddr, list[..i])
      {
        var t := list[i];
        assert t in list && list[..i + 1] == list[..i] + [t];
        BestInNext(Q(), best, size, minaddr, maxaddr, list[..i], t);
        i := i + 1;
        var x := tags[t];
        if minaddr != 0 && End(x) <= minaddr {
          continue;
        }
        if maxaddr != 0 && x.start >= maxaddr {
          continue;
        }
        var curStart, curSize := x.start, x.size;
        if minaddr != 0 && curStart < minaddr {
          curSize := curSize - (minaddr - curStart);
          curStart := minaddr;
        }
        if maxaddr != 0 && curStart + curSize > maxaddr {
          curSize := maxaddr - curStart;
        }
        if curSize < size {
          continue;
        }
        if !bestfit {
          assert Filed(Q(), t, k);
          best, start, found := To(t), curStart, true;
          return;
        } else if best.Null? || x.size < tags[best.tag].size {
          best, start := To(t), curStart;
        }
      }
      assert list[..i] == list;
      ListDone(Q(), freelists[..], best, size, minaddr, maxaddr, k);
    }

    /** `split_seg`: [at, at + size) of segment `t`, which is off its list, is
        allocated. The queue is brought up to date before the lists. */
    method SplitSeg(t: nat, at: int, size: int, left: nat, right: nat)
      requires Ok(lost + {left, right}, {t}) && Quiet(Q(), Null) && left != right && left !in lost && right !in lost
      requires IsSeg(Q(), t) && tags[t].kind.Vacant? && tags[t].start <= at && 0 < size && at + size <= End(tags[t])
      requires at % grain == 0 && size % grain == 0
      requires size >= 2 && at - tags[t].start != 1 && End(tags[t]) - (at + size) != 1
      modifies this`tags, this`tail, this`live, this`span, this`spares, freelists, buckets
      ensures Valid() && |spares| >= |old(spares)| && left !in old(live) && right !in old(live)
      ensures Q() == Carve(old(Q()), t, at, size, left, right)
    {
      hide QueueOk, SizesOk, SpanListOk, SparesOk, FreeListsOk, BucketsOk, Quiet, Carve;
      ghost var q := Q();
      HandSpare(q, spares, lost + {left, right}, left);
      HandSpare(q, spares, lost + {left, right}, right);
      var cutLeft, cutRight := at > tags[t].start, at + size < End(tags[t]);
      CarveOk(q, t, at, size, left, right);
      CarveKeeps(q, t, at, size, left, right, grain, spans, spares, lost, freelists[..], buckets[..], hash);
      Cut(t, at, size, left, right);
      ghost var ex := {t, left, right};
      ghost var hand := lost + (if cutLeft then {} else {left}) + (if cutRight then {} else {right});
      CarveSegs(q, t, at, size, left, right);
      FileOrSpare(left, cutLeft, hand, ex);
      hand, ex := hand - {left}, ex - {left};
      FileOrSpare(right, cutRight, hand, ex);
      hand, ex := hand - {right}, ex - {right};
      InsertAlloc(t, hand, ex);
      assert hand == lost && ex - {t} == {};
    }

    /** A remainder goes on its free list; a tag not needed goes back. */
    method FileOrSpare(t: nat, used: bool, ghost hand: set<nat>, ghost ex: set<nat>)
      requires Ok(hand, ex) && t in ex
      requires if used then IsSeg(Q(), t) && tags[t].kind.Vacant? && t !in hand else !IsSeg(Q(), t) && t in hand
      modifies this`spares, freelists
      ensures Ok(hand - {t}, ex - {t}) && |spares| >= |old(spares)|
    {
      hide QueueOk, SizesOk, SpanListOk, SparesOk, FreeListsOk, BucketsOk;
      if used {
        InsertFree(t, hand, ex);
        assert hand - {t} == hand;
      } else {
        TagFree(t, hand, ex);
        LeaveOut(Q(), freelists[..], buckets[..], hash, ex, t);
      }
    }

    /** The queue part of `split_seg`. */
    method Cut(t: nat, at: int, size: int, left: nat, right: nat)
      requires QueueOk(Q()) && IsSeg(Q(), t) && tags[t].kind.Vacant? && left !in live && right !in live && left != right
      requires tags[t].start <= at && 0 < size && at + size <= End(tags[t])
      modifies this`tags, this`tail, this`live, this`span
      ensures Q() == Carve(old(Q()), t, at, size, left, right)
    {
      hide QueueOk, CutLeft, CutRight;
      ghost var q := Q();
      SegHasPrev(q, t);
      NextLive(q, t);
      var end := End(tags[t]);
      SetKindOk(q, t, Allocated);
      tags := tags[t := tags[t].(kind := Allocated)];
      if at > tags[t].start {
        CutOffLeft(t, at, left);
      }
      if at + size < end {
        CutOffRight(t, at + size, right);
      }
    }

    method CutOffLeft(t: nat, at: int, left: nat)
      requires QueueOk(Q()) && IsSeg(Q(), t) && left !in live && tags[t].start < at < End(tags[t])
      modifies this`tags, this`live, this`span
      ensures t in old(Q()).span && old(tags[t].prev).To? && old(tags[t].prev).tag in old(tags)
      ensures Q() == CutLeft(old(Q()), t, at, left) && QueueOk(Q()) && IsSeg(Q(), t)
      ensures End(tags[t]) == old(End(tags[t])) && tags[t].start == at && live == old(live) + {left}
    {
      hide QueueOk;
      ghost var q := Q();
      SegHasPrev(q, t);
      CutLeftOk(q, t, at, left);
      var p, x := tags[t].prev.tag, tags[t];
      tags := tags[left := Tag(Vacant, x.start, at - x.start, x.prev, To(t))];
      tags := tags[p := tags[p].(next := To(left))];
      tags := tags[t := x.(start := at, size := End(x) - at, prev := To(left))];
      live, span := live + {left}, span[left := span[t]];
    }

    method CutOffRight(t: nat, at: int, right: nat)
      requires QueueOk(Q()) && IsSeg(Q(), t) && right !in live && tags[t].start < at < End(tags[t])
      modifies this`tags, this`tail, this`live, this`span
      ensures t in old(Q()).span && Q() == CutRight(old(Q()), t, at, right)
    {
      hide QueueOk;
      ghost var q := Q();
      SegHasPrev(q, t);
      NextLive(q, t);
      CutRightOk(q, t, at, right);
      var x := tags[t];
      tags := tags[right := Tag(Vacant, at, End(x) - at, To(t), x.next)];
      if x.next.To? {
        var n := x.next.tag;
        tags := tags[n := tags[n].(prev := To(right))];
      } else {
        tail := To(right);
      }
      tags := tags[t := x.(size := at - x.start, next := To(right))];
      live, span := live + {right}, span[right := span[t]];
    }

    /** `vmem_add_locked`: a new span with one vacant segment. */
    method AddLocked(addr: int, size: int, kind: Kind, ghost hand: set<nat>)
      requires Ok(hand, {}) && Quiet(Q(), Null) && |spares| >= 2 && IsSpan(kind)
      requires addr % grain == 0 && size % grain == 0 && 2 <= size < ADDRESSES && Unclaimed(Q(), addr, size)
      modifies this`tags, this`head, this`tail, this`spans, this`spares, this`live, this`span, this`rank, freelists
      ensures Ok(hand, {}) && Quiet(Q(), Null) && |spares| == |old(spares)| - 2
      ensures forall x :: Vac(Q(), x) <==> Vac(old(Q()), x) || addr <= x < addr + size
      ensures forall b, m :: Live(Q(), b, m) <==> Live(old(Q()), b, m)
      ensures exists f :: Added(old(Q()), Q(), f, addr, size)
      ensures forall b, m :: HasSpan(Q(), b, m) <==> HasSpan(old(Q()), b, m) || (b == addr && m == size)
    {
      hide QueueOk, SizesOk, SpanListOk, SparesOk, FreeListsOk, BucketsOk, Quiet, Added, Vac, Live, HasSpan;
      ghost var q0 := Q();
      var s := TagAlloc(hand, {});
      var f := TagAlloc(hand + {s}, {});
      ghost var q := Q();
      HeadIsSpan(q);
      SpanTags(q, spans);
      var n, i := head, 0;
      if kind != Imported {
        while i < |spans| && tags[spans[i]].start <= addr
          invariant 0 <= i <= |spans|
        {
          i := i + 1;
        }
        if i > 0 {
          n := if i < |spans| then To(spans[i]) else Null;
        }
      }
      HandSpare(q, spares, hand + {s} + {f}, s);
      HandSpare(q, spares, hand + {s} + {f}, f);
      AddSpanOk(q, s, f, kind, addr, size, n);
      AddSpanEffect(q, s, f, kind, addr, size, n);
      AddKeeps(q, s, f, kind, addr, size, n, grain, spans, i, spares, hand, freelists[..], buckets[..], hash);
      spans := spans[..i] + [s] + spans[i..];
      LinkSpan(s, f, kind, addr, size, n);
      AddView(q, Q(), f, addr, size);
      AddSpans(q, Q(), s, f);
      InsertFree(f, hand, {f});
      assert {f} - {f} == {};
    }

    /** The queue part of `vmem_add_locked`. */
    method LinkSpan(s: nat, f: nat, kind: Kind, addr: int, size: int, n: Ref)
      requires QueueOk(Q()) && s !in live && f !in live && s != f && (n.To? ==> n.tag in live && n.tag in tags)
      modifies this`tags, this`head, this`tail, this`live, this`span, this`rank
      ensures Q() == AddSpan(old(Q()), s, f, kind, addr, size, n)
    {
      ghost var q := Q();
      if n.To? { assert LinkOk(q, n.tag); }
      var p := if n.To? then tags[n.tag].prev else tail;
      rank := rank[s := NewRank(q, p, n)];
      if n.To? {
        tags := tags[n.tag := tags[n.tag].(prev := To(f))];
      } else {
        tail := To(f);
      }
      if p.To? {
        tags := tags[p.tag := tags[p.tag].(next := To(s))];
      } else {
        head := To(s);
      }
      tags := tags[s := Tag(kind, addr, size, p, To(f))];
      tags := tags[f := Tag(Vacant, addr, size, To(s), n)];
      live, span := live + {s, f}, span[f := s];
    }

    /** `vmem_xalloc`. A failure keeps two tags for ever. */
    method XAlloc(size: int, minaddr: int, maxaddr: int, bestfit: bool, source: Source) returns (r: Result)
      requires Valid() && |spares| >= 4 && 0 < size < ADDRESSES && size % grain == 0
      requires 0 <= minaddr && 0 <= maxaddr && (maxaddr != 0 ==> minaddr <= maxaddr) && minaddr % grain == 0
      requires source.Given? ==>
        size <= source.size < ADDRESSES && source.start % grain == 0 && source.size % grain == 0 && Unclaimed(Q(), source.start, source.size)
      modifies this, freelists, buckets
      ensures !r.Crash? ==> Valid()
      // how it ends
      ensures size == 1 ==> r.Crash?
      ensures size >= 2 && NoneSuits(old(Q()), size, minaddr, maxaddr) ==>
        && (r.Crash? <==> ImportCrashes(source, size, minaddr, maxaddr))
        && (r.Failed? <==> !r.Crash? && !source.Given?)
        && (r.Got? ==> r.addr == source.start)
      ensures size >= 2 && !NoneSuits(old(Q()), size, minaddr, maxaddr) ==>
        exists t :: Choice(old(Q()), t, size, minaddr, maxaddr, bestfit)
          && r == if LeavesOne(old(Q()).tags[t], size, minaddr) then Crash else Got(Lo(old(Q()).tags[t], minaddr))
      ensures grain >= 2 && (minaddr == maxaddr == 0 || source == NoSource) ==> !r.Crash?
      // what it leaves behind
      ensures r.Failed? ==> Q() == old(Q()) && |spares| == |old(spares)| - 2 && lost > old(lost)
      ensures r.Got? ==> lost == old(lost)
      ensures r.Got? ==> (minaddr != 0 ==> minaddr <= r.addr) && (maxaddr != 0 ==> r.addr + size <= maxaddr)
      ensures r.Got? ==> forall x :: Vac(Q(), x) <==> Vacated(old(Q()), source, size, minaddr, maxaddr, x) && !(r.addr <= x < r.addr + size)
      ensures r.Got? ==> forall x :: r.addr <= x < r.addr + size ==> Vacated(old(Q()), source, size, minaddr, maxaddr, x)
      ensures r.Got? ==> forall b, m :: Live(Q(), b, m) <==> Live(old(Q()), b, m) || (b == r.addr && m == size)
      ensures r.Got? ==> r.addr % grain == 0
      ensures r.Got? ==> forall b, m :: HasSpan(Q(), b, m) <==> Spanned(old(Q()), source, size, minaddr, maxaddr, b, m)
    {
      hide QueueOk, SizesOk, SpanListOk, SparesOk, FreeListsOk, BucketsOk, Quiet, Suitable, LowestList, Unclaimed, Vac, Live, Added, HasSpan, SpansSame;
      ghost var q0 := Q();
      var left := TagAlloc(lost, {});
      var right := TagAlloc(lost + {left}, {});
      ghost var hand := lost + {left} + {right};
      assert hand == lost + {left, right};
      if size == 1 {
        return Crash;
      }
      var best, start := Search(size, minaddr, maxaddr, bestfit, hand);
      assert Q() == q0;
      NoneOrSome(q0, best, size, minaddr, maxaddr);
      if best.Null? {
        if source == NoSource {
          lost := hand;
          return Failed;
        }
        if minaddr != 0 || maxaddr != 0 {
          return Crash;
        }
        if source == Refused {
          lost := hand;
          return Failed;
        }
        best, start := ImportSpan(source, size, bestfit, hand);
      }
      GrainSafe(Q(), grain, best.tag, size, minaddr, maxaddr);
      if LeavesOne(tags[best.tag], size, minaddr) {
        return Crash;
      }
      ghost var q := Q();
      TakeFrom(best.tag, start, size, minaddr, maxaddr, left, right);
      SameSpans(q, Q());
      r := Got(start);
    }

    /** What the source gave becomes a span, whose segment is found. */
    method ImportSpan(source: Source, size: int, bestfit: bool, ghost hand: set<nat>) returns (best: Ref, start: int)
      requires Ok(hand, {}) && Quiet(Q(), Null) && |spares| >= 2 && 2 <= size && NoneSuits(Q(), size, 0, 0)
      requires source.Given? && size <= source.size < ADDRESSES && Unclaimed(Q(), source.start, source.size)
      requires source.start % grain == 0 && source.size % grain == 0
      modifies this`tags, this`head, this`tail, this`spans, this`spares, this`live, this`span, this`rank, freelists
      ensures Ok(hand, {}) && Quiet(Q(), Null)
      ensures best.To? && Suitable(Q(), best.tag, size, 0, 0) && start == tags[best.tag].start == source.start && tags[best.tag].size == source.size
      ensures forall x :: Vac(Q(), x) <==> Vac(old(Q()), x) || source.start <= x < source.start + source.size
      ensures forall b, m :: Live(Q(), b, m) <==> Live(old(Q()), b, m)
      ensures forall b, m :: HasSpan(Q(), b, m) <==> HasSpan(old(Q()), b, m) || source == Given(b, m)
    {
      hide QueueOk, SizesOk, SpanListOk, SparesOk, FreeListsOk, BucketsOk, Quiet, Suitable, Unclaimed, Vac, Live, Added, HasSpan;
      ghost var q0 := Q();
      AddLocked(source.start, source.size, Imported, hand);
      ImportSuits(q0, Q(), source.start, source.size, size);
      best, start := Search(size, 0, 0, bestfit, hand);
      NoneOrSome(Q(), best, size, 0, 0);
      ImportTaken(q0, Q(), best.tag, source.start, source.size, size);
    }

    /** [start, start + size) of the vacant segment `t` becomes allocated. */
    method TakeFrom(t: nat, start: int, size: int, minaddr: int, maxaddr: int, left: nat, right: nat)
      requires Ok(lost + {left, right}, {}) && Quiet(Q(), Null) && left != right && left !in lost && right !in lost
      requires Suitable(Q(), t, size, minaddr, maxaddr) && start == Lo(tags[t], minaddr)
      requires 2 <= size && size % grain == 0 && 0 <= minaddr && 0 <= maxaddr && minaddr % grain == 0
      requires !LeavesOne(tags[t], size, minaddr)
      modifies this`tags, this`tail, this`live, this`span, this`spares, freelists, buckets
      ensures Valid() && |spares| >= |old(spares)| && SpansSame(old(Q()), Q()) && start % grain == 0
      ensures (minaddr != 0 ==> minaddr <= start) && (maxaddr != 0 ==> start + size <= maxaddr)
      ensures forall x :: Vac(Q(), x) <==> Vac(old(Q()), x) && !(start <= x < start + size)
      ensures forall x :: start <= x < start + size ==> Vac(old(Q()), x)
      ensures forall b, m :: Live(Q(), b, m) <==> Live(old(Q()), b, m) || (b == start && m == size)
    {
      hide QueueOk, SizesOk, SpanListOk, SparesOk, FreeListsOk, BucketsOk, Quiet, Suitable, Vac, Live, SpansSame;
      ghost var q := Q();
      SuitRoom(q, t, size, minaddr, maxaddr, grain);
      RemoveFree(t, lost + {left, right}, {});
      assert {} + {t} == {t};
      SplitSeg(t, start, size, left, right);
      CarveEffect(q, t, start, size, left, right);
      CarveSpansSame(q, t, start, size, left, right);
      CarvedFrom(q, t, start, size);
    }

    /** `TAILQ_REMOVE`. */
    method Unlink(t: nat)
      requires QueueOk(Q()) && t in live && t in tags
      modifies this`tags, this`head, this`tail, this`live
      ensures Q() == Removed(old(Q()), t)
    {
      assert LinkOk(Q(), t);
      var x := tags[t];
      if x.next.To? {
        tags := tags[x.next.tag := tags[x.next.tag].(prev := x.prev)];
      } else {
        tail := x.prev;
      }
      if x.prev.To? {
        tags := tags[x.prev.tag := tags[x.prev.tag].(next := x.next)];
      } else {
        head := x.next;
      }
      live := live - {t};
    }

    /** The freed segment `t`, off its bucket, becomes vacant. */
    method Vacate(t: nat, ghost hand: set<nat>)
      requires Ok(hand, {t}) && Quiet(Q(), Null) && IsSeg(Q(), t) && tags[t].kind.Allocated?
      modifies this`tags
      ensures Ok(hand, {t}) && Quiet(Q(), To(t)) && IsSeg(Q(), t) && Q() == SetKind(old(Q()), t, Vacant)
      ensures SameView(old(Q()), Q(), old(tags[t].start), old(tags[t].size))
    {
      hide QueueOk, SizesOk, SpanListOk, SparesOk, FreeListsOk, BucketsOk, Quiet, SameView, SameOutside;
      ghost var q := Q();
      SetKindOk(q, t, Vacant);
      SetVacant(q, t);
      VacateKeeps(q, t, grain, spans, spares, hand);
      ListsKept(q, SetKind(q, t, Vacant), {t}, freelists[..], buckets[..], hash);
      VacateView(q, t);
      tags := tags[t := tags[t].(kind := Vacant)];
    }

    /** `t` is joined to the vacant segment `p` on its left. */
    method MergeLeft(p: nat, t: nat, ghost hand: set<nat>)
      requires Ok(hand, {t}) && Quiet(Q(), To(t)) && IsSeg(Q(), t) && IsSeg(Q(), p) && tags[t].kind.Vacant? && tags[p].kind.Vacant?
      requires tags[t].prev == To(p) && !VacantRef(Q(), tags[p].prev)
      modifies this`tags, this`head, this`tail, this`live, this`spares, freelists
      ensures Ok(hand, {p}) && Quiet(Q(), To(p)) && IsSeg(Q(), p) && tags[p].kind.Vacant? && !VacantRef(Q(), tags[p].prev)
      ensures forall x :: Vac(Q(), x) <==> Vac(old(Q()), x)
      ensures forall b, m :: Live(Q(), b, m) <==> Live(old(Q()), b, m)
      ensures span == old(span) && p in span && t in span && span[p] == span[t] && SpansSame(old(Q()), Q())
    {
      hide QueueOk, SizesOk, SpanListOk, SparesOk, FreeListsOk, BucketsOk, Quiet, SameOutside, SpansSame;
      RemoveFree(p, hand, {t});
      ghost var q := Q();
      SameSpanAs(q, p, t);
      JoinLeftOk(q, p, t);
      JoinLeftEffect(q, p, t);
      JoinLeftQuiet(q, p, t);
      JoinLeftKeeps(q, p, t, grain, spans, spares, hand, freelists[..], buckets[..], hash);
      JoinLeftTags(q, p, t);
      JoinView(q, JoinLeft(q, p, t), p, t, p, t);
      HandSpare'(q, spares, hand, t);
      var size := tags[p].size + tags[t].size;
      Unlink(t);
      tags := tags[p := tags[p].(size := size)];
      TagFree(t, hand + {t}, {p});
      assert hand + {t} - {t} == hand;
    }

    /** `t` is joined to the vacant segment `n` on its right. */
    method MergeRight(t: nat, n: nat, ghost hand: set<nat>)
      requires Ok(hand, {t}) && Quiet(Q(), To(t)) && IsSeg(Q(), t) && IsSeg(Q(), n) && tags[t].kind.Vacant? && tags[n].kind.Vacant?
      requires tags[t].next == To(n) && !VacantRef(Q(), tags[t].prev)
      modifies this`tags, this`head, this`tail, this`live, this`spares, freelists
      ensures Ok(hand, {n}) && Quiet(Q(), Null) && IsSeg(Q(), n) && tags[n].kind.Vacant?
      ensures forall x :: Vac(Q(), x) <==> Vac(old(Q()), x)
      ensures forall b, m :: Live(Q(), b, m) <==> Live(old(Q()), b, m)
      ensures span == old(span) && n in span && t in span && span[n] == span[t] && SpansSame(old(Q()), Q())
    {
      hide QueueOk, SizesOk, SpanListOk, SparesOk, FreeListsOk, BucketsOk, Quiet, SameOutside, SpansSame;
      PrevIs(Q(), t, n);
      RemoveFree(n, hand, {t});
      ghost var q := Q();
      SameSpanAs(q, t, n);
      JoinRightOk(q, t, n);
      JoinRightEffect(q, t, n);
      NextQuiet(q, t, n);
      JoinRightQuiet(q, t, n);
      JoinRightKeeps(q, t, n, grain, spans, spares, hand, freelists[..], buckets[..], hash);
      JoinRightTags(q, t, n);
      JoinView(q, JoinRight(q, t, n), t, n, n, t);
      HandSpare'(q, spares, hand, t);
      var start, size := tags[t].start, tags[n].size + tags[t].size;
      Unlink(t);
      tags := tags[n := tags[n].(start := start, size := size)];
      TagFree(t, hand + {t}, {n});
      assert hand + {t} - {t} == hand;
    }

    /** The vacant segment `t` fills the imported span `s`: both tags go. */
    method ReleaseSpan(s: nat, t: nat, ghost hand: set<nat>)
      requires Ok(hand, {t}) && Quiet(Q(), Null) && IsSeg(Q(), t) && tags[t].kind.Vacant?
      requires s in live && s in tags && IsSpan(tags[s].kind) && tags[t].prev == To(s) && tags[t].size == tags[s].size
      modifies this`tags, this`head, this`tail, this`live, this`spares, this`spans
      ensures Ok(hand, {}) && Quiet(Q(), Null)
      ensures forall x :: Vac(Q(), x) <==> Vac(old(Q()), x) && !(old(tags[s].start) <= x < old(End(tags[s])))
      ensures forall b, m :: Live(Q(), b, m) <==> Live(old(Q()), b, m)
      ensures forall b, m :: HasSpan(Q(), b, m) <==> HasSpan(old(Q()), b, m) && !(b == old(tags[s].start) && m == old(tags[s].size))
    {
      hide QueueOk, SizesOk, SpanListOk, SparesOk, FreeListsOk, BucketsOk, Quiet, SameOutside, DropSpan, HasSpan;
      ghost var q := Q();
      DropSpanOk(q, s, t);
      DropEffect(q, s, t);
      DropKeeps(q, s, t, grain, spans, spares, hand, freelists[..], buckets[..], hash);
      DropView(q, s, t);
      DropSpans(q, s, t);
      HandSpare'(q, spares, hand, t);
      HandSpare'(q, spares, hand, s);
      SpanInList(q, spans, s);
      UnlinkBoth(s, t);
      spans := Without(spans, s);
      TagFree(t, hand + {s} + {t}, {});
      assert hand + {s} + {t} - {t} == hand + {s};
      TagFree(s, hand + {s}, {});
      assert hand + {s} - {s} == hand;
    }

    method UnlinkBoth(s: nat, t: nat)
      requires QueueOk(Q()) && IsSeg(Q(), t) && s in live && s in tags && IsSpan(tags[s].kind) && tags[t].prev == To(s)
      modifies this`tags, this`head, this`tail, this`live
      ensures old(t in tags && s in tags) && Q() == DropSpan(old(Q()), s, t)
    {
      hide QueueOk;
      ghost var q := Q();
      AfterFirst(q, s, t);
      Unlink(t);
      var x := tags[s];
      if x.next.To? {
        tags := tags[x.next.tag := tags[x.next.tag].(prev := x.prev)];
      } else {
        tail := x.prev;
      }
      if x.prev.To? {
        tags := tags[x.prev.tag := tags[x.prev.tag].(next := x.next)];
      } else {
        head := x.next;
      }
      live := live - {s};
    }

    /** The vacated segment is joined to its vacant neighbours. */
    method Coalesce(t0: nat, ghost hand: set<nat>) returns (t: nat)
      requires Ok(hand, {t0}) && Quiet(Q(), To(t0)) && IsSeg(Q(), t0) && tags[t0].kind.Vacant?
      modifies this`tags, this`head, this`tail, this`live, this`spares, freelists
      ensures Ok(hand, {t}) && Quiet(Q(), Null) && IsSeg(Q(), t) && tags[t].kind.Vacant?
      ensures forall x :: Vac(Q(), x) <==> Vac(old(Q()), x)
      ensures forall b, m :: Live(Q(), b, m) <==> Live(old(Q()), b, m)
      ensures span == old(span) && t in span && t0 in span && span[t] == span[t0] && SpansSame(old(Q()), Q())
    {
      hide QueueOk, SizesOk, SpanListOk, SparesOk, FreeListsOk, BucketsOk, Quiet, SpansSame, Vac, Live;
      ghost var q0 := Q();
      SpansRefl(q0);
      SegHasPrev(q0, t0);
      t := t0;
      var left := tags[t].prev.tag;
      if tags[left].kind == Vacant {
        LeftQuiet(q0, left, t);
        MergeLeft(left, t, hand);
        t := left;
      }
      ghost var q := Q();
      NextLive(q, t);
      SegHasPrev(q, t);
      var right := tags[t].next;
      if right.To? && tags[right.tag].kind == Vacant {
        MergeRight(t, right.tag, hand);
        t := right.tag;
        SpansTrans(q0, q, Q());
      } else {
        QuietAgain(q, t);
      }
    }

    /** `vmem_xfree`: what comes back is the span returned to the source, if any. */
    method XFree(addr: int, size: int) returns (r: Source)
      requires Valid() && Live(Q(), addr, size)
      modifies this, freelists, buckets
      ensures Valid() && lost == old(lost)
      ensures forall b, m :: Live(Q(), b, m) <==> Live(old(Q()), b, m) && !(b == addr && m == size)
      ensures exists s :: IsSpanAt(old(Q()), s, addr) && r == Returned(old(Q()), s, addr)
      ensures forall x :: Vac(Q(), x) <==>
        (Vac(old(Q()), x) || addr <= x < addr + size) && !(r.Given? && r.start <= x < r.start + r.size)
      ensures forall b, m :: HasSpan(Q(), b, m) <==> HasSpan(old(Q()), b, m) && !(r.Given? && b == r.start && m == r.size)
    {
      hide QueueOk, SizesOk, SpanListOk, SparesOk, FreeListsOk, BucketsOk, Quiet, SpansSame, SameView, Live, Vac, Returned, IsSpanAt, HasSpan;
      ghost var q0 := Q();
      var found := LookupAlloc(addr, lost);
      assert Q() == q0;
      FoundIs(q0, found, addr, size);
      var t := found.tag;
      RemoveAlloc(t, lost, {});
      assert {} + {t} == {t};
      Vacate(t, lost);
      ghost var q1 := Q();
      VacatedSpans(q0, t);
      t := Coalesce(t, lost);
      ghost var q3 := Q();
      ViewAcross(q0, q1, q3, addr, size);
      SpansTrans(q0, q1, q3);
      SameSpans(q0, q3);
      SegHasPrev(q3, t);
      var left := tags[t].prev.tag;
      ReturnedIs(q0, q3, found.tag, t, addr, size);
      if tags[left].kind == Imported && tags[t].size == tags[left].size {
        r := Given(tags[left].start, tags[left].size);
        ReleaseSpan(left, t, lost);
      } else {
        r := NoSource;
        InsertFree(t, lost, {t});
        assert {t} - {t} == {};
      }
    }
  }

  /** Fifteen bytes out of a span of sixteen: the byte left over would go on the
      list before the first. */
  method OneByteLeft(hash: int -> nat) returns (a: Arena, r: Result)
    ensures fresh(a) && r == Crash
  {
    var spares: seq<nat> := [0, 1, 2, 3, 4, 5];
    a := new Arena(1, hash, spares);
    ghost var q0 := a.Q();
    a.AddLocked(4096, 16, Span, {});
    ghost var q := a.Q();
    ghost var f :| Added(q0, q, f, 4096, 16);
    assert Suitable(q, f, 15, 0, 0);
    r := a.XAlloc(15, 0, 0, false, NoSource);
  }

  lemma FileAlloc(q: Queue, lists: seq<seq<nat>>, hash: int -> nat, ex: set<nat>, t: nat, b: int)
    requires BucketsOk(q, lists, hash, ex) && t in ex && Hashed(q, t, hash, b) && 0 <= b < HASH_BUCKET_COUNT
    ensures BucketsOk(q, lists[b := [t] + lists[b]], hash, ex - {t})
  {
    InsertDistinct(lists[b], t);
  }

  lemma UnhashAlloc(q: Queue, lists: seq<seq<nat>>, hash: int -> nat, ex: set<nat>, t: nat, b: int)
    requires BucketsOk(q, lists, hash, ex) && Hashed(q, t, hash, b) && 0 <= b < HASH_BUCKET_COUNT
    ensures BucketsOk(q, lists[b := Without(lists[b], t)], hash, ex + {t})
  {
    WithoutOk(lists[b], t);
  }

  lemma UnfileAllocated(q: Queue, lists: seq<seq<nat>>, ex: set<nat>, t: nat)
    requires FreeListsOk(q, lists, ex) && t in q.tags && (IsSeg(q, t) ==> !q.tags[t].kind.Vacant?)
    ensures FreeListsOk(q, lists, ex + {t}) && FreeListsOk(q, lists, ex - {t})
  {
  }

  lemma InBucket(q: Queue, lists: seq<seq<nat>>, hash: int -> nat, b: int)
    requires BucketsOk(q, lists, hash, {}) && 0 <= b < HASH_BUCKET_COUNT
    ensures |lists| == HASH_BUCKET_COUNT
    ensures forall t :: t in lists[b] ==> IsSeg(q, t) && q.tags[t].kind.Allocated?
    ensures forall t :: Hashed(q, t, hash, b) ==> t in lists[b]
  {
    forall t | t in lists[b] ensures IsSeg(q, t) && q.tags[t].kind.Allocated? {
      assert Hashed(q, t, hash, b);
    }
  }

  lemma InLists(q: Queue, lists: seq<seq<nat>>)
    requires FreeListsOk(q, lists, {})
    ensures |lists| == FREELIST_COUNT
    ensures forall k, t :: 0 <= k < FREELIST_COUNT && t in lists[k] ==> IsSeg(q, t) && q.tags[t].kind.Vacant? && Filed(q, t, k)
  {
    forall k, t | 0 <= k < FREELIST_COUNT && t in lists[k] ensures IsSeg(q, t) && q.tags[t].kind.Vacant? && Filed(q, t, k) {
      assert Filed(q, t, k);
    }
  }

  lemma InList(q: Queue, lists: seq<seq<nat>>, k: int)
    requires FreeListsOk(q, lists, {}) && 0 <= k < FREELIST_COUNT
    ensures |lists| == FREELIST_COUNT && forall t :: t in lists[k] ==> IsSeg(q, t) && q.tags[t].kind.Vacant? && Filed(q, t, k)
  {
    InLists(q, lists);
  }

  lemma ListDone(q: Queue, lists: seq<seq<nat>>, best: Ref, size: int, minaddr: int, maxaddr: int, k: int)
    requires FreeListsOk(q, lists, {}) && 0 <= k < FREELIST_COUNT && Best(q, Null, size, minaddr, maxaddr, k)
    requires best.To? ==> best.tag in lists[k] && Suitable(q, best.tag, size, minaddr, maxaddr)
    requires BestIn(q, best, size, minaddr, maxaddr, lists[k])
    ensures Best(q, best, size, minaddr, maxaddr, k + 1)
    ensures best.To? ==> exists b :: Filed(q, best.tag, b) && b < k + 1
  {
    assert best.To? ==> Filed(q, best.tag, k);
  }

  lemma SearchDone(q: Queue, lists: seq<seq<nat>>, grain: int, best: Ref, size: int, minaddr: int, maxaddr: int, k: int)
    requires grain >= 1 && SizesOk(q, grain) && Best(q, best, size, minaddr, maxaddr, k) && (best.Null? ==> k == FREELIST_COUNT)
    requires best.To? ==> exists b :: Filed(q, best.tag, b) && b < k
    ensures best.Null? ==> forall t :: !Suitable(q, t, size, minaddr, maxaddr)
    ensures best.To? ==> Suitable(q, best.tag, size, minaddr, maxaddr)
    ensures best.To? ==> forall t :: Suitable(q, t, size, minaddr, maxaddr) ==> q.tags[best.tag].size <= q.tags[t].size
    ensures best.To? ==> LowestList(q, best.tag, size, minaddr, maxaddr)
  {
    forall t | Suitable(q, t, size, minaddr, maxaddr) ensures best.To? && q.tags[best.tag].size <= q.tags[t].size {
      ClassBound(q.tags[t].size);
      assert Filed(q, t, Class(q.tags[t].size));
      if best.To? { LargeClasses(q, best, size, minaddr, maxaddr, k, t, Class(q.tags[t].size)); }
    }
  }

  /** The lists below `k` have no suitable segment: one in list `k` will do. */
  lemma LowestFound(q: Queue, grain: int, t: nat, size: int, minaddr: int, maxaddr: int, k: int)
    requires grain >= 1 && SizesOk(q, grain) && Best(q, Null, size, minaddr, maxaddr, k) && Filed(q, t, k)
    ensures LowestList(q, t, size, minaddr, maxaddr)
  {
    hide Class;
    forall u, j: nat | Suitable(q, u, size, minaddr, maxaddr) && Pow2(j) <= q.tags[t].size ensures Pow2(j) <= q.tags[u].size {
      assert Filed(q, u, Class(q.tags[u].size));
      ClassReaches(q.tags[t].size, q.tags[u].size, j);
    }
  }

  lemma HandSpare(q: Queue, spares: seq<nat>, hand: set<nat>, t: nat)
    requires SparesOk(q, spares, hand) && t in hand
    ensures t in q.tags && t !in q.live && t !in spares
  {
  }

  /** A tag that is no segment may be left out of the lists or not. */
  lemma LeaveOut(q: Queue, lists: seq<seq<nat>>, buckets: seq<seq<nat>>, hash: int -> nat, ex: set<nat>, t: nat)
    requires FreeListsOk(q, lists, ex) && BucketsOk(q, buckets, hash, ex) && !IsSeg(q, t)
    ensures FreeListsOk(q, lists, ex - {t}) && BucketsOk(q, buckets, hash, ex - {t})
    ensures FreeListsOk(q, lists, ex + {t}) && BucketsOk(q, buckets, hash, ex + {t})
  {
  }

  lemma CarveSegs(q: Queue, t: nat, at: int, size: int, l: nat, r: nat)
    requires QueueOk(q) && Quiet(q, Null) && IsSeg(q, t) && q.tags[t].kind.Vacant?
    requires q.tags[t].start <= at && 0 < size && at + size <= End(q.tags[t]) && l !in q.live && r !in q.live && l != r
    ensures var q' := Carve(q, t, at, size, l, r);
      && IsSeg(q', t) && q'.tags[t].kind.Allocated?
      && (if at > q.tags[t].start then IsSeg(q', l) && q'.tags[l].kind.Vacant? else !IsSeg(q', l))
      && (if at + size < End(q.tags[t]) then IsSeg(q', r) && q'.tags[r].kind.Vacant? else !IsSeg(q', r))
  {
    hide QueueOk, Quiet, Carve;
    CarveOk(q, t, at, size, l, r);
    assert At(Carve(q, t, at, size, l, r), t, at);
  }

  /** The lists and sizes after a carve, which changes only `t`, `l` and `r`. */
  lemma CarveKeeps(q: Queue, t: nat, at: int, size: int, l: nat, r: nat, grain: int, spans: seq<nat>, spares: seq<nat>,
                   lost: set<nat>, lists: seq<seq<nat>>, buckets: seq<seq<nat>>, hash: int -> nat)
    requires QueueOk(q) && Quiet(q, Null) && IsSeg(q, t) && q.tags[t].kind.Vacant?
    requires q.tags[t].start <= at && 0 < size && at + size <= End(q.tags[t]) && l !in q.live && r !in q.live && l != r
    requires grain >= 1 && at % grain == 0 && size % grain == 0
    requires size >= 2 && at - q.tags[t].start != 1 && End(q.tags[t]) - (at + size) != 1
    requires SizesOk(q, grain) && SpanListOk(q, spans) && SparesOk(q, spares, lost + {l, r}) && l !in lost && r !in lost
    requires FreeListsOk(q, lists, {t}) && BucketsOk(q, buckets, hash, {t})
    ensures var q' := Carve(q, t, at, size, l, r);
      && SizesOk(q', grain) && SpanListOk(q', spans)
      && SparesOk(q', spares, lost + (if at > q.tags[t].start then {} else {l}) + (if at + size < End(q.tags[t]) then {} else {r}))
      && FreeListsOk(q', lists, {t, l, r}) && BucketsOk(q', buckets, hash, {t, l, r})
  {
    hide QueueOk, Quiet, Carve, SizesOk, SpanListOk, SparesOk, FreeListsOk, BucketsOk, SameOutside;
    var q' := Carve(q, t, at, size, l, r);
    CarveSizes(q, q', t, at, size, l, r, grain);
    CarveSame(q, q', t, at, size, l, r);
    LeaveOut(q, lists, buckets, hash, {t}, l);
    LeaveOut(q, lists, buckets, hash, {t} + {l}, r);
    assert {t} + {l} + {r} == {t, l, r};
    ListsKept(q, q', {t, l, r}, lists, buckets, hash);
    CarveSpans(q, q', t, at, size, l, r, spans);
    CarveSpares(q, q', t, at, size, l, r, spares, lost);
  }

  lemma CarveSpans(q: Queue, q': Queue, t: nat, at: int, size: int, l: nat, r: nat, spans: seq<nat>)
    requires QueueOk(q) && Quiet(q, Null) && IsSeg(q, t) && q.tags[t].kind.Vacant?
    requires q.tags[t].start <= at && 0 < size && at + size <= End(q.tags[t]) && l !in q.live && r !in q.live && l != r
    requires q' == Carve(q, t, at, size, l, r)
    requires SpanListOk(q, spans)
    ensures SpanListOk(q', spans)
  {
    hide QueueOk, Quiet, Carve;
    CarveOk(q, t, at, size, l, r);
    CarveSegs(q, t, at, size, l, r);
    CarveTags(q, t, at, size, l, r);
  }

  lemma CarveSame(q: Queue, q': Queue, t: nat, at: int, size: int, l: nat, r: nat)
    requires QueueOk(q) && Quiet(q, Null) && IsSeg(q, t) && q.tags[t].kind.Vacant?
    requires q.tags[t].start <= at && 0 < size && at + size <= End(q.tags[t]) && l !in q.live && r !in q.live && l != r
    requires q' == Carve(q, t, at, size, l, r)
    ensures SameOutside(q, q', {t, l, r})
  {
    hide QueueOk, Quiet, Carve;
    CarveOk(q, t, at, size, l, r);
    CarveTags(q, t, at, size, l, r);
  }

  /** A carve forgets no tag. */
  lemma CarveTags(q: Queue, t: nat, at: int, size: int, l: nat, r: nat)
    requires QueueOk(q) && IsSeg(q, t) && q.tags[t].start <= at && 0 < size && at + size <= End(q.tags[t])
    requires l !in q.live && r !in q.live && l != r
    ensures forall u :: u in Carve(q, t, at, size, l, r).tags ==> u in q.tags || u == l || u == r
  {
    SegHasPrev(q, t);
    NextLive(q, t);
  }

  lemma CarveSizes(q: Queue, q': Queue, t: nat, at: int, size: int, l: nat, r: nat, grain: int)
    requires QueueOk(q) && Quiet(q, Null) && IsSeg(q, t) && q.tags[t].kind.Vacant?
    requires q.tags[t].start <= at && 0 < size && at + size <= End(q.tags[t]) && l !in q.live && r !in q.live && l != r
    requires grain >= 1 && at % grain == 0 && size % grain == 0 && SizesOk(q, grain) && q' == Carve(q, t, at, size, l, r)
    requires size >= 2 && at - q.tags[t].start != 1 && End(q.tags[t]) - (at + size) != 1
    ensures SizesOk(q', grain)
  {
    hide QueueOk, Quiet, Carve;
    CarveOk(q, t, at, size, l, r);
    CarveTags(q, t, at, size, l, r);
    var x := q.tags[t];
    Parts(x.start, x.size, at, size, grain);
    forall u | u in q'.live && u in q'.tags
      ensures q'.tags[u].start % grain == 0 && q'.tags[u].size % grain == 0 && 2 <= q'.tags[u].size < ADDRESSES
    {
      if u == l {
        assert q'.tags[u].size == at - x.start;
      } else if u == r {
        assert q'.tags[u].size == x.start + x.size - (at + size);
      } else if u != t {
        assert q'.tags[u].start == q.tags[u].start && q'.tags[u].size == q.tags[u].size;
      }
    }
  }

  lemma Parts(start: int, size: int, at: int, n: int, grain: int)
    requires grain > 0 && start % grain == 0 && size % grain == 0 && at % grain == 0 && n % grain == 0
    ensures (at - start) % grain == 0 && (at + n) % grain == 0 && (start + size - (at + n)) % grain == 0
  {
    SumMultiple(at, start, grain);
    SumMultiple(at, n, grain);
    SumMultiple(start, size, grain);
    SumMultiple(start + size, at + n, grain);
  }

  lemma CarveSpares(q: Queue, q': Queue, t: nat, at: int, size: int, l: nat, r: nat, spares: seq<nat>, lost: set<nat>)
    requires QueueOk(q) && Quiet(q, Null) && IsSeg(q, t) && q.tags[t].kind.Vacant?
    requires q.tags[t].start <= at && 0 < size && at + size <= End(q.tags[t]) && l !in q.live && r !in q.live && l != r
    requires q' == Carve(q, t, at, size, l, r) && SparesOk(q, spares, lost + {l, r}) && l !in lost && r !in lost
    ensures SparesOk(q', spares, lost + (if at > q.tags[t].start then {} else {l}) + (if at + size < End(q.tags[t]) then {} else {r}))
  {
    hide QueueOk, Quiet, Carve;
    CarveOk(q, t, at, size, l, r);
    CarveTags(q, t, at, size, l, r);
  }

  lemma HeadIsSpan(q: Queue)
    requires QueueOk(q)
    ensures q.head.To? ==> q.head.tag in q.live && q.head.tag in q.tags && IsSpan(q.tags[q.head.tag].kind)
  {
    if q.head.To? { assert LinkOk(q, q.head.tag); }
  }

  lemma SpanTags(q: Queue, spans: seq<nat>)
    requires SpanListOk(q, spans)
    ensures forall i :: 0 <= i < |spans| ==> spans[i] in q.live && spans[i] in q.tags && IsSpan(q.tags[spans[i]].kind)
  {
  }

  /** A change that leaves all tags outside `ex` as they are. */
  ghost predicate SameOutside(q: Queue, q': Queue, ex: set<nat>) {
    forall u :: u !in ex ==>
      && (u in q.live <==> u in q'.live) && (u in q.tags <==> u in q'.tags)
      && (u in q.live && u in q.tags ==>
            q'.tags[u].kind == q.tags[u].kind && q'.tags[u].start == q.tags[u].start && q'.tags[u].size == q.tags[u].size)
  }

  lemma ListsKept(q: Queue, q': Queue, ex: set<nat>, lists: seq<seq<nat>>, buckets: seq<seq<nat>>, hash: int -> nat)
    requires SameOutside(q, q', ex)
    ensures FreeListsOk(q, lists, ex) ==> FreeListsOk(q', lists, ex)
    ensures BucketsOk(q, buckets, hash, ex) ==> BucketsOk(q', buckets, hash, ex)
  {
    hide Class;
    forall u, k ensures u !in ex ==> (Filed(q, u, k) <==> Filed(q', u, k)) && (Hashed(q, u, hash, k) <==> Hashed(q', u, hash, k)) {}
  }

  lemma AddSpanEffect(q: Queue, s: nat, f: nat, kind: Kind, start: int, size: int, n: Ref)
    requires QueueOk(q) && s !in q.live && f !in q.live && s != f && IsSpan(kind) && Quiet(q, Null)
    requires n.To? ==> n.tag in q.live && n.tag in q.tags && IsSpan(q.tags[n.tag].kind)
    ensures var q' := AddSpan(q, s, f, kind, start, size, n);
      && SameOutside(q, q', {s, f}) && Quiet(q', Null) && q'.live == q.live + {s, f}
      && s in q'.tags && f in q'.tags && q'.tags[f].kind == Vacant && q'.tags[f].start == start && q'.tags[f].size == size
      && q'.tags[s].kind == kind && q'.tags[s].start == start && q'.tags[s].size == size
  {
    var q' := AddSpan(q, s, f, kind, start, size, n);
    if n.To? { assert LinkOk(q, n.tag) && SpanOk(q, n.tag); }
    if q.tail.To? { assert LinkOk(q, q.tail.tag); }
    forall u ensures QuietAt(q', u, Null) { assert QuietAt(q, u, Null) && LinkOk(q, u); }
  }

  lemma AddView(q: Queue, q': Queue, f: nat, start: int, size: int)
    requires (exists s :: s != f && SameOutside(q, q', {s, f}) && s !in q.live && s in q'.tags && IsSpan(q'.tags[s].kind)) && f !in q.live
    requires f in q'.live && f in q'.tags && q'.tags[f].kind.Vacant? && q'.tags[f].start == start && q'.tags[f].size == size
    ensures forall x :: Vac(q', x) <==> Vac(q, x) || start <= x < start + size
    ensures forall b, m :: Live(q', b, m) <==> Live(q, b, m)
    ensures Added(q, q', f, start, size)
  {
    var s :| s != f && SameOutside(q, q', {s, f}) && s !in q.live && s in q'.tags && IsSpan(q'.tags[s].kind);
    forall x ensures Vac(q', x) <==> Vac(q, x) || start <= x < start + size {
      if t :| At(q, t, x) && q.tags[t].kind.Vacant? { assert At(q', t, x); }
      if start <= x < start + size { assert At(q', f, x); }
      if t :| At(q', t, x) && q'.tags[t].kind.Vacant? { assert t == f || At(q, t, x); }
    }
    forall b, m ensures Live(q', b, m) <==> Live(q, b, m) {
      if t :| IsSeg(q, t) && q.tags[t].kind.Allocated? && q.tags[t].start == b && q.tags[t].size == m { assert IsSeg(q', t); }
      if t :| IsSeg(q', t) && q'.tags[t].kind.Allocated? && q'.tags[t].start == b && q'.tags[t].size == m { assert IsSeg(q, t); }
    }
  }

  lemma AddKeeps(q: Queue, s: nat, f: nat, kind: Kind, start: int, size: int, n: Ref, grain: int, spans: seq<nat>, i: int,
                 spares: seq<nat>, hand: set<nat>, lists: seq<seq<nat>>, buckets: seq<seq<nat>>, hash: int -> nat)
    requires QueueOk(q) && s !in q.live && f !in q.live && s != f && IsSpan(kind) && Quiet(q, Null) && s !in hand && f !in hand
    requires n.To? ==> n.tag in q.live && n.tag in q.tags && IsSpan(q.tags[n.tag].kind)
    requires grain >= 1 && start % grain == 0 && size % grain == 0 && 2 <= size < ADDRESSES && 0 <= i <= |spans|
    requires SizesOk(q, grain) && SpanListOk(q, spans) && SparesOk(q, spares, hand + {s} + {f})
    requires FreeListsOk(q, lists, {}) && BucketsOk(q, buckets, hash, {})
    ensures var q' := AddSpan(q, s, f, kind, start, size, n);
      && SizesOk(q', grain) && SpanListOk(q', spans[..i] + [s] + spans[i..]) && SparesOk(q', spares, hand)
      && FreeListsOk(q', lists, {f}) && BucketsOk(q', buckets, hash, {f})
  {
    hide QueueOk, Quiet, AddSpan, Class;
    AddSpanEffect(q, s, f, kind, start, size, n);
    var q' := AddSpan(q, s, f, kind, start, size, n);
    LeaveOut(q, lists, buckets, hash, {}, s);
    LeaveOut(q, lists, buckets, hash, {} + {s}, f);
    ListsKept(q, q', {} + {s} + {f}, lists, buckets, hash) by { assert {} + {s} + {f} == {s, f}; }
    LeaveOut(q', lists, buckets, hash, {} + {s} + {f}, s);
    assert {} + {s} + {f} - {s} == {f};
    SpliceDistinct(spans, i, s);
  }

  lemma SpliceDistinct(list: seq<nat>, i: int, t: nat)
    requires Distinct(list) && t !in list && 0 <= i <= |list|
    ensures Distinct(list[..i] + [t] + list[i..]) && forall x :: x in list[..i] + [t] + list[i..] <==> x in list || x == t
  {
    assert list == list[..i] + list[i..];
  }

  lemma NoneOrSome(q: Queue, best: Ref, size: int, minaddr: int, maxaddr: int)
    requires best.Null? ==> forall t :: !Suitable(q, t, size, minaddr, maxaddr)
    requires best.To? ==> Suitable(q, best.tag, size, minaddr, maxaddr)
    ensures best.Null? <==> NoneSuits(q, size, minaddr, maxaddr)
  {
  }

  lemma ImportSuits(q: Queue, q': Queue, start: int, length: int, size: int)
    requires (exists f :: Added(q, q', f, start, length)) && size <= length
    ensures !NoneSuits(q', size, 0, 0)
  {
    var f :| Added(q, q', f, start, length);
    assert Suitable(q', f, size, 0, 0);
  }

  /** The vacant segment `f` is new, the other segments were there before. */
  ghost predicate Added(q: Queue, q': Queue, f: nat, start: int, length: int) {
    && IsSeg(q', f) && q'.tags[f].kind.Vacant? && q'.tags[f].start == start && q'.tags[f].size == length
    && forall t :: t != f && IsSeg(q', t) ==>
      IsSeg(q, t) && q'.tags[t].kind == q.tags[t].kind && q'.tags[t].start == q.tags[t].start && q'.tags[t].size == q.tags[t].size
  }

  /** Nothing but the imported segment can suit. */
  lemma ImportTaken(q: Queue, q': Queue, t: nat, start: int, length: int, size: int)
    requires exists f :: Added(q, q', f, start, length)
    requires NoneSuits(q, size, 0, 0) && Suitable(q', t, size, 0, 0)
    ensures q'.tags[t].start == start && q'.tags[t].size == length
  {
    var f :| Added(q, q', f, start, length);
    if t != f { assert Suitable(q, t, size, 0, 0); }
  }

  /** With a grain of two or more no piece of one byte is left. */
  lemma GrainSafe(q: Queue, grain: int, t: nat, size: int, minaddr: int, maxaddr: int)
    requires grain >= 1 && SizesOk(q, grain) && Suitable(q, t, size, minaddr, maxaddr) && size % grain == 0 && minaddr % grain == 0
    requires 0 < size && 0 <= minaddr && 0 <= maxaddr
    ensures t in q.tags && (grain >= 2 ==> !LeavesOne(q.tags[t], size, minaddr))
  {
    if grain >= 2 {
      SuitRoom(q, t, size, minaddr, maxaddr, grain);
      Parts(q.tags[t].start, q.tags[t].size, Lo(q.tags[t], minaddr), size, grain);
      SmallRemainder(1, grain);
    }
  }

  lemma SuitRoom(q: Queue, t: nat, size: int, minaddr: int, maxaddr: int, grain: int)
    requires Suitable(q, t, size, minaddr, maxaddr) && grain >= 1 && SizesOk(q, grain) && minaddr % grain == 0
    requires 0 < size && 0 <= minaddr && 0 <= maxaddr
    ensures IsSeg(q, t) && q.tags[t].kind.Vacant?
    ensures var at := Lo(q.tags[t], minaddr);
      q.tags[t].start <= at && at + size <= End(q.tags[t]) && at % grain == 0
      && (minaddr != 0 ==> minaddr <= at) && (maxaddr != 0 ==> at + size <= maxaddr)
  {
  }

  lemma CarvedFrom(q: Queue, t: nat, at: int, size: int)
    requires IsSeg(q, t) && q.tags[t].kind.Vacant? && q.tags[t].start <= at && at + size <= End(q.tags[t])
    ensures forall x :: at <= x < at + size ==> Vac(q, x)
  {
    forall x | at <= x < at + size ensures Vac(q, x) { assert At(q, t, x); }
  }

  lemma VacateKeeps(q: Queue, t: nat, grain: int, spans: seq<nat>, spares: seq<nat>, hand: set<nat>)
    requires IsSeg(q, t) && grain >= 1 && SizesOk(q, grain) && SpanListOk(q, spans) && SparesOk(q, spares, hand)
    ensures var q' := SetKind(q, t, Vacant);
      && SizesOk(q', grain) && SpanListOk(q', spans) && SparesOk(q', spares, hand) && SameOutside(q, q', {t})
  {
  }

  lemma VacateView(q: Queue, t: nat)
    requires QueueOk(q) && IsSeg(q, t) && q.tags[t].kind.Allocated?
    ensures SameView(q, SetKind(q, t, Vacant), q.tags[t].start, q.tags[t].size)
  {
    hide QueueOk;
    var q', a, n := SetKind(q, t, Vacant), q.tags[t].start, q.tags[t].size;
    forall x ensures Vac(q', x) <==> Vac(q, x) || a <= x < a + n {
      if u :| At(q, u, x) && q.tags[u].kind.Vacant? { assert At(q', u, x); }
      if a <= x < a + n { assert At(q', t, x); }
      if u :| At(q', u, x) && q'.tags[u].kind.Vacant? { assert At(q, u, x); }
    }
    forall b, m ensures Live(q', b, m) <==> Live(q, b, m) && !(b == a && m == n) {
      SegHasPrev(q, t);
      if u :| IsSeg(q', u) && q'.tags[u].kind.Allocated? && q'.tags[u].start == b && q'.tags[u].size == m {
        assert IsSeg(q, u);
        if b == a { InOne(q, t, u, a); }
      }
      if u :| IsSeg(q, u) && q.tags[u].kind.Allocated? && q.tags[u].start == b && q.tags[u].size == m && !(b == a && m == n) {
        assert IsSeg(q', u);
      }
    }
  }

  lemma SameSpanAs(q: Queue, p: nat, t: nat)
    requires QueueOk(q) && IsSeg(q, t) && IsSeg(q, p) && q.tags[t].prev == To(p)
    ensures p in q.span && t in q.span && q.span[p] == q.span[t] && p != t && q.tags[p].size > 0 && q.tags[t].size > 0
    ensures q.tags[t].start == End(q.tags[p])
  {
    assert SegOk(q, t) && SegOk(q, p);
  }

  lemma HandSpare'(q: Queue, spares: seq<nat>, hand: set<nat>, t: nat)
    requires SparesOk(q, spares, hand) && t in q.live
    ensures t !in hand
  {
  }

  lemma JoinLeftKeeps(q: Queue, p: nat, t: nat, grain: int, spans: seq<nat>, spares: seq<nat>, hand: set<nat>,
                      lists: seq<seq<nat>>, buckets: seq<seq<nat>>, hash: int -> nat)
    requires QueueOk(q) && IsSeg(q, t) && IsSeg(q, p) && q.tags[t].prev == To(p) && grain >= 1
    requires SizesOk(q, grain) && SpanListOk(q, spans) && SparesOk(q, spares, hand)
    requires FreeListsOk(q, lists, {t} + {p}) && BucketsOk(q, buckets, hash, {t} + {p})
    ensures var q' := JoinLeft(q, p, t);
      && SizesOk(q', grain) && SpanListOk(q', spans) && SparesOk(q', spares, hand + {t})
      && FreeListsOk(q', lists, {p}) && BucketsOk(q', buckets, hash, {p}) && SpansSame(q, q')
  {
    hide QueueOk, JoinLeft, FreeListsOk, BucketsOk;
    JoinLeftEffect(q, p, t);
    SameSpanAs(q, p, t);
    var q' := JoinLeft(q, p, t);
    JoinLeftTags(q, p, t);
    JoinSize(q, p, t, grain);
    ListsKept(q, q', {t} + {p}, lists, buckets, hash);
    LeaveOut(q', lists, buckets, hash, {t} + {p}, t);
    assert {t} + {p} - {t} == {p};
  }

  lemma JoinLeftTags(q: Queue, p: nat, t: nat)
    requires QueueOk(q) && IsSeg(q, t) && IsSeg(q, p) && q.tags[t].prev == To(p)
    ensures JoinLeft(q, p, t).tags.Keys == q.tags.Keys
  {
    assert LinkOk(q, t);
  }

  lemma JoinSize(q: Queue, p: nat, t: nat, grain: int)
    requires QueueOk(q) && IsSeg(q, t) && IsSeg(q, p) && q.tags[t].prev == To(p) && grain >= 1 && SizesOk(q, grain)
    ensures var n := q.tags[p].size + q.tags[t].size; n % grain == 0 && 2 <= n < ADDRESSES
  {
    SumMultiple(q.tags[p].size, q.tags[t].size, grain);
    assert SegOk(q, t) && SegOk(q, p) && LinkOk(q, q.span[t]);
    assert q.tags[p].size + q.tags[t].size <= q.tags[q.span[t]].size;
  }

  /** Joining two vacant segments shows nothing outside. */
  lemma JoinView(q: Queue, q': Queue, p: nat, t: nat, z: nat, y: nat)
    requires IsSeg(q, p) && IsSeg(q, t) && p != t && q.tags[p].kind.Vacant? && q.tags[t].kind.Vacant? && q.tags[t].start == End(q.tags[p])
    requires q.tags[p].size > 0 && q.tags[t].size > 0
    requires ((z == p && y == t) || (z == t && y == p)) && JoinedAs(q, q', p, t, z, y)
    ensures forall x :: Vac(q', x) <==> Vac(q, x)
    ensures forall b, m :: Live(q', b, m) <==> Live(q, b, m)
  {
    forall x ensures Vac(q', x) <==> Vac(q, x) {
      if u :| At(q, u, x) && q.tags[u].kind.Vacant? { assert At(q', if u == y then z else u, x); }
      if u :| At(q', u, x) && q'.tags[u].kind.Vacant? {
        assert if u != z then At(q, u, x) else if x < End(q.tags[p]) then At(q, p, x) else At(q, t, x);
      }
    }
    forall b, m ensures Live(q', b, m) <==> Live(q, b, m) {
      if u :| IsSeg(q, u) && q.tags[u].kind.Allocated? && q.tags[u].start == b && q.tags[u].size == m { assert IsSeg(q', u); }
      if u :| IsSeg(q', u) && q'.tags[u].kind.Allocated? && q'.tags[u].start == b && q'.tags[u].size == m { assert IsSeg(q, u); }
    }
  }

  /** The tag `z` of the neighbours `p` and `t` stands for both, `y` is gone. */
  ghost predicate JoinedAs(q: Queue, q': Queue, p: nat, t: nat, z: nat, y: nat)
    requires p in q.tags && t in q.tags
  {
    && z in q'.tags && z in q'.live && y !in q'.live && q'.tags[z].kind.Vacant? && q'.tags[z].start == q.tags[p].start && End(q'.tags[z]) == End(q.tags[t])
    && forall u :: u != p && u != t ==>
         (u in q.live && u in q.tags <==> u in q'.live && u in q'.tags)
         && (u in q.live && u in q.tags ==> q'.tags[u].kind == q.tags[u].kind && q'.tags[u].start == q.tags[u].start && q'.tags[u].size == q.tags[u].size)
  }

  lemma PrevIs(q: Queue, t: nat, n: nat)
    requires QueueOk(q) && IsSeg(q, t) && IsSeg(q, n) && q.tags[t].next == To(n)
    ensures q.tags[n].prev == To(t) && n != t && q.tags[n].next != To(t)
  {
    assert LinkOk(q, t) && SegOk(q, t) && SegOk(q, n) && LinkOk(q, n);
  }

  lemma LeftQuiet(q: Queue, p: nat, t: nat)
    requires QueueOk(q) && Quiet(q, To(t)) && IsSeg(q, t) && q.tags[t].prev == To(p) && p in q.tags && q.tags[p].kind.Vacant?
    ensures IsSeg(q, p) && !VacantRef(q, q.tags[p].prev)
  {
    assert LinkOk(q, t) && SegOk(q, t) && SegOk(q, p) && LinkOk(q, p) && QuietAt(q, p, To(t));
  }

  lemma SameSpans(q: Queue, q': Queue)
    requires SpansSame(q, q')
    ensures forall b, m :: HasSpan(q', b, m) <==> HasSpan(q, b, m)
  {
    forall b, m ensures HasSpan(q', b, m) <==> HasSpan(q, b, m) {
      if s :| s in q.live && s in q.tags && IsSpan(q.tags[s].kind) && q.tags[s].start == b && q.tags[s].size == m { assert SpanSame(q, q', s); }
      if s :| s in q'.live && s in q'.tags && IsSpan(q'.tags[s].kind) && q'.tags[s].start == b && q'.tags[s].size == m { assert SpanSame(q, q', s); }
    }
  }

  /** A carve leaves the spans alone. */
  lemma CarveSpansSame(q: Queue, t: nat, at: int, size: int, l: nat, r: nat)
    requires QueueOk(q) && Quiet(q, Null) && IsSeg(q, t) && q.tags[t].kind.Vacant?
    requires q.tags[t].start <= at && 0 < size && at + size <= End(q.tags[t]) && l !in q.live && r !in q.live && l != r
    ensures SpansSame(q, Carve(q, t, at, size, l, r))
  {
    hide QueueOk, Quiet, Carve;
    var q' := Carve(q, t, at, size, l, r);
    CarveOk(q, t, at, size, l, r);
    CarveSegs(q, t, at, size, l, r);
    CarveSame(q, q', t, at, size, l, r);
    forall s ensures SpanSame(q, q', s) {}
  }

  lemma AddSpans(q: Queue, q': Queue, s: nat, f: nat)
    requires SameOutside(q, q', {s, f}) && s != f && s !in q.live && f !in q.live
    requires s in q'.live && s in q'.tags && IsSpan(q'.tags[s].kind) && f in q'.tags && !IsSpan(q'.tags[f].kind)
    ensures forall b, m :: HasSpan(q', b, m) <==> HasSpan(q, b, m) || (b == q'.tags[s].start && m == q'.tags[s].size)
  {
    forall b, m ensures HasSpan(q', b, m) <==> HasSpan(q, b, m) || (b == q'.tags[s].start && m == q'.tags[s].size) {
      if u :| u in q.live && u in q.tags && IsSpan(q.tags[u].kind) && q.tags[u].start == b && q.tags[u].size == m { assert u in q'.live; }
      if u :| u in q'.live && u in q'.tags && IsSpan(q'.tags[u].kind) && q'.tags[u].start == b && q'.tags[u].size == m {
        assert u == s || u in q.live;
      }
    }
  }

  lemma DropSpans(q: Queue, s: nat, t: nat)
    requires QueueOk(q) && Quiet(q, Null) && IsSeg(q, t) && s in q.live && s in q.tags && IsSpan(q.tags[s].kind)
    requires q.tags[t].prev == To(s) && q.tags[t].size == q.tags[s].size && q.tags[t].kind.Vacant?
    ensures forall b, m :: HasSpan(DropSpan(q, s, t), b, m) <==> HasSpan(q, b, m) && !(b == q.tags[s].start && m == q.tags[s].size)
  {
    hide QueueOk, Quiet, DropSpan;
    DropEffect(q, s, t);
    DropTags(q, s, t);
    var q' := DropSpan(q, s, t);
    FillsExactly(q, s, t);
    SegInSpan(q, t);
    forall b, m ensures HasSpan(q', b, m) <==> HasSpan(q, b, m) && !(b == q.tags[s].start && m == q.tags[s].size) {
      if u :| u in q'.live && u in q'.tags && IsSpan(q'.tags[u].kind) && q'.tags[u].start == b && q'.tags[u].size == m {
        assert u in q.live && u in q.tags && q.tags[u].start == b && q.tags[u].size == m && IsSpan(q.tags[u].kind);
        if b == q.tags[s].start && m == q.tags[s].size { SpanUnique(q, s, u, b); }
      }
      if u :| u in q.live && u in q.tags && IsSpan(q.tags[u].kind) && q.tags[u].start == b && q.tags[u].size == m && u != s {
        assert u in q'.live && u in q'.tags;
      }
    }
  }

  lemma SpansRefl(q: Queue)
    ensures SpansSame(q, q)
  {
  }

  lemma SpansTrans(q: Queue, q': Queue, q'': Queue)
    requires SpansSame(q, q') && SpansSame(q', q'')
    ensures SpansSame(q, q'')
  {
    forall s ensures SpanSame(q, q'', s) { assert SpanSame(q, q', s) && SpanSame(q', q'', s); }
  }

  lemma JoinRightKeeps(q: Queue, t: nat, n: nat, grain: int, spans: seq<nat>, spares: seq<nat>, hand: set<nat>,
                       lists: seq<seq<nat>>, buckets: seq<seq<nat>>, hash: int -> nat)
    requires QueueOk(q) && IsSeg(q, t) && IsSeg(q, n) && q.tags[t].next == To(n) && q.tags[n].prev == To(t) && grain >= 1
    requires SizesOk(q, grain) && SpanListOk(q, spans) && SparesOk(q, spares, hand)
    requires FreeListsOk(q, lists, {t} + {n}) && BucketsOk(q, buckets, hash, {t} + {n})
    ensures var q' := JoinRight(q, t, n);
      && SizesOk(q', grain) && SpanListOk(q', spans) && SparesOk(q', spares, hand + {t})
      && FreeListsOk(q', lists, {n}) && BucketsOk(q', buckets, hash, {n}) && SpansSame(q, q')
  {
    hide QueueOk, JoinRight, FreeListsOk, BucketsOk;
    JoinRightEffect(q, t, n);
    SameSpanAs(q, t, n);
    var q' := JoinRight(q, t, n);
    JoinRightTags(q, t, n);
    JoinSize(q, t, n, grain);
    ListsKept(q, q', {t} + {n}, lists, buckets, hash);
    LeaveOut(q', lists, buckets, hash, {t} + {n}, t);
    assert {t} + {n} - {t} == {n};
  }

  lemma JoinRightTags(q: Queue, t: nat, n: nat)
    requires QueueOk(q) && IsSeg(q, t) && IsSeg(q, n) && q.tags[t].next == To(n)
    ensures JoinRight(q, t, n).tags.Keys == q.tags.Keys
  {
    assert LinkOk(q, t);
  }

  lemma SpanInList(q: Queue, spans: seq<nat>, s: nat)
    requires SpanListOk(q, spans) && s in q.live && s in q.tags && IsSpan(q.tags[s].kind)
    ensures s in spans
  {
  }

  lemma AfterFirst(q: Queue, s: nat, t: nat)
    requires QueueOk(q) && IsSeg(q, t) && s in q.live && s in q.tags && IsSpan(q.tags[s].kind) && q.tags[t].prev == To(s)
    ensures var q1 := Removed(q, t);
      && s in q1.tags
      && (q1.tags[s].next.To? ==> q1.tags[s].next.tag in q1.tags) && (q1.tags[s].prev.To? ==> q1.tags[s].prev.tag in q1.tags)
  {
    assert LinkOk(q, t) && LinkOk(q, s);
  }

  lemma DropKeeps(q: Queue, s: nat, t: nat, grain: int, spans: seq<nat>, spares: seq<nat>, hand: set<nat>,
                  lists: seq<seq<nat>>, buckets: seq<seq<nat>>, hash: int -> nat)
    requires QueueOk(q) && Quiet(q, Null) && IsSeg(q, t) && s in q.live && s in q.tags && IsSpan(q.tags[s].kind) && grain >= 1
    requires q.tags[t].prev == To(s) && q.tags[t].size == q.tags[s].size && q.tags[t].kind.Vacant?
    requires SizesOk(q, grain) && SpanListOk(q, spans) && SparesOk(q, spares, hand)
    requires FreeListsOk(q, lists, {t}) && BucketsOk(q, buckets, hash, {t})
    ensures var q' := DropSpan(q, s, t);
      && SizesOk(q', grain) && SpanListOk(q', Without(spans, s)) && SparesOk(q', spares, hand + {s} + {t})
      && FreeListsOk(q', lists, {}) && BucketsOk(q', buckets, hash, {})
  {
    hide QueueOk, Quiet, DropSpan, FreeListsOk, BucketsOk;
    DropEffect(q, s, t);
    DropTags(q, s, t);
    var q' := DropSpan(q, s, t);
    WithoutOk(spans, s);
    LeaveOut(q, lists, buckets, hash, {t}, s);
    ListsKept(q, q', {t} + {s}, lists, buckets, hash);
    LeaveOut(q', lists, buckets, hash, {t} + {s}, t);
    LeaveOut(q', lists, buckets, hash, {t} + {s} - {t}, s);
    assert {t} + {s} - {t} - {s} == {};
  }

  lemma DropTags(q: Queue, s: nat, t: nat)
    requires QueueOk(q) && IsSeg(q, t) && s in q.live && s in q.tags && IsSpan(q.tags[s].kind) && q.tags[t].prev == To(s)
    ensures DropSpan(q, s, t).tags.Keys == q.tags.Keys
  {
    assert LinkOk(q, t) && LinkOk(q, s);
  }

  lemma DropView(q: Queue, s: nat, t: nat)
    requires QueueOk(q) && Quiet(q, Null) && IsSeg(q, t) && s in q.live && s in q.tags && IsSpan(q.tags[s].kind)
    requires q.tags[t].prev == To(s) && q.tags[t].size == q.tags[s].size && q.tags[t].kind.Vacant?
    ensures var q' := DropSpan(q, s, t);
      && (forall x :: Vac(q', x) <==> Vac(q, x) && !(q.tags[s].start <= x < End(q.tags[s])))
      && (forall b, m :: Live(q', b, m) <==> Live(q, b, m))
  {
    hide QueueOk, Quiet, DropSpan;
    DropEffect(q, s, t);
    DropTags(q, s, t);
    FillsExactly(q, s, t);
    var q' := DropSpan(q, s, t);
    forall x ensures Vac(q', x) <==> Vac(q, x) && !(q.tags[s].start <= x < End(q.tags[s])) {
      if u :| At(q, u, x) && q.tags[u].kind.Vacant? && !(q.tags[s].start <= x < End(q.tags[s])) { assert At(q', u, x); }
      if u :| At(q', u, x) && q'.tags[u].kind.Vacant? {
        assert At(q, u, x) && u != t;
        if At(q, t, x) { InOne(q, t, u, x); }
        assert !At(q, t, x);
      }
    }
    forall b, m ensures Live(q', b, m) <==> Live(q, b, m) {
      if u :| IsSeg(q, u) && q.tags[u].kind.Allocated? && q.tags[u].start == b && q.tags[u].size == m { assert IsSeg(q', u); }
      if u :| IsSeg(q', u) && q'.tags[u].kind.Allocated? && q'.tags[u].start == b && q'.tags[u].size == m { assert IsSeg(q, u); }
    }
  }

  lemma FillsExactly(q: Queue, s: nat, t: nat)
    requires QueueOk(q) && IsSeg(q, t) && s in q.tags && q.tags[t].prev == To(s) && q.tags[t].size == q.tags[s].size && IsSpan(q.tags[s].kind)
    ensures q.tags[t].start == q.tags[s].start && t != s
  {
    assert SegOk(q, t);
  }

  lemma FoundIs(q: Queue, found: Ref, addr: int, size: int)
    requires QueueOk(q) && Live(q, addr, size)
    requires found.To? ==> IsSeg(q, found.tag) && q.tags[found.tag].kind.Allocated? && q.tags[found.tag].start == addr
    requires found.Null? ==> forall n :: !Live(q, addr, n)
    ensures found.To? && q.tags[found.tag].size == size > 0
  {
    var t :| IsSeg(q, t) && q.tags[t].kind.Allocated? && q.tags[t].start == addr && q.tags[t].size == size;
    SegHasPrev(q, t);
    SegHasPrev(q, found.tag);
    InOne(q, t, found.tag, addr);
  }

  lemma VacatedSpans(q: Queue, t: nat)
    requires IsSeg(q, t)
    ensures SpansSame(q, SetKind(q, t, Vacant))
  {
  }

  lemma ViewAcross(q0: Queue, q1: Queue, q3: Queue, addr: int, size: int)
    requires SameView(q0, q1, addr, size) && (forall x :: Vac(q3, x) <==> Vac(q1, x)) && (forall b, m :: Live(q3, b, m) <==> Live(q1, b, m))
    ensures forall x :: Vac(q3, x) <==> Vac(q0, x) || addr <= x < addr + size
    ensures forall b, m :: Live(q3, b, m) <==> Live(q0, b, m) && !(b == addr && m == size)
  {
    hide Vac, Live;
  }

  /** The test at the end of `vmem_xfree` finds out whether the span is unused. */
  lemma ReturnedIs(q0: Queue, q3: Queue, t0: nat, t: nat, addr: int, size: int)
    requires QueueOk(q0) && QueueOk(q3) && Quiet(q3, Null) && SpansSame(q0, q3)
    requires IsSeg(q0, t0) && q0.tags[t0].kind.Allocated? && q0.tags[t0].start == addr && q0.tags[t0].size == size
    requires IsSeg(q3, t) && q3.tags[t].kind.Vacant? && t in q3.span && t0 in q0.span && q3.span[t] == q0.span[t0]
    requires forall b, m :: Live(q3, b, m) <==> Live(q0, b, m) && !(b == addr && m == size)
    ensures q3.tags[t].prev.To? && q3.tags[t].prev.tag in q3.tags
    ensures var s, left := q0.span[t0], q3.tags[t].prev.tag;
      && IsSpanAt(q0, s, addr)
      && (if q3.tags[left].kind.Imported? && q3.tags[t].size == q3.tags[left].size
          then left == s && left in q3.live && Returned(q0, s, addr) == Given(q3.tags[left].start, q3.tags[left].size)
          else Returned(q0, s, addr) == NoSource)
  {
    hide QueueOk, Quiet, Live, Vac, SpansSame;
    var s := q0.span[t0];
    FillsSpan(q3, t);
    PrevSpan(q3, t);
    SegInSpan(q0, t0);
    SpanAcross(q0, q3, s);
    OnlyUseIs(q0, q3, t0, s, addr, size);
  }

  lemma PrevSpan(q: Queue, t: nat)
    requires QueueOk(q) && IsSeg(q, t)
    ensures q.tags[t].prev.To? && q.tags[t].prev.tag in q.tags && q.tags[t].prev.tag in q.live && t in q.span
    ensures IsSpan(q.tags[q.tags[t].prev.tag].kind) ==> q.tags[t].prev.tag == q.span[t]
  {
    assert SegOk(q, t) && LinkOk(q, t);
  }

  lemma SegInSpan(q: Queue, t: nat)
    requires QueueOk(q) && IsSeg(q, t)
    ensures t in q.span && q.span[t] in q.live && q.span[t] in q.tags && IsSpan(q.tags[q.span[t]].kind) && q.tags[t].size > 0
    ensures q.tags[q.span[t]].start <= q.tags[t].start && End(q.tags[t]) <= End(q.tags[q.span[t]])
  {
    assert SegOk(q, t);
  }

  lemma SpanAcross(q: Queue, q': Queue, s: nat)
    requires SpansSame(q, q') && s in q.live && s in q.tags && IsSpan(q.tags[s].kind)
    ensures s in q'.live && s in q'.tags && q'.tags[s].start == q.tags[s].start && q'.tags[s].size == q.tags[s].size
    ensures q'.tags[s].kind == q.tags[s].kind
  {
    assert SpanSame(q, q', s);
  }

  lemma OnlyUseIs(q0: Queue, q3: Queue, t0: nat, s: nat, addr: int, size: int)
    requires QueueOk(q0) && QueueOk(q3) && s in q0.live && s in q0.tags && s in q3.live && s in q3.tags && IsSpan(q3.tags[s].kind)
    requires q3.tags[s].start == q0.tags[s].start && q3.tags[s].size == q0.tags[s].size
    requires IsSeg(q0, t0) && q0.tags[t0].kind.Allocated? && q0.tags[t0].start == addr && q0.tags[t0].size == size
    requires forall b, m :: Live(q3, b, m) <==> Live(q0, b, m) && !(b == addr && m == size)
    ensures OnlyUse(q0, s, addr) <==> !InUse(q3, s)
  {
    hide QueueOk;
    assert Live(q0, addr, size);
    SegInSpan(q0, t0);
    if u :| IsSeg(q3, u) && q3.tags[u].kind.Allocated? && u in q3.span && q3.span[u] == s {
      SegInSpan(q3, u);
      var b, m := q3.tags[u].start, q3.tags[u].size;
      assert Live(q3, b, m);
      LiveApart(q0, addr, size, b, m, addr);
      assert b != addr;
    }
    if b, m :| Live(q0, b, m) && q0.tags[s].start <= b < End(q0.tags[s]) && b != addr {
      assert Live(q3, b, m);
      var u :| IsSeg(q3, u) && q3.tags[u].kind.Allocated? && q3.tags[u].start == b && q3.tags[u].size == m;
      SegInSpan(q3, u);
      SpanUnique(q3, s, q3.span[u], b);
    }
  }

  lemma SpanUnique(q: Queue, s: nat, s': nat, x: int)
    requires QueueOk(q) && IsSpanAt(q, s, x) && IsSpanAt(q, s', x)
    ensures s == s'
  {
    assert ApartOk(q, s, s');
  }

  lemma SmallRemainder(a: int, b: int)
    requires 0 < a < b
    ensures a % b == a
  {
  }

  lemma FileFree(q: Queue, lists: seq<seq<nat>>, ex: set<nat>, t: nat, k: int)
    requires FreeListsOk(q, lists, ex) && t in ex && Filed(q, t, k) && 0 <= k < FREELIST_COUNT
    ensures FreeListsOk(q, lists[k := [t] + lists[k]], ex - {t})
  {
    InsertDistinct(lists[k], t);
  }

  lemma UnfileFree(q: Queue, lists: seq<seq<nat>>, ex: set<nat>, t: nat, k: int)
    requires FreeListsOk(q, lists, ex) && Filed(q, t, k) && 0 <= k < FREELIST_COUNT
    ensures FreeListsOk(q, lists[k := Without(lists[k], t)], ex + {t})
  {
    WithoutOk(lists[k], t);
  }

  /** A tag that is not allocated may or may not be left out of the buckets. */
  lemma UnhashVacant(q: Queue, lists: seq<seq<nat>>, hash: int -> nat, ex: set<nat>, t: nat)
    requires BucketsOk(q, lists, hash, ex) && t in q.tags && (IsSeg(q, t) ==> !q.tags[t].kind.Allocated?)
    ensures BucketsOk(q, lists, hash, ex + {t}) && BucketsOk(q, lists, hash, ex - {t})
  {
  }
}
