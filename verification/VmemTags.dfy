/** The boundary tags of a vmem arena: a doubly linked queue of span tags, each
    followed by the segments that tile it. */
module VmemTags {

  datatype Kind = Span | Imported | Vacant | Allocated

  datatype Ref = Null | To(tag: nat)

  datatype Tag = Tag(kind: Kind, start: int, size: int, prev: Ref, next: Ref)

  /** The queue as it is in memory, with the tags that are on it, for each
      segment the span it belongs to, and for each span a place in the order. */
  datatype Queue = Queue(tags: map<nat, Tag>, head: Ref, tail: Ref, live: set<nat>, span: map<nat, nat>, rank: map<nat, real>)

  predicate IsSpan(k: Kind) {
    k.Span? || k.Imported?
  }

  function End(t: Tag): int {
    t.start + t.size
  }

  // Invariant --------------------------------------------------------------------

  ghost predicate LinkOk(q: Queue, t: nat) {
    t in q.live ==>
      && t in q.tags
      && (match q.tags[t].prev
          case Null => q.head == To(t) && IsSpan(q.tags[t].kind)
          case To(p) => p in q.live && p in q.tags && q.tags[p].next == To(t))
      && (match q.tags[t].next
          case Null => q.tail == To(t) && !IsSpan(q.tags[t].kind)
          case To(n) => n in q.live && n in q.tags && q.tags[n].prev == To(t))
  }

  ghost predicate EndsOk(q: Queue) {
    && (q.head.To? ==> q.head.tag in q.live && q.head.tag in q.tags && q.tags[q.head.tag].prev == Null)
    && (q.tail.To? ==> q.tail.tag in q.live && q.tail.tag in q.tags && q.tags[q.tail.tag].next == Null)
    && (q.head.Null? <==> q.tail.Null?)
  }

  /** A segment lies in its span, right behind what precedes it. */
  ghost predicate SegOk(q: Queue, t: nat) {
    t in q.live && t in q.tags && !IsSpan(q.tags[t].kind) ==>
      var x := q.tags[t];
      && x.size > 0 && t in q.span && q.span[t] in q.live && q.span[t] in q.tags
      && var s := q.tags[q.span[t]];
         && IsSpan(s.kind) && s.start <= x.start && End(x) <= End(s)
         && x.prev.To? && x.prev.tag in q.tags
         && (var p := q.tags[x.prev.tag];
             if IsSpan(p.kind) then x.prev.tag == q.span[t] && x.start == s.start
             else x.prev.tag in q.span && q.span[x.prev.tag] == q.span[t] && x.start == End(p))
         && ((x.next.To? && x.next.tag in q.tags && !IsSpan(q.tags[x.next.tag].kind)) || End(x) == End(s))
  }

  /** A span is followed by a segment, and preceded by one of an earlier span. */
  ghost predicate SpanOk(q: Queue, s: nat) {
    s in q.live && s in q.tags && IsSpan(q.tags[s].kind) ==>
      var x := q.tags[s];
      && x.size > 0 && x.next.To? && x.next.tag in q.tags && !IsSpan(q.tags[x.next.tag].kind) && s in q.rank
      && (x.prev.To? ==>
            && x.prev.tag in q.tags && !IsSpan(q.tags[x.prev.tag].kind)
            && x.prev.tag in q.span && q.span[x.prev.tag] in q.rank && q.rank[q.span[x.prev.tag]] < q.rank[s])
  }

  ghost predicate Overlap(x: Tag, y: Tag) {
    x.start < End(y) && y.start < End(x)
  }

  ghost predicate ApartOk(q: Queue, s: nat, s': nat) {
    s in q.live && s in q.tags && s' in q.live && s' in q.tags && s != s' && IsSpan(q.tags[s].kind) && IsSpan(q.tags[s'].kind) ==>
      !Overlap(q.tags[s], q.tags[s'])
  }

  ghost predicate QueueOk(q: Queue) {
    && EndsOk(q) && (forall t :: LinkOk(q, t)) && (forall t :: SegOk(q, t)) && (forall t :: SpanOk(q, t))
    && (forall s, s' :: ApartOk(q, s, s'))
  }

  /** No two neighbouring segments are both vacant, except perhaps around `x`. */
  ghost predicate QuietAt(q: Queue, t: nat, x: Ref) {
    (t in q.live && t in q.tags && q.tags[t].kind.Vacant? && q.tags[t].prev.To? && q.tags[t].prev.tag in q.tags
     && q.tags[q.tags[t].prev.tag].kind.Vacant?) ==>
      x == To(t) || x == q.tags[t].prev
  }

  ghost predicate Quiet(q: Queue, x: Ref) {
    forall t :: QuietAt(q, t, x)
  }

  // What it means ------------------------------------------------------------------

  ghost predicate IsSeg(q: Queue, t: nat) {
    t in q.live && t in q.tags && !IsSpan(q.tags[t].kind)
  }

  ghost predicate At(q: Queue, t: nat, a: int) {
    IsSeg(q, t) && q.tags[t].start <= a < End(q.tags[t])
  }

  /** Segments do not overlap. */
  lemma {:induction false} SegmentsApart(q: Queue, t: nat, u: nat, a: int)
    requires QueueOk(q) && At(q, t, a) && At(q, u, a) && t in q.span && q.span[t] in q.tags
    ensures t == u
    decreases q.tags[t].start + q.tags[u].start - 2 * q.tags[q.span[t]].start, if q.tags[t].start <= q.tags[u].start then 0 else 1
  {
    SameSpan(q, t, u, a);
    if q.tags[u].start < q.tags[t].start {
      SegmentsApart(q, u, t, a);
    } else if q.tags[t].start == q.tags[u].start {
      if IsSpan(q.tags[q.tags[u].prev.tag].kind) || IsSpan(q.tags[q.tags[t].prev.tag].kind) {
        BothFirst(q, t, u);
      } else {
        Before(q, t);
        Before(q, u);
        SegmentsApart(q, q.tags[t].prev.tag, q.tags[u].prev.tag, q.tags[t].start - 1);
        assert LinkOk(q, t) && LinkOk(q, u);
      }
    } else {
      NotFirst(q, u, q.tags[t].start);
      Before(q, u);
      SegmentsApart(q, t, q.tags[u].prev.tag, q.tags[u].start - 1);
    }
  }

  lemma SameSpan(q: Queue, t: nat, u: nat, a: int)
    requires QueueOk(q) && At(q, t, a) && At(q, u, a)
    ensures t in q.span && u in q.span && q.span[t] == q.span[u] && q.span[t] in q.tags
    ensures q.tags[q.span[t]].start <= q.tags[t].start && q.tags[q.span[t]].start <= q.tags[u].start
    ensures q.tags[t].prev.To? && q.tags[t].prev.tag in q.tags && q.tags[u].prev.To? && q.tags[u].prev.tag in q.tags
  {
    assert SegOk(q, t) && SegOk(q, u);
    assert ApartOk(q, q.span[t], q.span[u]);
  }

  /** The segment before a segment, if it is not a span tag. */
  lemma Before(q: Queue, t: nat)
    requires QueueOk(q) && IsSeg(q, t)
    ensures var x := q.tags[t];
      && x.prev.To? && x.prev.tag in q.tags
      && (!IsSpan(q.tags[x.prev.tag].kind) ==>
            && At(q, x.prev.tag, x.start - 1) && q.tags[x.prev.tag].start < x.start && End(q.tags[x.prev.tag]) == x.start
            && x.prev.tag in q.span && t in q.span && q.span[x.prev.tag] == q.span[t])
  {
    assert SegOk(q, t) && LinkOk(q, t);
    assert SegOk(q, q.tags[t].prev.tag);
  }

  lemma NotFirst(q: Queue, u: nat, at: int)
    requires QueueOk(q) && IsSeg(q, u) && u in q.span && q.span[u] in q.tags && q.tags[q.span[u]].start <= at < q.tags[u].start
    ensures q.tags[u].prev.To? && q.tags[u].prev.tag in q.tags && !IsSpan(q.tags[q.tags[u].prev.tag].kind)
  {
    assert SegOk(q, u);
  }

  lemma BothFirst(q: Queue, t: nat, u: nat)
    requires QueueOk(q) && IsSeg(q, t) && IsSeg(q, u) && q.tags[t].start == q.tags[u].start
    requires t in q.span && u in q.span && q.span[t] == q.span[u]
    requires q.tags[t].prev.To? && q.tags[t].prev.tag in q.tags && q.tags[u].prev.To? && q.tags[u].prev.tag in q.tags
    requires IsSpan(q.tags[q.tags[u].prev.tag].kind) || IsSpan(q.tags[q.tags[t].prev.tag].kind)
    ensures t == u
  {
    assert SegOk(q, t) && SegOk(q, u) && LinkOk(q, t) && LinkOk(q, u);
    assert SegOk(q, q.tags[t].prev.tag) && SegOk(q, q.tags[u].prev.tag);
  }

  /** Segments leave no hole in their span. */
  lemma SpanCovered(q: Queue, s: nat, a: int) returns (t: nat)
    requires QueueOk(q) && s in q.live && s in q.tags && IsSpan(q.tags[s].kind) && q.tags[s].start <= a < End(q.tags[s])
    ensures At(q, t, a) && t in q.span && q.span[t] == s
  {
    assert SpanOk(q, s) && LinkOk(q, s);
    assert SegOk(q, q.tags[s].next.tag) && LinkOk(q, q.tags[s].next.tag);
    t := CoveredFrom(q, s, q.tags[s].next.tag, a);
  }

  lemma {:induction false} CoveredFrom(q: Queue, s: nat, u: nat, a: int) returns (t: nat)
    requires QueueOk(q) && IsSeg(q, u) && u in q.span && q.span[u] == s && s in q.tags && q.tags[u].start <= a < End(q.tags[s])
    ensures At(q, t, a) && t in q.span && q.span[t] == s
    decreases End(q.tags[s]) - End(q.tags[u])
  {
    assert SegOk(q, u) && LinkOk(q, u);
    if a < End(q.tags[u]) {
      t := u;
    } else {
      var n := q.tags[u].next.tag;
      assert SegOk(q, n) && LinkOk(q, n);
      t := CoveredFrom(q, s, n, a);
    }
  }

  // Cutting a segment ----------------------------------------------------------------

  function Relink(tags: map<nat, Tag>, r: Ref, prev: Ref): map<nat, Tag> {
    if r.To? && r.tag in tags then tags[r.tag := tags[r.tag].(prev := prev)] else tags
  }

  /** The part of segment `t` below `at` becomes the vacant segment `l`. */
  ghost function CutLeft(q: Queue, t: nat, at: int, l: nat): Queue
    requires IsSeg(q, t) && q.tags[t].prev.To? && q.tags[t].prev.tag in q.tags && t in q.span
  {
    var x, p := q.tags[t], q.tags[t].prev.tag;
    q.(tags := q.tags[p := q.tags[p].(next := To(l))]
                     [l := Tag(Vacant, x.start, at - x.start, x.prev, To(t))]
                     [t := x.(start := at, size := End(x) - at, prev := To(l))],
       live := q.live + {l}, span := q.span[l := q.span[t]])
  }

  lemma CutLeftOk(q: Queue, t: nat, at: int, l: nat)
    requires QueueOk(q) && IsSeg(q, t) && l !in q.live && q.tags[t].start < at < End(q.tags[t])
    ensures q.tags[t].prev.To? && q.tags[t].prev.tag in q.tags && t in q.span && q.tags[t].prev.tag != t
    ensures QueueOk(CutLeft(q, t, at, l))
  {
    assert SegOk(q, t) && LinkOk(q, t);
    var q' := CutLeft(q, t, at, l);
    forall x ensures LinkOk(q', x) { CutLeftLink(q, t, at, l, x); }
    forall x ensures SegOk(q', x) && SpanOk(q', x) { CutLeftSeg(q, t, at, l, x); }
    forall s, s' ensures ApartOk(q', s, s') { assert ApartOk(q, s, s'); }
  }

  /** The invariant at one tag. */
  lemma TagOk(q: Queue, t: nat)
    requires QueueOk(q)
    ensures LinkOk(q, t) && SegOk(q, t) && SpanOk(q, t)
  {
  }

  lemma CutLeftLink(q: Queue, t: nat, at: int, l: nat, x: nat)
    requires QueueOk(q) && IsSeg(q, t) && l !in q.live && q.tags[t].prev.To? && q.tags[t].prev.tag in q.tags && t in q.span
    ensures LinkOk(CutLeft(q, t, at, l), x)
  {
    assert SegOk(q, t) && LinkOk(q, x) && LinkOk(q, t) && LinkOk(q, q.tags[t].prev.tag);
  }

  lemma CutLeftSeg(q: Queue, t: nat, at: int, l: nat, x: nat)
    requires QueueOk(q) && IsSeg(q, t) && l !in q.live && q.tags[t].prev.To? && q.tags[t].prev.tag in q.tags && t in q.span
    requires q.tags[t].start < at < End(q.tags[t])
    ensures SegOk(CutLeft(q, t, at, l), x) && SpanOk(CutLeft(q, t, at, l), x)
  {
    hide QueueOk;
    TagOk(q, t);
    TagOk(q, x);
    TagOk(q, q.tags[t].prev.tag);
  }

  /** The part of segment `t` from `at` on becomes the vacant segment `r`. */
  ghost function CutRight(q: Queue, t: nat, at: int, r: nat): Queue
    requires IsSeg(q, t) && t in q.span
  {
    var x := q.tags[t];
    q.(tags := Relink(q.tags, x.next, To(r))[r := Tag(Vacant, at, End(x) - at, To(t), x.next)][t := x.(size := at - x.start, next := To(r))],
       live := q.live + {r}, span := q.span[r := q.span[t]], tail := if x.next.Null? then To(r) else q.tail)
  }

  lemma CutRightOk(q: Queue, t: nat, at: int, r: nat)
    requires QueueOk(q) && IsSeg(q, t) && r !in q.live && q.tags[t].start < at < End(q.tags[t])
    ensures t in q.span && QueueOk(CutRight(q, t, at, r)) && (q.tags[t].next.To? ==> q.tags[t].next.tag in q.tags && q.tags[t].next.tag != t)
  {
    assert SegOk(q, t) && LinkOk(q, t);
    var q' := CutRight(q, t, at, r);
    forall x ensures LinkOk(q', x) { CutRightLink(q, t, at, r, x); }
    forall x ensures SegOk(q', x) { CutRightSeg(q, t, at, r, x); }
    forall x ensures SpanOk(q', x) { CutRightSpan(q, t, at, r, x); }
    forall s, s' ensures ApartOk(q', s, s') { assert ApartOk(q, s, s'); }
    assert q.tags[t].next.To? ==> SegOk(q, q.tags[t].next.tag) && SpanOk(q, q.tags[t].next.tag);
  }

  lemma CutRightLink(q: Queue, t: nat, at: int, r: nat, x: nat)
    requires QueueOk(q) && IsSeg(q, t) && r !in q.live && t in q.span
    ensures LinkOk(CutRight(q, t, at, r), x)
  {
    assert SegOk(q, t) && LinkOk(q, x) && LinkOk(q, t);
    if q.tags[t].next.To? { assert LinkOk(q, q.tags[t].next.tag) && SegOk(q, q.tags[t].next.tag); }
  }

  lemma CutRightSeg(q: Queue, t: nat, at: int, r: nat, x: nat)
    requires QueueOk(q) && IsSeg(q, t) && r !in q.live && t in q.span && q.tags[t].start < at < End(q.tags[t])
    ensures SegOk(CutRight(q, t, at, r), x)
  {
    hide QueueOk, SegOk, CutRight;
    CutRightParts(q, t, at, r);
    if q.tags[t].next == To(x) {
      CutRightNext(q, t, at, r);
    } else if x != t && x != r {
      CutRightRest(q, t, at, r, x);
    }
  }

  lemma CutRightParts(q: Queue, t: nat, at: int, r: nat)
    requires QueueOk(q) && IsSeg(q, t) && r !in q.live && t in q.span && q.tags[t].start < at < End(q.tags[t])
    ensures SegOk(CutRight(q, t, at, r), t) && SegOk(CutRight(q, t, at, r), r)
  {
    hide QueueOk;
    TagOk(q, t);
    if q.tags[t].next.To? { TagOk(q, q.tags[t].next.tag); }
  }

  lemma CutRightNext(q: Queue, t: nat, at: int, r: nat)
    requires QueueOk(q) && IsSeg(q, t) && r !in q.live && t in q.span && q.tags[t].start < at < End(q.tags[t])
    requires q.tags[t].next.To?
    ensures SegOk(CutRight(q, t, at, r), q.tags[t].next.tag)
  {
    hide QueueOk;
    TagOk(q, t);
    TagOk(q, q.tags[t].next.tag);
  }

  lemma CutRightRest(q: Queue, t: nat, at: int, r: nat, x: nat)
    requires QueueOk(q) && IsSeg(q, t) && r !in q.live && t in q.span && q.tags[t].start < at < End(q.tags[t])
    requires x != t && x != r && q.tags[t].next != To(x)
    ensures SegOk(CutRight(q, t, at, r), x)
  {
    hide QueueOk;
    TagOk(q, t);
    TagOk(q, x);
  }

  lemma CutRightSpan(q: Queue, t: nat, at: int, r: nat, x: nat)
    requires QueueOk(q) && IsSeg(q, t) && r !in q.live && t in q.span && q.tags[t].start < at < End(q.tags[t])
    ensures SpanOk(CutRight(q, t, at, r), x)
  {
    assert SegOk(q, t) && LinkOk(q, t) && SegOk(q, x) && SpanOk(q, x) && LinkOk(q, x);
    if q.tags[t].next.To? {
      var n := q.tags[t].next.tag;
      assert SegOk(q, n) && SpanOk(q, n) && LinkOk(q, n);
    }
  }

  // Joining segments -----------------------------------------------------------------

  /** `TAILQ_REMOVE`. */
  function Unlinked(tags: map<nat, Tag>, t: nat): map<nat, Tag>
    requires t in tags
  {
    var x := tags[t];
    var tags := Relink(tags, x.next, x.prev);
    if x.prev.To? && x.prev.tag in tags then tags[x.prev.tag := tags[x.prev.tag].(next := x.next)] else tags
  }

  ghost function Removed(q: Queue, t: nat): Queue
    requires t in q.tags
  {
    var x := q.tags[t];
    q.(tags := Unlinked(q.tags, t), live := q.live - {t},
       head := if x.prev.Null? then x.next else q.head, tail := if x.next.Null? then x.prev else q.tail)
  }

  /** Segment `t` becomes part of the segment `p` before it. */
  ghost function JoinLeft(q: Queue, p: nat, t: nat): Queue
    requires t in q.tags && p in q.tags
  {
    var q' := Removed(q, t);
    q'.(tags := if p in q'.tags then q'.tags[p := q'.tags[p].(size := q.tags[p].size + q.tags[t].size)] else q'.tags)
  }

  lemma JoinLeftOk(q: Queue, p: nat, t: nat)
    requires QueueOk(q) && IsSeg(q, t) && IsSeg(q, p) && q.tags[t].prev == To(p)
    ensures QueueOk(JoinLeft(q, p, t))
  {
    assert SegOk(q, t) && LinkOk(q, t) && SegOk(q, p) && LinkOk(q, p);
    var q' := JoinLeft(q, p, t);
    forall x ensures LinkOk(q', x) { JoinLeftLink(q, p, t, x); }
    forall x ensures SegOk(q', x) && SpanOk(q', x) { JoinLeftSeg(q, p, t, x); }
    forall s, s' ensures ApartOk(q', s, s') { assert ApartOk(q, s, s'); }
    if q.tags[t].next.To? { assert LinkOk(q, q.tags[t].next.tag); }
  }

  lemma JoinLeftLink(q: Queue, p: nat, t: nat, x: nat)
    requires QueueOk(q) && IsSeg(q, t) && IsSeg(q, p) && q.tags[t].prev == To(p)
    ensures LinkOk(JoinLeft(q, p, t), x)
  {
    assert SegOk(q, t) && SegOk(q, p) && LinkOk(q, x) && LinkOk(q, t) && LinkOk(q, p);
    if q.tags[t].next.To? { assert LinkOk(q, q.tags[t].next.tag) && SegOk(q, q.tags[t].next.tag) && SpanOk(q, q.tags[t].next.tag); }
  }

  lemma JoinLeftSeg(q: Queue, p: nat, t: nat, x: nat)
    requires QueueOk(q) && IsSeg(q, t) && IsSeg(q, p) && q.tags[t].prev == To(p)
    ensures SegOk(JoinLeft(q, p, t), x) && SpanOk(JoinLeft(q, p, t), x)
  {
    hide QueueOk, JoinLeft, SegOk, SpanOk;
    JoinLeftSegOk(q, p, t, x);
    JoinLeftSpanOk(q, p, t, x);
  }

  lemma JoinLeftSegOk(q: Queue, p: nat, t: nat, x: nat)
    requires QueueOk(q) && IsSeg(q, t) && IsSeg(q, p) && q.tags[t].prev == To(p)
    ensures SegOk(JoinLeft(q, p, t), x)
  {
    hide QueueOk;
    TagOk(q, t);
    TagOk(q, p);
    TagOk(q, x);
    if q.tags[t].next.To? { TagOk(q, q.tags[t].next.tag); }
  }

  lemma JoinLeftSpanOk(q: Queue, p: nat, t: nat, x: nat)
    requires QueueOk(q) && IsSeg(q, t) && IsSeg(q, p) && q.tags[t].prev == To(p)
    ensures SpanOk(JoinLeft(q, p, t), x)
  {
    hide QueueOk;
    TagOk(q, t);
    TagOk(q, p);
    TagOk(q, x);
    if q.tags[t].next.To? { TagOk(q, q.tags[t].next.tag); }
  }

  /** Segment `t` becomes part of the segment `n` behind it. */
  ghost function JoinRight(q: Queue, t: nat, n: nat): Queue
    requires t in q.tags && n in q.tags
  {
    var q' := Removed(q, t);
    q'.(tags := if n in q'.tags then q'.tags[n := q'.tags[n].(start := q.tags[t].start, size := q.tags[n].size + q.tags[t].size)] else q'.tags)
  }

  lemma JoinRightOk(q: Queue, t: nat, n: nat)
    requires QueueOk(q) && IsSeg(q, t) && IsSeg(q, n) && q.tags[t].next == To(n)
    ensures QueueOk(JoinRight(q, t, n))
  {
    assert SegOk(q, t) && LinkOk(q, t) && SegOk(q, n) && LinkOk(q, n) && LinkOk(q, q.tags[t].prev.tag);
    var q' := JoinRight(q, t, n);
    forall x ensures LinkOk(q', x) { JoinRightLink(q, t, n, x); }
    forall x ensures SegOk(q', x) && SpanOk(q', x) { JoinRightSeg(q, t, n, x); }
    forall s, s' ensures ApartOk(q', s, s') { assert ApartOk(q, s, s'); }
  }

  lemma JoinRightLink(q: Queue, t: nat, n: nat, x: nat)
    requires QueueOk(q) && IsSeg(q, t) && IsSeg(q, n) && q.tags[t].next == To(n)
    ensures LinkOk(JoinRight(q, t, n), x)
  {
    assert SegOk(q, t) && SegOk(q, n) && LinkOk(q, x) && LinkOk(q, t) && LinkOk(q, n);
    var p := q.tags[t].prev.tag;
    assert LinkOk(q, p) && SegOk(q, p) && SpanOk(q, p);
  }

  lemma JoinRightSeg(q: Queue, t: nat, n: nat, x: nat)
    requires QueueOk(q) && IsSeg(q, t) && IsSeg(q, n) && q.tags[t].next == To(n)
    ensures SegOk(JoinRight(q, t, n), x) && SpanOk(JoinRight(q, t, n), x)
  {
    hide QueueOk;
    TagOk(q, t);
    TagOk(q, n);
    TagOk(q, x);
    TagOk(q, q.tags[t].prev.tag);
  }

  // Spans ----------------------------------------------------------------------------

  /** A new span `s` with its one vacant segment `f`, before the span tag `n` or
      at the tail. */
  ghost function AddSpan(q: Queue, s: nat, f: nat, kind: Kind, start: int, size: int, n: Ref): Queue {
    var p := if n.To? && n.tag in q.tags then q.tags[n.tag].prev else q.tail;
    var tags := Relink(q.tags, n, To(f));
    var tags := if p.To? && p.tag in tags then tags[p.tag := tags[p.tag].(next := To(s))] else tags;
    Queue(tags[s := Tag(kind, start, size, p, To(f))][f := Tag(Vacant, start, size, To(s), n)],
          if p.Null? then To(s) else q.head, if n.Null? then To(f) else q.tail, q.live + {s, f}, q.span[f := s],
          q.rank[s := NewRank(q, p, n)])
  }

  /** A place between what comes before and after. */
  ghost function NewRank(q: Queue, p: Ref, n: Ref): real {
    var lo := p.To? && p.tag in q.span && q.span[p.tag] in q.rank;
    var hi := n.To? && n.tag in q.rank;
    if lo && hi then (q.rank[q.span[p.tag]] + q.rank[n.tag]) / 2.0
    else if lo then q.rank[q.span[p.tag]] + 1.0
    else if hi then q.rank[n.tag] - 1.0
    else 0.0
  }

  /** [start, start + size) overlaps no span. */
  ghost predicate Unclaimed(q: Queue, start: int, size: int) {
    forall s :: s in q.live && s in q.tags && IsSpan(q.tags[s].kind) ==> !(start < End(q.tags[s]) && q.tags[s].start < start + size)
  }

  lemma AddSpanOk(q: Queue, s: nat, f: nat, kind: Kind, start: int, size: int, n: Ref)
    requires QueueOk(q) && s !in q.live && f !in q.live && s != f && IsSpan(kind) && size > 0 && Unclaimed(q, start, size)
    requires n.To? ==> n.tag in q.live && n.tag in q.tags && IsSpan(q.tags[n.tag].kind)
    ensures QueueOk(AddSpan(q, s, f, kind, start, size, n))
  {
    var q' := AddSpan(q, s, f, kind, start, size, n);
    if n.To? { assert LinkOk(q, n.tag) && SpanOk(q, n.tag); }
    if q.tail.To? { assert LinkOk(q, q.tail.tag); }
    forall x ensures LinkOk(q', x) { AddSpanLink(q, s, f, kind, start, size, n, x); }
    forall x ensures SegOk(q', x) { AddSpanSeg(q, s, f, kind, start, size, n, x); }
    forall x ensures SpanOk(q', x) { AddSpanSpan(q, s, f, kind, start, size, n, x); }
    forall x, y ensures ApartOk(q', x, y) { assert ApartOk(q, x, y); }
  }

  lemma AddSpanLink(q: Queue, s: nat, f: nat, kind: Kind, start: int, size: int, n: Ref, x: nat)
    requires QueueOk(q) && s !in q.live && f !in q.live && s != f && IsSpan(kind)
    requires n.To? ==> n.tag in q.live && n.tag in q.tags && IsSpan(q.tags[n.tag].kind)
    ensures LinkOk(AddSpan(q, s, f, kind, start, size, n), x)
  {
    assert LinkOk(q, x);
    if n.To? { assert LinkOk(q, n.tag) && SpanOk(q, n.tag); } else if q.tail.To? { assert LinkOk(q, q.tail.tag); }
  }

  lemma AddSpanSeg(q: Queue, s: nat, f: nat, kind: Kind, start: int, size: int, n: Ref, x: nat)
    requires QueueOk(q) && s !in q.live && f !in q.live && s != f && IsSpan(kind) && size > 0
    requires n.To? ==> n.tag in q.live && n.tag in q.tags && IsSpan(q.tags[n.tag].kind)
    ensures SegOk(AddSpan(q, s, f, kind, start, size, n), x)
  {
    hide QueueOk, NewRank;
    if x == s || x == f {
      assert SegOk(AddSpan(q, s, f, kind, start, size, n), x);
    } else {
      hide AddSpan;
      AddSpanLast(q, s, f, kind, start, size, n, x);
      forall u { AddSpanKept(q, s, f, kind, start, size, n, u); }
      AddSpanElse(q, AddSpan(q, s, f, kind, start, size, n), s, f, x);
    }
  }

  /** Other tags keep their place, but for what follows the last one before. */
  lemma AddSpanLast(q: Queue, s: nat, f: nat, kind: Kind, start: int, size: int, n: Ref, x: nat)
    requires QueueOk(q) && s !in q.live && f !in q.live && s != f && IsSpan(kind) && size > 0
    requires n.To? ==> n.tag in q.live && n.tag in q.tags && IsSpan(q.tags[n.tag].kind)
    requires x != s && x != f
    ensures var q' := AddSpan(q, s, f, kind, start, size, n);
      && (IsSeg(q, x) && x in q'.tags ==> q'.tags[x].prev == q.tags[x].prev)
      && (IsSeg(q, x) && x in q'.tags && q'.tags[x].next != q.tags[x].next ==> q.tags[x].next == n)
  {
    Ends(q);
    hide QueueOk, NewRank;
    if n.To? { TagOk(q, n.tag); }
    TagOk(q, x);
  }

  lemma Ends(q: Queue)
    requires QueueOk(q)
    ensures EndsOk(q)
  {
  }

  /** Tags other than `s` and `f` have the same kind, place and size. */
  ghost predicate KeptAt(q: Queue, q': Queue, s: nat, f: nat, u: nat) {
    u != s && u != f ==>
      && (u in q.live <==> u in q'.live) && (u in q.tags <==> u in q'.tags) && (u in q.span <==> u in q'.span)
      && (u in q.span && u in q'.span ==> q.span[u] == q'.span[u])
      && (u in q.tags && u in q'.tags ==>
            q'.tags[u].kind == q.tags[u].kind && q'.tags[u].start == q.tags[u].start && q'.tags[u].size == q.tags[u].size)
  }

  lemma AddSpanKept(q: Queue, s: nat, f: nat, kind: Kind, start: int, size: int, n: Ref, u: nat)
    requires QueueOk(q) && (n.To? ==> n.tag in q.live && n.tag in q.tags)
    ensures KeptAt(q, AddSpan(q, s, f, kind, start, size, n), s, f, u)
  {
    Ends(q);
    hide QueueOk, NewRank;
    if n.To? { TagOk(q, n.tag); }
  }

  lemma AddSpanElse(q: Queue, q': Queue, s: nat, f: nat, x: nat)
    requires QueueOk(q) && s !in q.live && f !in q.live && x != s && x != f && forall u :: KeptAt(q, q', s, f, u)
    requires IsSeg(q, x) && x in q'.tags ==> q'.tags[x].prev == q.tags[x].prev
    requires IsSeg(q, x) && x in q'.tags && q'.tags[x].next != q.tags[x].next ==>
      q.tags[x].next.Null? || (q.tags[x].next.tag in q.tags && IsSpan(q.tags[q.tags[x].next.tag].kind))
    ensures SegOk(q', x)
  {
    hide QueueOk;
    TagOk(q, x);
    assert KeptAt(q, q', s, f, x);
    if IsSeg(q, x) {
      var t := q.tags[x];
      assert KeptAt(q, q', s, f, q.span[x]) && KeptAt(q, q', s, f, t.prev.tag);
      TagOk(q, t.prev.tag);
      if t.next.To? { assert KeptAt(q, q', s, f, t.next.tag); }
    }
  }

  lemma AddSpanSpan(q: Queue, s: nat, f: nat, kind: Kind, start: int, size: int, n: Ref, x: nat)
    requires QueueOk(q) && s !in q.live && f !in q.live && s != f && IsSpan(kind) && size > 0
    requires n.To? ==> n.tag in q.live && n.tag in q.tags && IsSpan(q.tags[n.tag].kind)
    ensures SpanOk(AddSpan(q, s, f, kind, start, size, n), x)
  {
    hide QueueOk, NewRank, AddSpan, SpanOk;
    AddSpanNew(q, s, f, kind, start, size, n);
    if n.To? { AddSpanBefore(q, s, f, kind, start, size, n); }
    if x != s && n != To(x) { AddSpanOther(q, s, f, kind, start, size, n, x); }
  }

  lemma AddSpanNew(q: Queue, s: nat, f: nat, kind: Kind, start: int, size: int, n: Ref)
    requires QueueOk(q) && s !in q.live && f !in q.live && s != f && IsSpan(kind) && size > 0
    requires n.To? ==> n.tag in q.live && n.tag in q.tags && IsSpan(q.tags[n.tag].kind)
    ensures SpanOk(AddSpan(q, s, f, kind, start, size, n), s)
  {
    assert EndsOk(q);
    hide QueueOk, NewRank;
    RankOrder(q, if n.To? then q.tags[n.tag].prev else q.tail, n);
    if n.To? {
      TagOk(q, n.tag);
      if q.tags[n.tag].prev.To? { TagOk(q, q.tags[n.tag].prev.tag); }
    } else if q.tail.To? {
      TagOk(q, q.tail.tag);
      TagOk(q, q.span[q.tail.tag]);
    }
  }

  lemma AddSpanBefore(q: Queue, s: nat, f: nat, kind: Kind, start: int, size: int, n: Ref)
    requires QueueOk(q) && s !in q.live && f !in q.live && s != f && IsSpan(kind) && size > 0
    requires n.To? ==> n.tag in q.live && n.tag in q.tags && IsSpan(q.tags[n.tag].kind)
    requires n.To?
    ensures SpanOk(AddSpan(q, s, f, kind, start, size, n), n.tag)
  {
    hide QueueOk, NewRank;
    RankOrder(q, q.tags[n.tag].prev, n);
    TagOk(q, n.tag);
    if q.tags[n.tag].prev.To? { TagOk(q, q.tags[n.tag].prev.tag); }
  }

  lemma AddSpanOther(q: Queue, s: nat, f: nat, kind: Kind, start: int, size: int, n: Ref, x: nat)
    requires QueueOk(q) && s !in q.live && f !in q.live && s != f && IsSpan(kind) && size > 0
    requires n.To? ==> n.tag in q.live && n.tag in q.tags && IsSpan(q.tags[n.tag].kind)
    requires x != s && n != To(x)
    ensures SpanOk(AddSpan(q, s, f, kind, start, size, n), x)
  {
    assert EndsOk(q);
    hide QueueOk, NewRank;
    TagOk(q, x);
    if x in q.live && q.tags[x].prev.To? { TagOk(q, q.tags[x].prev.tag); }
    if n.To? {
      TagOk(q, n.tag);
      if q.tags[n.tag].prev.To? { TagOk(q, q.tags[n.tag].prev.tag); }
    } else if q.tail.To? {
      TagOk(q, q.tail.tag);
    }
  }

  /** The new place lies between what comes before and after. */
  lemma RankOrder(q: Queue, p: Ref, n: Ref)
    ensures var lo, hi := p.To? && p.tag in q.span && q.span[p.tag] in q.rank, n.To? && n.tag in q.rank;
      (lo && hi ==> q.rank[q.span[p.tag]] < q.rank[n.tag]) ==>
        && (lo ==> q.rank[q.span[p.tag]] < NewRank(q, p, n))
        && (hi ==> NewRank(q, p, n) < q.rank[n.tag])
  {
  }

  /** A span whose one segment is `t` goes. */
  ghost function DropSpan(q: Queue, s: nat, t: nat): Queue
    requires t in q.tags && s in q.tags
  {
    var q' := Removed(q, t);
    if s in q'.tags then Removed(q', s) else q'
  }

  lemma DropSpanOk(q: Queue, s: nat, t: nat)
    requires QueueOk(q) && IsSeg(q, t) && s in q.live && s in q.tags && IsSpan(q.tags[s].kind)
    requires q.tags[t].prev == To(s) && q.tags[t].size == q.tags[s].size
    ensures QueueOk(DropSpan(q, s, t))
  {
    hide DropSpan, LinkOk, SegOk, SpanOk;
    var q' := DropSpan(q, s, t);
    DropShape(q, s, t);
    DropEnds(q, s, t);
    forall x ensures LinkOk(q', x) { DropSpanLink(q, s, t, x); }
    forall x ensures SegOk(q', x) && SpanOk(q', x) { DropSpanSeg(q, s, t, x); }
    forall x, y ensures ApartOk(q', x, y) {
      assert ApartOk(q, x, y);
      DropLive(q, s, t, x);
      DropLive(q, s, t, y);
    }
  }

  lemma DropLive(q: Queue, s: nat, t: nat, x: nat)
    requires QueueOk(q) && s in q.tags && t in q.tags
    ensures x in DropSpan(q, s, t).live ==> x in q.live && x in q.tags
  {
    assert LinkOk(q, x);
  }

  lemma DropEnds(q: Queue, s: nat, t: nat)
    requires QueueOk(q) && IsSeg(q, t) && s in q.live && s in q.tags && IsSpan(q.tags[s].kind)
    requires q.tags[t].prev == To(s) && q.tags[t].size == q.tags[s].size
    ensures EndsOk(DropSpan(q, s, t))
  {
    hide DropSpan;
    DropShape(q, s, t);
    var p, n := q.tags[s].prev, q.tags[t].next;
    assert LinkOk(q, s) && LinkOk(q, t);
    if p.To? { assert LinkOk(q, p.tag); }
    if n.To? { assert LinkOk(q, n.tag); }
    if q.head.To? { assert LinkOk(q, q.head.tag); }
    if q.tail.To? { assert LinkOk(q, q.tail.tag); }
  }

  /** The links after dropping span `s` with segment `t`. */
  lemma DropShape(q: Queue, s: nat, t: nat)
    requires QueueOk(q) && IsSeg(q, t) && s in q.live && s in q.tags && IsSpan(q.tags[s].kind)
    requires q.tags[t].prev == To(s) && q.tags[t].size == q.tags[s].size
    ensures var q', p, n := DropSpan(q, s, t), q.tags[s].prev, q.tags[t].next;
      && q'.live == q.live - {s, t} && q'.span == q.span && q'.rank == q.rank
      && (p.To? ==> p.tag in q.live && p.tag in q.tags && p.tag != s && p.tag != t)
      && (n.To? ==> n.tag in q.live && n.tag in q.tags && n.tag != s && n.tag != t && IsSpan(q.tags[n.tag].kind))
      && q'.head == (if p.Null? then n else q.head) && q'.tail == (if n.Null? then p else q.tail)
      && (forall x :: x in q.live && x != s && x != t && x in q.tags ==>
            x in q'.tags && q'.tags[x] == q.tags[x].(next := if p == To(x) then n else q.tags[x].next, prev := if n == To(x) then p else q.tags[x].prev))
  {
    var p, n := q.tags[s].prev, q.tags[t].next;
    assert SegOk(q, t) && LinkOk(q, t) && LinkOk(q, s) && SpanOk(q, s);
    if p.To? { assert LinkOk(q, p.tag) && SegOk(q, p.tag); }
    if n.To? { assert LinkOk(q, n.tag) && SegOk(q, n.tag) && SpanOk(q, n.tag); }
  }

  lemma DropSpanLink(q: Queue, s: nat, t: nat, x: nat)
    requires QueueOk(q) && IsSeg(q, t) && s in q.live && s in q.tags && IsSpan(q.tags[s].kind)
    requires q.tags[t].prev == To(s) && q.tags[t].size == q.tags[s].size
    ensures LinkOk(DropSpan(q, s, t), x)
  {
    hide DropSpan;
    DropShape(q, s, t);
    assert LinkOk(q, x) && LinkOk(q, t) && LinkOk(q, s) && SpanOk(q, s);
    var p, n := q.tags[s].prev, q.tags[t].next;
    if p.To? { assert LinkOk(q, p.tag); }
    if n.To? { assert LinkOk(q, n.tag); }
  }

  lemma DropSpanSeg(q: Queue, s: nat, t: nat, x: nat)
    requires QueueOk(q) && IsSeg(q, t) && s in q.live && s in q.tags && IsSpan(q.tags[s].kind)
    requires q.tags[t].prev == To(s) && q.tags[t].size == q.tags[s].size
    ensures SegOk(DropSpan(q, s, t), x) && SpanOk(DropSpan(q, s, t), x)
  {
    hide DropSpan;
    DropShape(q, s, t);
    assert LinkOk(q, x) && SegOk(q, x) && SpanOk(q, x) && LinkOk(q, t) && LinkOk(q, s) && SpanOk(q, s) && SegOk(q, t);
    var p, n := q.tags[s].prev, q.tags[t].next;
    if p.To? { assert LinkOk(q, p.tag) && SegOk(q, p.tag); }
    if n.To? { assert LinkOk(q, n.tag) && SpanOk(q, n.tag) && q.span[t] == s; }
    if x in q.live && q.tags[x].prev.To? { assert SegOk(q, q.tags[x].prev.tag) && LinkOk(q, q.tags[x].prev.tag); }
    if x in q.live && q.tags[x].next.To? { assert LinkOk(q, q.tags[x].next.tag); }
    if x in q.span && q.span[x] == s && IsSeg(q, x) && x != t { OnlySegment(q, s, t, x); }
  }

  /** A segment as large as its span is the only one. */
  lemma OnlySegment(q: Queue, s: nat, t: nat, x: nat)
    requires QueueOk(q) && IsSeg(q, t) && IsSeg(q, x) && s in q.live && s in q.tags && IsSpan(q.tags[s].kind)
    requires q.tags[t].prev == To(s) && q.tags[t].size == q.tags[s].size && x in q.span && q.span[x] == s
    ensures x == t
  {
    assert SegOk(q, t) && SegOk(q, x);
    SegmentsApart(q, t, x, q.tags[x].start);
  }
}
