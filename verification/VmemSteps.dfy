/** What allocating and freeing do to the segments of a vmem arena, seen as
    vacant addresses and live allocations. */
module VmemSteps {
  import opened VmemTags

  /** Address `a` is vacant. */
  ghost predicate Vac(q: Queue, a: int) {
    exists t :: At(q, t, a) && q.tags[t].kind.Vacant?
  }

  /** [a, a + n) is a live allocation. */
  ghost predicate Live(q: Queue, a: int, n: int) {
    exists t :: IsSeg(q, t) && q.tags[t].kind.Allocated? && q.tags[t].start == a && q.tags[t].size == n
  }

  function SetKind(q: Queue, t: nat, kind: Kind): Queue
    requires t in q.tags
  {
    q.(tags := q.tags[t := q.tags[t].(kind := kind)])
  }

  lemma SetKindOk(q: Queue, t: nat, kind: Kind)
    requires QueueOk(q) && IsSeg(q, t) && !IsSpan(kind)
    ensures QueueOk(SetKind(q, t, kind))
    ensures forall u, x :: At(SetKind(q, t, kind), u, x) <==> At(q, u, x)
  {
    var q' := SetKind(q, t, kind);
    forall x ensures LinkOk(q', x) { assert LinkOk(q, x) && SegOk(q, t); }
    forall x ensures SegOk(q', x) && SpanOk(q', x) { assert SegOk(q, x) && SpanOk(q, x); }
    forall x, y ensures ApartOk(q', x, y) { assert ApartOk(q, x, y); }
  }

  /** Live allocations are disjoint from each other and from vacant addresses. */
  lemma LiveApart(q: Queue, a: int, n: int, b: int, m: int, x: int)
    requires QueueOk(q) && Live(q, a, n) && a <= x < a + n
    ensures !Vac(q, x)
    ensures Live(q, b, m) && b <= x < b + m ==> a == b && n == m
  {
    var t :| IsSeg(q, t) && q.tags[t].kind.Allocated? && q.tags[t].start == a && q.tags[t].size == n;
    assert At(q, t, x) && SegOk(q, t);
    forall u | At(q, u, x) ensures u == t { SegmentsApart(q, t, u, x); }
    if Live(q, b, m) && b <= x < b + m {
      var u :| IsSeg(q, u) && q.tags[u].kind.Allocated? && q.tags[u].start == b && q.tags[u].size == m;
      assert At(q, u, x);
    }
  }

  // Allocating -----------------------------------------------------------------------

  /** The neighbours of `t` are not vacant. */
  ghost predicate Lone(q: Queue, t: nat) {
    t in q.tags
    && (q.tags[t].prev.To? && q.tags[t].prev.tag in q.tags ==> !q.tags[q.tags[t].prev.tag].kind.Vacant?)
    && (q.tags[t].next.To? && q.tags[t].next.tag in q.tags ==> !q.tags[q.tags[t].next.tag].kind.Vacant?)
  }

  lemma VacantLone(q: Queue, t: nat)
    requires QueueOk(q) && Quiet(q, Null) && IsSeg(q, t) && q.tags[t].kind.Vacant?
    ensures Lone(q, t) && Lone(SetKind(q, t, Allocated), t) && Quiet(SetKind(q, t, Allocated), Null)
  {
    assert QuietAt(q, t, Null) && LinkOk(q, t) && SegOk(q, t);
    if q.tags[t].next.To? { assert QuietAt(q, q.tags[t].next.tag, Null) && LinkOk(q, q.tags[t].next.tag) && SegOk(q, q.tags[t].next.tag); }
    forall u ensures QuietAt(SetKind(q, t, Allocated), u, Null) { assert QuietAt(q, u, Null); }
  }

  lemma CutLeftEffect(q: Queue, t: nat, at: int, l: nat)
    requires QueueOk(q) && IsSeg(q, t) && l !in q.live && q.tags[t].start < at < End(q.tags[t])
    requires q.tags[t].prev.To? && q.tags[t].prev.tag in q.tags && t in q.span && q.tags[t].prev.tag != t
    ensures var q' := CutLeft(q, t, at, l);
      && (forall u, x :: At(q', u, x) <==> if u == l then q.tags[t].start <= x < at else if u == t then at <= x < End(q.tags[t]) else At(q, u, x))
      && (forall u :: u in q.live && u in q.tags && u != t ==> q'.tags[u].kind == q.tags[u].kind && q'.tags[u].start == q.tags[u].start && q'.tags[u].size == q.tags[u].size)
      && q'.tags[l].kind.Vacant? && q'.tags[t].kind == q.tags[t].kind && IsSeg(q', t) && q'.tags[t].start == at && End(q'.tags[t]) == End(q.tags[t])
      && q'.tags[t].next == q.tags[t].next && l in q'.tags && q'.tags[l].start == q.tags[t].start && q'.tags[l].size == at - q.tags[t].start
      && q'.live == q.live + {l} && forall u :: u in q.tags ==> u in q'.tags
  {
    assert LinkOk(q, t);
  }

  lemma CutLeftQuiet(q: Queue, t: nat, at: int, l: nat)
    requires QueueOk(q) && Quiet(q, Null) && IsSeg(q, t) && q.tags[t].kind.Allocated? && l !in q.live && q.tags[t].start < at < End(q.tags[t])
    requires q.tags[t].prev.To? && q.tags[t].prev.tag in q.tags && t in q.span && q.tags[t].prev.tag != t && Lone(q, t)
    ensures Quiet(CutLeft(q, t, at, l), Null)
    ensures var q' := CutLeft(q, t, at, l);
            q'.tags[t].next.To? && q'.tags[t].next.tag in q'.tags && q'.tags[t].next.tag in q.live ==> !q'.tags[q'.tags[t].next.tag].kind.Vacant?
  {
    var q' := CutLeft(q, t, at, l);
    assert LinkOk(q, t) && SegOk(q, t);
    forall u ensures QuietAt(q', u, Null) {
      assert QuietAt(q, u, Null) && LinkOk(q, u);
    }
  }

  lemma CutRightEffect(q: Queue, t: nat, at: int, r: nat)
    requires QueueOk(q) && IsSeg(q, t) && r !in q.live && q.tags[t].start < at < End(q.tags[t]) && t in q.span
    ensures var q' := CutRight(q, t, at, r);
      && (forall u, x :: At(q', u, x) <==> if u == r then at <= x < End(q.tags[t]) else if u == t then q.tags[t].start <= x < at else At(q, u, x))
      && (forall u :: u in q.live && u in q.tags && u != t ==> q'.tags[u].kind == q.tags[u].kind && q'.tags[u].start == q.tags[u].start && q'.tags[u].size == q.tags[u].size)
      && q'.tags[r].kind.Vacant? && q'.tags[t].kind == q.tags[t].kind && IsSeg(q', t) && q'.tags[t].start == q.tags[t].start && End(q'.tags[t]) == at
      && r in q'.tags && q'.tags[r].start == at && q'.tags[r].size == End(q.tags[t]) - at
      && q'.live == q.live + {r} && forall u :: u in q.tags ==> u in q'.tags
  {
    assert LinkOk(q, t) && SegOk(q, t);
    if q.tags[t].next.To? { assert SegOk(q, q.tags[t].next.tag) && LinkOk(q, q.tags[t].next.tag); }
  }

  lemma CutRightQuiet(q: Queue, t: nat, at: int, r: nat)
    requires QueueOk(q) && Quiet(q, Null) && IsSeg(q, t) && q.tags[t].kind.Allocated? && r !in q.live && q.tags[t].start < at < End(q.tags[t])
    requires t in q.span && (q.tags[t].next.To? && q.tags[t].next.tag in q.tags ==> !q.tags[q.tags[t].next.tag].kind.Vacant?)
    ensures Quiet(CutRight(q, t, at, r), Null)
  {
    var q' := CutRight(q, t, at, r);
    assert LinkOk(q, t) && SegOk(q, t);
    forall u ensures QuietAt(q', u, Null) {
      assert QuietAt(q, u, Null) && LinkOk(q, u);
      if q.tags[t].next.To? { assert LinkOk(q, q.tags[t].next.tag); }
    }
  }

  /** The queue once [at, at + size) of the vacant segment `t` is allocated; what
      is left over becomes the vacant segments `l` and `r`. */
  ghost function Carve(q: Queue, t: nat, at: int, size: int, l: nat, r: nat): Queue
    requires QueueOk(q) && IsSeg(q, t) && q.tags[t].start <= at && 0 < size && at + size <= End(q.tags[t])
    requires l !in q.live && r !in q.live && l != r
  {
    assert SegOk(q, t) && LinkOk(q, t);
    var q1 := SetKind(q, t, Allocated);
    SetKindOk(q, t, Allocated);
    var q2 := if at > q.tags[t].start then CutLeft(q1, t, at, l) else q1;
    assert IsSeg(q2, t) && t in q2.span;
    if at + size < End(q.tags[t]) then CutRight(q2, t, at + size, r) else q2
  }

  lemma CarveOk(q: Queue, t: nat, at: int, size: int, l: nat, r: nat)
    requires QueueOk(q) && Quiet(q, Null) && IsSeg(q, t) && q.tags[t].kind.Vacant?
    requires q.tags[t].start <= at && 0 < size && at + size <= End(q.tags[t]) && l !in q.live && r !in q.live && l != r
    ensures var q' := Carve(q, t, at, size, l, r);
      && QueueOk(q') && Quiet(q', Null) && t in q'.tags && q'.tags[t].kind.Allocated? && q'.tags[t].start == at && q'.tags[t].size == size
      && (forall u, x :: At(q', u, x) <==>
            if u == l && at > q.tags[t].start then q.tags[t].start <= x < at
            else if u == r && at + size < End(q.tags[t]) then at + size <= x < End(q.tags[t])
            else if u == t then at <= x < at + size else At(q, u, x))
      && (forall u :: u in q.live && u in q.tags && u != t ==> q'.tags[u].kind == q.tags[u].kind && q'.tags[u].start == q.tags[u].start && q'.tags[u].size == q.tags[u].size)
      && (forall u :: u in q.tags ==> u in q'.tags)
      && q'.live == q.live + (if at > q.tags[t].start then {l} else {}) + (if at + size < End(q.tags[t]) then {r} else {})
      && (at > q.tags[t].start ==> l in q'.tags && q'.tags[l].kind.Vacant? && q'.tags[l].start == q.tags[t].start && End(q'.tags[l]) == at)
      && (at + size < End(q.tags[t]) ==>
            r in q'.tags && q'.tags[r].kind.Vacant? && q'.tags[r].start == at + size && End(q'.tags[r]) == End(q.tags[t]))
  {
    hide QueueOk, Quiet, CutLeft, CutRight, LinkOk, SegOk;
    SegHasPrev(q, t);
    var q1 := SetKind(q, t, Allocated);
    SetKindOk(q, t, Allocated);
    VacantLone(q, t);
    var q2 := if at > q.tags[t].start then CutLeft(q1, t, at, l) else q1;
    if at > q.tags[t].start {
      CutLeftOk(q1, t, at, l);
      CutLeftEffect(q1, t, at, l);
      CutLeftQuiet(q1, t, at, l);
      CutLeftLive(q1, t, at, l);
    }
    SegHasPrev(q2, t);
    if at + size < End(q.tags[t]) {
      CutRightOk(q2, t, at + size, r);
      CutRightEffect(q2, t, at + size, r);
      NextLive(q1, t);
      CutRightQuiet(q2, t, at + size, r);
    }
    var q' := Carve(q, t, at, size, l, r);
    forall u, x ensures At(q', u, x) <==>
      if u == l && at > q.tags[t].start then q.tags[t].start <= x < at
      else if u == r && at + size < End(q.tags[t]) then at + size <= x < End(q.tags[t])
      else if u == t then at <= x < at + size else At(q, u, x)
    {
      assert At(q2, u, x) <==> if u == l && at > q.tags[t].start then q.tags[t].start <= x < at else if u == t then at <= x < End(q.tags[t]) else At(q, u, x);
    }
    forall u | u in q.live && u in q.tags && u != t
      ensures q'.tags[u].kind == q.tags[u].kind && q'.tags[u].start == q.tags[u].start && q'.tags[u].size == q.tags[u].size
    {
      assert q2.tags[u].kind == q.tags[u].kind && q2.tags[u].start == q.tags[u].start && q2.tags[u].size == q.tags[u].size;
    }
  }

  lemma SegHasPrev(q: Queue, t: nat)
    requires QueueOk(q) && IsSeg(q, t)
    ensures q.tags[t].prev.To? && q.tags[t].prev.tag in q.tags && t in q.span && q.tags[t].prev.tag != t && q.tags[t].size > 0
    ensures q.tags[t].prev.tag in q.live
  {
    assert SegOk(q, t) && LinkOk(q, t);
  }

  lemma NextLive(q: Queue, t: nat)
    requires QueueOk(q) && IsSeg(q, t)
    ensures q.tags[t].next.To? ==> q.tags[t].next.tag in q.live && q.tags[t].next.tag in q.tags
  {
    assert LinkOk(q, t);
  }

  lemma CutLeftLive(q: Queue, t: nat, at: int, l: nat)
    requires IsSeg(q, t) && q.tags[t].prev.To? && q.tags[t].prev.tag in q.tags && t in q.span
    ensures CutLeft(q, t, at, l).live == q.live + {l}
  {
  }

  /** Allocation seen from outside. */
  lemma CarveEffect(q: Queue, t: nat, at: int, size: int, l: nat, r: nat)
    requires QueueOk(q) && Quiet(q, Null) && IsSeg(q, t) && q.tags[t].kind.Vacant?
    requires q.tags[t].start <= at && 0 < size && at + size <= End(q.tags[t]) && l !in q.live && r !in q.live && l != r
    ensures var q' := Carve(q, t, at, size, l, r);
      && (forall x :: Vac(q', x) <==> Vac(q, x) && !(at <= x < at + size))
      && (forall b, n :: Live(q', b, n) <==> Live(q, b, n) || (b == at && n == size))
  {
    hide QueueOk, Quiet, Carve;
    var q' := Carve(q, t, at, size, l, r);
    CarveOk(q, t, at, size, l, r);
    forall x ensures Vac(q', x) <==> Vac(q, x) && !(at <= x < at + size) {
      CarveVac(q, q', t, at, size, l, r, x);
    }
    forall b, n ensures Live(q', b, n) <==> Live(q, b, n) || (b == at && n == size) {
      CarveLive(q, q', t, at, size, l, r, b, n);
    }
  }

  lemma CarveVac(q: Queue, q': Queue, t: nat, at: int, size: int, l: nat, r: nat, x: int)
    requires QueueOk(q) && Quiet(q, Null) && IsSeg(q, t) && q.tags[t].kind.Vacant?
    requires q.tags[t].start <= at && 0 < size && at + size <= End(q.tags[t]) && l !in q.live && r !in q.live && l != r
    requires q' == Carve(q, t, at, size, l, r)
    ensures Vac(q', x) <==> Vac(q, x) && !(at <= x < at + size)
  {
    hide QueueOk, Quiet, Carve;
    CarveOk(q, t, at, size, l, r);
    if u :| At(q, u, x) && q.tags[u].kind.Vacant? && !(at <= x < at + size) {
      if u == t {
        assert if x < at then At(q', l, x) else At(q', r, x);
      } else {
        assert At(q', u, x);
      }
    }
    if u :| At(q', u, x) && q'.tags[u].kind.Vacant? {
      if u in q.live && At(q, t, x) { InOne(q, t, u, x); }
      assert if At(q, t, x) then At(q, t, x) else At(q, u, x);
    }
  }

  lemma InOne(q: Queue, t: nat, u: nat, x: int)
    requires QueueOk(q) && At(q, t, x)
    ensures At(q, u, x) ==> u == t
  {
    if At(q, u, x) {
      SameSpan(q, t, u, x);
      SegmentsApart(q, t, u, x);
    }
  }

  lemma CarveLive(q: Queue, q': Queue, t: nat, at: int, size: int, l: nat, r: nat, b: int, n: int)
    requires QueueOk(q) && Quiet(q, Null) && IsSeg(q, t) && q.tags[t].kind.Vacant?
    requires q.tags[t].start <= at && 0 < size && at + size <= End(q.tags[t]) && l !in q.live && r !in q.live && l != r
    requires q' == Carve(q, t, at, size, l, r)
    ensures Live(q', b, n) <==> Live(q, b, n) || (b == at && n == size)
  {
    hide QueueOk, Quiet, Carve;
    CarveOk(q, t, at, size, l, r);
    assert At(q', t, at);
    if u :| IsSeg(q, u) && q.tags[u].kind.Allocated? && q.tags[u].start == b && q.tags[u].size == n {
      SegHasPrev(q, u);
      assert At(q, u, b);
      assert At(q', u, b);
    }
    if u :| IsSeg(q', u) && q'.tags[u].kind.Allocated? && q'.tags[u].start == b && q'.tags[u].size == n {
      SegHasPrev(q', u);
      assert At(q', u, b);
      if u != t { assert At(q, u, b); }
    }
  }

  // Freeing --------------------------------------------------------------------------

  lemma SetVacant(q: Queue, t: nat)
    requires QueueOk(q) && Quiet(q, Null) && IsSeg(q, t)
    ensures Quiet(SetKind(q, t, Vacant), To(t))
  {
    forall u ensures QuietAt(SetKind(q, t, Vacant), u, To(t)) { assert QuietAt(q, u, Null); }
  }

  lemma JoinLeftEffect(q: Queue, p: nat, t: nat)
    requires QueueOk(q) && IsSeg(q, t) && IsSeg(q, p) && q.tags[t].prev == To(p)
    ensures var q' := JoinLeft(q, p, t);
      && (forall u, x :: At(q', u, x) <==> if u == p then q.tags[p].start <= x < End(q.tags[t]) else u != t && At(q, u, x))
      && (forall u :: u in q.live && u in q.tags && u != p && u != t ==>
            u in q'.tags && q'.tags[u].kind == q.tags[u].kind && q'.tags[u].start == q.tags[u].start && q'.tags[u].size == q.tags[u].size)
      && p in q'.tags && q'.tags[p].kind == q.tags[p].kind && q'.tags[p].start == q.tags[p].start && End(q'.tags[p]) == End(q.tags[t])
      && q'.tags[p].prev == q.tags[p].prev && q'.live == q.live - {t} && q'.span == q.span
  {
    assert SegOk(q, t) && LinkOk(q, t) && SegOk(q, p) && LinkOk(q, p);
    if q.tags[t].next.To? { assert LinkOk(q, q.tags[t].next.tag) && SegOk(q, q.tags[t].next.tag) && SpanOk(q, q.tags[t].next.tag); }
  }

  lemma JoinRightEffect(q: Queue, t: nat, n: nat)
    requires QueueOk(q) && IsSeg(q, t) && IsSeg(q, n) && q.tags[t].next == To(n)
    ensures var q' := JoinRight(q, t, n);
      && (forall u, x :: At(q', u, x) <==> if u == n then q.tags[t].start <= x < End(q.tags[n]) else u != t && At(q, u, x))
      && (forall u :: u in q.live && u in q.tags && u != n && u != t ==>
            u in q'.tags && q'.tags[u].kind == q.tags[u].kind && q'.tags[u].start == q.tags[u].start && q'.tags[u].size == q.tags[u].size)
      && n in q'.tags && q'.tags[n].kind == q.tags[n].kind && q'.tags[n].start == q.tags[t].start && End(q'.tags[n]) == End(q.tags[n])
      && q'.tags[n].next == q.tags[n].next && q'.live == q.live - {t} && q'.span == q.span
  {
    assert SegOk(q, t) && LinkOk(q, t) && SegOk(q, n) && LinkOk(q, n);
    var p := q.tags[t].prev.tag;
    assert LinkOk(q, p) && SegOk(q, p) && SpanOk(q, p);
  }

  ghost predicate VacantRef(q: Queue, r: Ref) {
    r.To? && r.tag in q.tags && q.tags[r.tag].kind.Vacant?
  }

  lemma JoinLeftQuiet(q: Queue, p: nat, t: nat)
    requires QueueOk(q) && IsSeg(q, t) && IsSeg(q, p) && q.tags[t].prev == To(p) && Quiet(q, To(t)) && !VacantRef(q, q.tags[p].prev)
    ensures var q' := JoinLeft(q, p, t);
            Quiet(q', To(p)) && p in q'.tags && !VacantRef(q', q'.tags[p].prev)
  {
    var q' := JoinLeft(q, p, t);
    assert SegOk(q, t) && LinkOk(q, t) && SegOk(q, p) && LinkOk(q, p);
    if q.tags[t].next.To? { assert LinkOk(q, q.tags[t].next.tag) && SegOk(q, q.tags[t].next.tag) && SpanOk(q, q.tags[t].next.tag); }
    forall u ensures QuietAt(q', u, To(p)) {
      assert QuietAt(q, u, To(t)) && LinkOk(q, u);
    }
  }

  lemma JoinRightQuiet(q: Queue, t: nat, n: nat)
    requires QueueOk(q) && IsSeg(q, t) && IsSeg(q, n) && q.tags[t].next == To(n) && Quiet(q, To(t)) && !VacantRef(q, q.tags[t].prev)
    requires !VacantRef(q, q.tags[n].next)
    ensures Quiet(JoinRight(q, t, n), Null)
  {
    var q' := JoinRight(q, t, n);
    assert SegOk(q, t) && LinkOk(q, t) && SegOk(q, n) && LinkOk(q, n);
    var p := q.tags[t].prev.tag;
    assert LinkOk(q, p) && SegOk(q, p) && SpanOk(q, p);
    forall u ensures QuietAt(q', u, Null) {
      assert QuietAt(q, u, To(t)) && LinkOk(q, u);
    }
  }

  /** Once neither neighbour is vacant, nothing needs joining. */
  lemma QuietAgain(q: Queue, t: nat)
    requires QueueOk(q) && IsSeg(q, t) && Quiet(q, To(t)) && !VacantRef(q, q.tags[t].prev) && !VacantRef(q, q.tags[t].next)
    ensures Quiet(q, Null)
  {
    forall u ensures QuietAt(q, u, Null) {
      assert QuietAt(q, u, To(t)) && LinkOk(q, u);
    }
  }

  /** What follows a vacant segment is not vacant, except around `x`. */
  lemma NextQuiet(q: Queue, t: nat, n: nat)
    requires QueueOk(q) && IsSeg(q, t) && IsSeg(q, n) && Quiet(q, To(t)) && q.tags[n].kind.Vacant? && n != t
    requires q.tags[n].next != To(t)
    ensures !VacantRef(q, q.tags[n].next)
  {
    assert LinkOk(q, n);
    if q.tags[n].next.To? { assert QuietAt(q, q.tags[n].next.tag, To(t)) && LinkOk(q, q.tags[n].next.tag); }
  }

  // Whole spans ----------------------------------------------------------------------

  /** A live allocation lies in span `s`. */
  ghost predicate InUse(q: Queue, s: nat) {
    exists t :: IsSeg(q, t) && q.tags[t].kind.Allocated? && t in q.span && q.span[t] == s
  }

  /** A vacant segment fills its span exactly when nothing in the span is in use. */
  lemma FillsSpan(q: Queue, t: nat)
    requires QueueOk(q) && Quiet(q, Null) && IsSeg(q, t) && q.tags[t].kind.Vacant?
    ensures t in q.span && q.span[t] in q.tags && q.span[t] in q.live && IsSpan(q.tags[q.span[t]].kind)
    ensures q.tags[t].prev == To(q.span[t]) && q.tags[t].size == q.tags[q.span[t]].size <==> !InUse(q, q.span[t])
  {
    assert SegOk(q, t) && LinkOk(q, t);
    var s := q.span[t];
    if q.tags[t].prev == To(s) && q.tags[t].size == q.tags[s].size {
      forall u ensures !(IsSeg(q, u) && q.tags[u].kind.Allocated? && u in q.span && q.span[u] == s) {
        if IsSeg(q, u) && u in q.span && q.span[u] == s { OnlySegment(q, s, t, u); }
      }
    } else {
      NeighbourInUse(q, t);
    }
  }

  lemma NeighbourInUse(q: Queue, t: nat)
    requires QueueOk(q) && Quiet(q, Null) && IsSeg(q, t) && q.tags[t].kind.Vacant? && t in q.span && q.span[t] in q.tags
    requires !(q.tags[t].prev == To(q.span[t]) && q.tags[t].size == q.tags[q.span[t]].size)
    ensures InUse(q, q.span[t])
  {
    assert SegOk(q, t) && LinkOk(q, t) && QuietAt(q, t, Null);
    var p := q.tags[t].prev.tag;
    if !IsSpan(q.tags[p].kind) {
      assert IsSeg(q, p) && q.tags[p].kind.Allocated?;
    } else {
      var n := q.tags[t].next.tag;
      assert SegOk(q, n) && LinkOk(q, n) && QuietAt(q, n, Null);
      assert IsSeg(q, n) && q.tags[n].kind.Allocated?;
    }
  }

  lemma DropEffect(q: Queue, s: nat, t: nat)
    requires QueueOk(q) && Quiet(q, Null) && IsSeg(q, t) && s in q.live && s in q.tags && IsSpan(q.tags[s].kind)
    requires q.tags[t].prev == To(s) && q.tags[t].size == q.tags[s].size && q.tags[t].kind.Vacant?
    ensures var q' := DropSpan(q, s, t);
      && (forall u, x :: At(q', u, x) <==> u != t && At(q, u, x)) && Quiet(q', Null)
      && (forall u :: u in q.live && u in q.tags && u != s && u != t ==>
            u in q'.tags && q'.tags[u].kind == q.tags[u].kind && q'.tags[u].start == q.tags[u].start && q'.tags[u].size == q.tags[u].size)
      && q'.live == q.live - {s, t} && q'.span == q.span
  {
    hide DropSpan;
    DropShape(q, s, t);
    var q' := DropSpan(q, s, t);
    assert SegOk(q, t) && LinkOk(q, t);
    var n := q.tags[t].next;
    if n.To? { assert LinkOk(q, n.tag); }
    forall u ensures QuietAt(q', u, Null) { assert QuietAt(q, u, Null) && LinkOk(q, u); }
    forall u, x ensures At(q', u, x) <==> u != t && At(q, u, x) { assert LinkOk(q, u); }
  }
}
