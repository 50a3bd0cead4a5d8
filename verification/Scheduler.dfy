/** The ready threads of a processor: insertion, selection and preemption. */
module Scheduler {
  import opened RunQueues

  const TIME_SHARE: nat := 1
  const REAL_TIME: nat := 17
  const MAX: nat := 32

  /** THREAD_READY is on a queue, THREAD_NEXT is the next thread; the rest is off-list. */
  datatype Status = Ready | Running | NextUp | Switching | Terminating | Waiting | Undefined

  /** The levels with a thread put at the end of its own. */
  function Inserted(qs: seq<seq<Thread>>, level: nat, t: Thread): seq<seq<Thread>>
    requires level < |qs|
  {
    qs[level := qs[level] + [t]]
  }

  ghost predicate NoDup(s: seq<Thread>) {
    forall i, j :: 0 <= i < j < |s| ==> s[i] != s[j]
  }

  /** The threads of the two run queues and of the idle queue. */
  datatype Queues = Queues(cur: seq<seq<Thread>>, nxt: seq<seq<Thread>>, idle: seq<Thread>)

  predicate Sized(q: Queues) {
    |q.cur| == LEVELS + 1 && |q.nxt| == LEVELS + 1
  }

  /** The ready threads in the order they will be taken. */
  function OrderOf(q: Queues): seq<Thread>
    requires Sized(q)
  {
    Flat(q.cur, LEVELS) + Flat(q.nxt, LEVELS) + q.idle
  }

  /** Each thread is at the level of its priority. */
  ghost predicate Leveled(qs: seq<seq<Thread>>, prio: Thread -> nat)
    requires |qs| == LEVELS + 1
  {
    forall i, t: Thread :: 0 <= i < LEVELS && t in qs[i] ==> prio(t) == i + 1
  }

  /** Threads are queued by their priority; next holds time-shared threads only. */
  ghost predicate Placed(q: Queues, prio: Thread -> nat)
    requires Sized(q)
  {
    && Leveled(q.cur, prio) && Leveled(q.nxt, prio) && (forall i :: 1 <= i < LEVELS ==> q.nxt[i] == [])
    && BelowAll(q.idle, prio)
  }

  ghost predicate BelowAll(s: seq<Thread>, prio: Thread -> nat) {
    forall t: Thread :: t in s ==> prio(t) < REAL_TIME && prio(t) != TIME_SHARE
  }

  lemma LeveledInsert(qs: seq<seq<Thread>>, prio: Thread -> nat, i: nat, t: Thread)
    requires |qs| == LEVELS + 1 && i < LEVELS && Leveled(qs, prio) && prio(t) == i + 1
    ensures Leveled(Inserted(qs, i, t), prio)
  {
    forall j, x: Thread | 0 <= j < LEVELS && x in Inserted(qs, i, t)[j] ensures prio(x) == j + 1 {
      if j == i { assert x in qs[i] || x == t; }
    }
  }

  lemma LeveledTake(qs: seq<seq<Thread>>, prio: Thread -> nat, i: nat)
    requires |qs| == LEVELS + 1 && i < LEVELS && Leveled(qs, prio) && qs[i] != []
    ensures Leveled(qs[i := qs[i][1..]], prio)
  {
    var r := qs[i := qs[i][1..]];
    forall j, x: Thread | 0 <= j < LEVELS && x in r[j] ensures prio(x) == j + 1 {
      if j == i { TailIn(qs[i], x); }
    }
  }

  lemma TailIn(s: seq<Thread>, x: Thread)
    requires s != [] && x in s[1..]
    ensures x in s
  {
    var k :| 0 <= k < |s| - 1 && s[1..][k] == x;
    assert s[k + 1] == x;
  }

  /** A thread put at the end of the queue for its priority. */
  function Enqueued(q: Queues, priority: nat, t: Thread): (r: Queues)
    requires Sized(q) && priority <= MAX
    ensures Sized(r)
  {
    if priority >= REAL_TIME then q.(cur := Inserted(q.cur, priority - 1, t))
    else if priority == TIME_SHARE then q.(nxt := Inserted(q.nxt, 0, t))
    else q.(idle := q.idle + [t])
  }

  lemma InsertAt(a: seq<Thread>, b: seq<Thread>, t: Thread)
    requires NoDup(a + b) && t !in a + b
    ensures NoDup(a + [t] + b) && forall x :: x in a + [t] + b <==> x == t || x in a + b
  {
    var s, r := a + b, a + [t] + b;
    forall i, j | 0 <= i < j < |r| ensures r[i] != r[j] {
      var i', j' := if i < |a| then i else i - 1, if j < |a| then j else j - 1;
      if i == |a| {
        assert r[j] == s[j'];
      } else if j == |a| {
        assert r[i] == s[i'];
      } else {
        assert r[i] == s[i'] && r[j] == s[j'];
      }
    }
    forall x ensures x in r <==> x == t || x in s {
      if x in s { assert x in a || x in b; }
    }
  }

  /** An enqueued thread goes before those of the queues and levels behind its own. */
  lemma EnqueuedSplit(q: Queues, priority: nat, t: Thread) returns (a: seq<Thread>, b: seq<Thread>)
    requires Sized(q) && priority <= MAX
    ensures OrderOf(q) == a + b && OrderOf(Enqueued(q, priority, t)) == a + [t] + b
    ensures b == if priority >= REAL_TIME then Flat(q.cur, priority - 1) + Flat(q.nxt, LEVELS) + q.idle
      else if priority == TIME_SHARE then q.idle else []
  {
    hide Flat;
    var r := Enqueued(q, priority, t);
    var cur, nxt := Flat(q.cur, LEVELS), Flat(q.nxt, LEVELS);
    if priority >= REAL_TIME {
      FlatInsert(q.cur, priority - 1, t, LEVELS);
      a := cur[..|cur| - |Flat(q.cur, priority - 1)|];
      b := Flat(q.cur, priority - 1) + nxt + q.idle;
    } else if priority == TIME_SHARE {
      FlatInsert(q.nxt, 0, t, LEVELS);
      NoLevels(q.nxt);
      a, b := cur + nxt, q.idle;
    } else {
      a, b := OrderOf(q), [];
    }
    assert OrderOf(q) == a + b && OrderOf(r) == a + [t] + b;
  }

  lemma NoLevels(qs: seq<seq<Thread>>)
    ensures Flat(qs, 0) == []
  {
  }

  /** Enqueueing adds one thread to the order and disturbs no other. */
  lemma EnqueuedOk(q: Queues, prio: Thread -> nat, t: Thread)
    requires Sized(q) && Placed(q, prio) && NoDup(OrderOf(q)) && t !in OrderOf(q) && prio(t) <= MAX
    ensures var r := Enqueued(q, prio(t), t);
      Placed(r, prio) && NoDup(OrderOf(r)) && (forall x :: x in OrderOf(r) <==> x == t || x in OrderOf(q))
  {
    hide Placed, NoDup, OrderOf, Enqueued;
    EnqueuedPlaced(q, prio, t);
    var a, b := EnqueuedSplit(q, prio(t), t);
    InsertAt(a, b, t);
  }

  lemma EnqueuedPlaced(q: Queues, prio: Thread -> nat, t: Thread)
    requires Sized(q) && Placed(q, prio) && prio(t) <= MAX
    ensures Placed(Enqueued(q, prio(t), t), prio)
  {
    hide Leveled;
    if prio(t) >= REAL_TIME {
      LeveledInsert(q.cur, prio, prio(t) - 1, t);
    } else if prio(t) == TIME_SHARE {
      LeveledInsert(q.nxt, prio, 0, t);
    } else {
      forall x: Thread | x in q.idle + [t] ensures prio(x) < REAL_TIME && prio(x) != TIME_SHARE {
        assert x in q.idle || x == t;
      }
      assert BelowAll(q.idle + [t], prio);
    }
  }

  /** Taking the first thread of the highest level of the current queue. */
  lemma TakenOk(q: Queues, prio: Thread -> nat, i: nat)
    requires Sized(q) && i < LEVELS && q.cur[i] != [] && forall j :: i < j < LEVELS ==> q.cur[j] == []
    requires Placed(q, prio)
    ensures var r := q.(cur := q.cur[i := q.cur[i][1..]]);
      OrderOf(q) == [q.cur[i][0]] + OrderOf(r) && Placed(r, prio)
  {
    hide Leveled, Flat;
    FlatTake(q.cur, i, LEVELS);
    LeveledTake(q.cur, prio, i);
    var r := q.(cur := q.cur[i := q.cur[i][1..]]);
    assert OrderOf(q) == [q.cur[i][0]] + OrderOf(r);
  }

  /** The highest level with a thread, or -1. */
  function TopLevel(qs: seq<seq<Thread>>): int
    requires |qs| == LEVELS + 1
  {
    TopBelow(qs, LEVELS)
  }

  function TopBelow(qs: seq<seq<Thread>>, k: nat): (r: int)
    requires k <= |qs|
    ensures -1 <= r < k && (r >= 0 ==> qs[r] != []) && forall j :: r < j < k ==> qs[j] == []
  {
    if k == 0 then -1 else if qs[k - 1] != [] then k - 1 else TopBelow(qs, k - 1)
  }

  lemma TopIs(qs: seq<seq<Thread>>, top: nat)
    requires |qs| == LEVELS + 1 && top < LEVELS && qs[top] != [] && forall j :: top < j < LEVELS ==> qs[j] == []
    ensures TopLevel(qs) == top && Flat(qs, LEVELS) != []
  {
    FlatEmpty(qs, LEVELS);
  }

  /** An empty current queue changes places with the next one. */
  lemma SwappedOk(q: Queues, prio: Thread -> nat)
    requires Sized(q) && Placed(q, prio) && Flat(q.cur, LEVELS) == []
    ensures var r := Queues(q.nxt, q.cur, q.idle); OrderOf(r) == OrderOf(q) && Placed(r, prio)
  {
    hide Leveled, Flat;
    FlatEmpty(q.cur, LEVELS);
    var r := Queues(q.nxt, q.cur, q.idle);
    assert OrderOf(r) == OrderOf(q);
  }

  lemma IdleTaken(q: Queues, prio: Thread -> nat)
    requires Sized(q) && Placed(q, prio) && q.idle != [] && Flat(q.cur, LEVELS) == [] && Flat(q.nxt, LEVELS) == []
    ensures var r := q.(idle := q.idle[1..]); OrderOf(q) == [q.idle[0]] + OrderOf(r) && Placed(r, prio)
  {
    hide Leveled, Flat;
    var r := q.(idle := q.idle[1..]);
    assert q.idle == [q.idle[0]] + r.idle;
    assert OrderOf(q) == [q.idle[0]] + OrderOf(r);
    forall x: Thread | x in r.idle ensures prio(x) < REAL_TIME && prio(x) != TIME_SHARE { TailIn(q.idle, x); }
  }

  /** The thread that leaves the front is not further back. */
  lemma TakenAway(s: seq<Thread>, rest: seq<Thread>, t: Thread)
    requires NoDup(s) && s == [t] + rest
    ensures NoDup(rest) && t !in rest && forall x :: x in s <==> x == t || x in rest
  {
    forall i, j | 0 <= i < j < |rest| ensures rest[i] != rest[j] {
      assert s[i + 1] == rest[i] && s[j + 1] == rest[j];
    }
    forall i | 0 <= i < |rest| ensures rest[i] != t {
      assert s[0] == t && s[i + 1] == rest[i];
    }
  }

  class RunQueue {
    var mask: bv32
    const queues: array<seq<Thread>>

    ghost predicate Valid()
      reads this, queues
    {
      && queues.Length == LEVELS + 1 && queues[LEVELS] == []
      && (forall i :: 0 <= i < LEVELS ==> (Has(mask, i) <==> queues[i] != []))
    }

    constructor ()
      ensures Valid() && fresh(queues) && queues[..] == seq(LEVELS + 1, _ => []) && mask == 0
    {
      mask := 0;
      queues := new seq<Thread>[LEVELS + 1](_ => []);
      new;
      forall i | 0 <= i < LEVELS ensures !Has(mask, i) { MeetsNothing(Bit(i)); }
    }

    /** The mask is empty exactly when the queue is. */
    lemma MaskIs()
      requires Valid()
      ensures mask != 0 <==> Flat(queues[..], LEVELS) != []
    {
      hide Has;
      MaskAny(mask);
      FlatEmpty(queues[..], LEVELS);
      if mask != 0 {
        var i :| 0 <= i < LEVELS && Has(mask, i);
        assert queues[..][i] != [];
      }
    }

    /** `sched_rq_insert` */
    method Insert(t: Thread, priority: nat)
      requires Valid() && 1 <= priority <= MAX
      modifies this, queues
      ensures Valid() && queues[..] == Inserted(old(queues[..]), priority - 1, t)
    {
      hide Has, WithBit, WithoutBit;
      queues[priority - 1] := queues[priority - 1] + [t];
      forall i | 0 <= i < LEVELS ensures Has(WithBit(mask, priority - 1), i) <==> i == priority - 1 || Has(mask, i) {
        MaskAdd(mask, priority - 1, i);
      }
      mask := WithBit(mask, priority - 1);
    }

    /** The first thread of a level leaves. */
    method Take(level: nat) returns (t: Thread)
      requires Valid() && level < LEVELS && queues[level] != []
      modifies this, queues
      ensures Valid() && t == old(queues[level][0]) && queues[..] == old(queues[..][level := queues[level][1..]])
    {
      hide Has, WithBit, WithoutBit;
      t := queues[level][0];
      queues[level] := queues[level][1..];
      if queues[level] == [] {
        forall i | 0 <= i < LEVELS ensures Has(WithoutBit(mask, level), i) <==> i != level && Has(mask, i) {
          MaskRemove(mask, level, i);
        }
        mask := WithoutBit(mask, level);
      }
    }
  }

  function StatusIn(status: map<Thread, Status>, t: Thread): Status {
    if t in status then status[t] else Undefined
  }

  /** Threads are queued or next as their status says, but for the status of one. */
  ghost predicate Queued(order: seq<Thread>, next: int, status: map<Thread, Status>, idle: Thread, but: int) {
    && NoDup(order) && idle !in order && -1 <= next != idle && (next >= 0 ==> next !in order)
    && (forall t :: t != idle && t != but ==> (StatusIn(status, t).Ready? <==> t in order) && (StatusIn(status, t).NextUp? <==> t == next))
  }

  /** The status of the excepted thread does not matter. */
  lemma StatusSet(order: seq<Thread>, next: int, status: map<Thread, Status>, status': map<Thread, Status>, idle: Thread, t: Thread)
    requires Queued(order, next, status, idle, t) && forall x :: x != t ==> StatusIn(status', x) == StatusIn(status, x)
    ensures Queued(order, next, status', idle, t)
  {
  }

  /** A thread becomes the next one; the one it displaces is then to be queued. */
  lemma NextSet(order: seq<Thread>, was: int, status: map<Thread, Status>, idle: Thread, t: Thread)
    requires Queued(order, was, status, idle, t) && t != idle && t != was && t !in order
    ensures Queued(order, t, status[t := NextUp], idle, was)
  {
    forall x: Thread ensures StatusIn(status[t := NextUp], x) == if x == t then NextUp else StatusIn(status, x) { }
  }

  /** The first thread in the order is switched to. */
  lemma FrontSet(order: seq<Thread>, rest: seq<Thread>, next: int, status: map<Thread, Status>, idle: Thread, t: Thread)
    requires Queued(order, next, status, idle, -1) && order == [t] + rest
    ensures Queued(rest, next, status[t := Switching], idle, -1) && t != idle
  {
    TakenAway(order, rest, t);
    assert t in order;
    var after := status[t := Switching];
    assert NoDup(rest) && t !in rest && idle !in rest && (next >= 0 ==> next !in rest) && -1 <= next != idle;
    forall x: Thread | x != idle && x != -1
      ensures (StatusIn(after, x).Ready? <==> x in rest) && (StatusIn(after, x).NextUp? <==> x == next)
    {
      assert x in order <==> x == t || x in rest;
      assert StatusIn(status, x).Ready? <==> x in order;
    }
    assert Queued(rest, next, after, idle, -1);
  }

  /** The next thread is switched to. */
  lemma NextTaken(order: seq<Thread>, next: nat, status: map<Thread, Status>, idle: Thread)
    requires Queued(order, next, status, idle, -1)
    ensures Queued(order, -1, status[next := Switching], idle, -1)
  {
    var after := status[next := Switching];
    forall x: Thread | x != idle && x != -1
      ensures (StatusIn(after, x).Ready? <==> x in order) && (StatusIn(after, x).NextUp? <==> x == -1)
    {
      assert StatusIn(status, x).Ready? <==> x in order;
    }
    assert Queued(order, -1, after, idle, -1);
  }

  /** The status of the idle thread is free. */
  lemma IdleSet(order: seq<Thread>, next: int, status: map<Thread, Status>, idle: Thread)
    requires Queued(order, next, status, idle, -1)
    ensures Queued(order, next, status[idle := Ready], idle, -1)
  {
    var after := status[idle := Ready];
    forall x: Thread | x != idle && x != -1
      ensures (StatusIn(after, x).Ready? <==> x in order) && (StatusIn(after, x).NextUp? <==> x == next)
    {
      assert StatusIn(status, x).Ready? <==> x in order;
    }
    assert Queued(order, next, after, idle, -1);
  }

  /** May `select_next` take the first thread of the order? */
  ghost predicate Urgent(priority: nat, q: Queues)
    requires Sized(q)
  {
    if Flat(q.cur, LEVELS) != [] then TopLevel(q.cur) >= priority
    else if Flat(q.nxt, LEVELS) != [] then TopLevel(q.nxt) >= priority
    else q.idle != []
  }

  /** Any ready thread is urgent enough for priority 0. */
  lemma UrgentAny(q: Queues)
    requires Sized(q)
    ensures Urgent(0, q) <==> OrderOf(q) != []
  {
    FlatEmpty(q.cur, LEVELS);
    FlatEmpty(q.nxt, LEVELS);
  }

  /** The first thread of the order is urgent enough exactly if its priority is
      above the given one, or it is of the idle queue. */
  lemma UrgentExact(priority: nat, q: Queues, prio: Thread -> nat)
    requires Sized(q) && Placed(q, prio)
    ensures Urgent(priority, q) <==>
      OrderOf(q) != [] && (prio(OrderOf(q)[0]) > priority || (Flat(q.cur, LEVELS) == [] && Flat(q.nxt, LEVELS) == []))
  {
    hide Leveled;
    if Flat(q.cur, LEVELS) != [] {
      FirstLevel(q.cur, prio);
      assert OrderOf(q)[0] == Flat(q.cur, LEVELS)[0];
    } else if Flat(q.nxt, LEVELS) != [] {
      FirstLevel(q.nxt, prio);
      assert OrderOf(q)[0] == Flat(q.nxt, LEVELS)[0];
    }
  }

  /** The order of a run queue is by falling priority. */
  lemma {:induction false} FallingPriority(qs: seq<seq<Thread>>, prio: Thread -> nat, k: nat, i: nat, j: nat)
    requires |qs| == LEVELS + 1 && Leveled(qs, prio) && k <= LEVELS && i <= j < |Flat(qs, k)|
    ensures prio(Flat(qs, k)[j]) <= prio(Flat(qs, k)[i]) <= k
    decreases k
  {
    if k > 0 {
      var n := |qs[k - 1]|;
      assert i < n ==> Flat(qs, k)[i] == qs[k - 1][i] && qs[k - 1][i] in qs[k - 1];
      assert j < n ==> Flat(qs, k)[j] == qs[k - 1][j] && qs[k - 1][j] in qs[k - 1];
      if n <= j { FallingPriority(qs, prio, k - 1, if n <= i then i - n else j - n, j - n); }
    }
  }

  lemma FirstLevel(qs: seq<seq<Thread>>, prio: Thread -> nat)
    requires |qs| == LEVELS + 1 && Leveled(qs, prio) && Flat(qs, LEVELS) != []
    ensures TopLevel(qs) >= 0 && prio(Flat(qs, LEVELS)[0]) == TopLevel(qs) + 1
  {
    hide Flat;
    FlatEmpty(qs, LEVELS);
    var top := TopLevel(qs);
    FlatTake(qs, top, LEVELS);
    assert qs[top][0] in qs[top];
  }

  class Cpu {
    const prio: Thread -> nat
    const idle: Thread
    var currentRq: RunQueue
    var nextRq: RunQueue
    var idleRq: seq<Thread>
    var current: Thread
    /** The thread to be switched to, or -1. */
    var next: int
    var status: map<Thread, Status>
    var softints: nat

    ghost predicate Shape()
      reads this`currentRq, this`nextRq, currentRq, nextRq, currentRq.queues, nextRq.queues
    {
      currentRq != nextRq && currentRq.queues != nextRq.queues && currentRq.Valid() && nextRq.Valid()
    }

    ghost function Qs(): (q: Queues)
      reads this`currentRq, this`nextRq, this`idleRq, currentRq.queues, nextRq.queues
    {
      Queues(currentRq.queues[..], nextRq.queues[..], idleRq)
    }

    function StatusOf(t: Thread): Status
      reads this`status
    {
      StatusIn(status, t)
    }

    /** Each ready thread is in one place, as its status and its priority say. */
    ghost predicate Inv()
      reads this, currentRq, nextRq, currentRq.queues, nextRq.queues
    {
      InvBut(-1)
    }

    /** The same but for the status of one thread. */
    ghost predicate InvBut(but: int)
      reads this, currentRq, nextRq, currentRq.queues, nextRq.queues
    {
      Shape() && Priorities() && Placed(Qs(), prio) && Queued(OrderOf(Qs()), next, status, idle, but)
    }

    ghost predicate Priorities() {
      prio(idle) == 0 && forall t :: prio(t) <= MAX
    }

    constructor (prio: Thread -> nat, idle: Thread)
      requires prio(idle) == 0 && forall t :: prio(t) <= MAX
      ensures Inv() && OrderOf(Qs()) == [] && next == -1 && current == idle && this.prio == prio && this.idle == idle
      ensures fresh(currentRq) && fresh(nextRq) && fresh(currentRq.queues) && fresh(nextRq.queues)
    {
      this.prio := prio;
      this.idle := idle;
      currentRq := new RunQueue();
      nextRq := new RunQueue();
      idleRq := [];
      current := idle;
      next := -1;
      status := map[];
      softints := 0;
      new;
      FlatEmpty(currentRq.queues[..], LEVELS);
      FlatEmpty(nextRq.queues[..], LEVELS);
    }

    /** The queue a thread goes to when it does not run at once. */
    method Enqueue(t: Thread)
      requires InvBut(t) && t != idle && t != next && t !in OrderOf(Qs()) && StatusOf(t).Ready?
      modifies this`idleRq, currentRq, nextRq, currentRq.queues, nextRq.queues
      ensures Inv() && Qs() == Enqueued(old(Qs()), prio(t), t)
    {
      hide Has, Placed, NoDup, Flat;
      EnqueuedOk(Qs(), prio, t);
      if prio(t) >= REAL_TIME {
        currentRq.Insert(t, prio(t));
      } else if prio(t) == TIME_SHARE {
        nextRq.Insert(t, TIME_SHARE);
      } else {
        idleRq := idleRq + [t];
      }
      assert Qs() == Enqueued(old(Qs()), prio(t), t);
      ghost var order := OrderOf(Qs());
      assert forall x :: x in order <==> x == t || x in old(OrderOf(Qs()));
      assert NoDup(order);
    }

    /** Whether a thread comes before another that runs or is about to. */
    predicate Preempts(t: Thread, other: Thread) {
      if prio(t) >= REAL_TIME then prio(t) > prio(other) else other == idle
    }

    /** The thread to compare with: the next one, or else the current one. */
    function Rival(): Thread
      requires -1 <= next
      reads this`next, this`current
    {
      if next >= 0 then next else current
    }

    /** `sched_insert`: a thread becomes ready, or next in place of a lesser one. */
    method Insert(t: Thread) returns (ghost rounds: nat)
      requires Inv() && t != idle
      requires !StatusOf(t).Ready? && !StatusOf(t).NextUp?
      modifies this`idleRq, this`status, this`next, this`softints, currentRq, nextRq, currentRq.queues, nextRq.queues
      ensures Inv() && rounds <= 2
      ensures !Preempts(t, old(Rival())) ==>
        next == old(next) && softints == old(softints) && Qs() == Enqueued(old(Qs()), prio(t), t)
      ensures Preempts(t, old(Rival())) && old(next) >= 0 ==>
        next == t && softints == old(softints) && Qs() == Enqueued(old(Qs()), prio(old(next)), old(next))
      ensures Preempts(t, old(Rival())) && old(next) < 0 ==>
        next == t && softints == old(softints) + 1 && Qs() == old(Qs())
      // which of the two: an idle processor takes any thread, a busy one only a more urgent real-time thread
      ensures next == t <==>
        (old(next) < 0 && old(current) == idle)
        || (prio(t) >= REAL_TIME && prio(t) > prio(if old(next) >= 0 then old(next) else old(current)))
    {
      hide Has, Placed, NoDup, Flat, OrderOf, Enqueued;
      var thread: Thread := t;
      rounds := 0;
      while true
        invariant InvBut(thread) && currentRq == old(currentRq) && nextRq == old(nextRq) && Qs() == old(Qs())
        invariant thread != idle && thread != next && thread !in OrderOf(Qs())
        invariant softints == old(softints) && rounds <= 1
        invariant rounds == 0 ==> thread == t && next == old(next)
        invariant rounds == 1 ==> thread == old(next) && next == t && prio(t) >= REAL_TIME && prio(t) > prio(thread)
        invariant rounds == 1 ==> Preempts(t, old(Rival()))
        decreases 2 - rounds
      {
        rounds := rounds + 1;
        ghost var q, was' := Qs(), status;
        status := status[thread := Ready];
        StatusSet(OrderOf(q), next, was', status, idle, thread);
        assert Qs() == q;
        var comp := Rival();
        if prio(thread) >= REAL_TIME {
          if prio(thread) <= prio(comp) {
            Enqueue(thread);
            return;
          }
        } else if comp != idle {
          Enqueue(thread);
          return;
        }
        var was := next;
        NextSet(OrderOf(q), was, status, idle, thread);
        status := status[thread := NextUp];
        next := thread;
        if was < 0 {
          softints := softints + 1;
          return;
        }
        thread := was;
      }
    }

    /** `select_next`: the first thread in the order, or -1. */
    method SelectNext(priority: nat) returns (t: int)
      requires Inv()
      modifies this`currentRq, this`nextRq, this`idleRq, this`status
      modifies currentRq, nextRq, currentRq.queues, nextRq.queues
      ensures Inv() && {currentRq, nextRq} == old({currentRq, nextRq})
      ensures t >= 0 <==> Urgent(priority, old(Qs()))
      ensures t >= 0 ==> old(OrderOf(Qs())) == [t] + OrderOf(Qs()) && status == old(status)[t as Thread := Switching]
      ensures t < 0 ==> t == -1 && OrderOf(Qs()) == old(OrderOf(Qs())) && status == old(status)
      decreases if currentRq.mask == 0 then 1 else 0
    {
      hide Has, Placed, NoDup, Flat;
      ghost var q := Qs();
      currentRq.MaskIs();
      nextRq.MaskIs();
      if currentRq.mask != 0 {
        MaskAny(currentRq.mask);
        var top := Highest(currentRq.mask, LEVELS);
        TopIs(q.cur, top);
        if priority > top { return -1; }
        TakenOk(q, prio, top);
        t := currentRq.Take(top);
        FrontSet(OrderOf(q), OrderOf(Qs()), next, status, idle, t);
        status := status[t as Thread := Switching];
      } else if nextRq.mask != 0 {
        currentRq, nextRq := nextRq, currentRq;
        SwappedOk(q, prio);
        assert Qs() == Queues(q.nxt, q.cur, q.idle);
        t := SelectNext(priority);
      } else if idleRq != [] {
        t := idleRq[0];
        idleRq := idleRq[1..];
        IdleTaken(q, prio);
        FrontSet(OrderOf(q), OrderOf(Qs()), next, status, idle, t);
        status := status[t as Thread := Switching];
      } else {
        t := -1;
      }
    }

    /** The thread a switch goes to: the next one, else the first in the order, else idle. */
    ghost function Chosen(): Thread
      requires Inv()
      reads this, currentRq, nextRq, currentRq.queues, nextRq.queues
    {
      if next >= 0 then next else if OrderOf(Qs()) != [] then OrderOf(Qs())[0] else idle
    }

    /** `sched_yield`: the current thread gives up the processor. */
    method Yield() returns (t: Thread)
      requires Inv()
      modifies this, currentRq, nextRq, currentRq.queues, nextRq.queues
      ensures Inv() && {currentRq, nextRq} == old({currentRq, nextRq}) && next == -1
      ensures t == current == old(Chosen())
      ensures t != idle ==> StatusOf(t).Switching?
      ensures old(next) < 0 && old(OrderOf(Qs())) != [] ==> old(OrderOf(Qs())) == [t] + OrderOf(Qs())
      ensures old(next) >= 0 || old(OrderOf(Qs())) == [] ==> OrderOf(Qs()) == old(OrderOf(Qs()))
      ensures old(current) != idle && !old(StatusOf(current)).Ready? && !old(StatusOf(current)).NextUp? ==> t != old(current)
    {
      hide Has, Placed, NoDup, Flat;
      ghost var q := Qs();
      UrgentAny(q);
      if next >= 0 {
        t := next;
        NextTaken(OrderOf(q), next, status, idle);
        next := -1;
        status := status[t := Switching];
        assert Qs() == q;
      } else {
        var first := SelectNext(0);
        t := if first >= 0 then first else idle;
      }
      current := t;
    }

    /** The first half of `sched_preempt`: the next thread, or -1. */
    method PreemptTake() returns (t: int)
      requires Inv()
      modifies this`next, this`status
      ensures Inv() && t == old(next) && next == -1 && Qs() == old(Qs())
      ensures status == if t >= 0 then old(status)[t as Thread := Switching] else old(status)
    {
      hide Has, Placed, NoDup, Flat;
      ghost var q := Qs();
      t := next;
      if t >= 0 {
        NextTaken(OrderOf(q), next, status, idle);
        next := -1;
        status := status[t as Thread := Switching];
      }
      assert Qs() == q;
    }

    /** The second half: the current thread becomes ready, and the other runs. */
    method PreemptSwitch(t: Thread)
      requires Inv() && t != current && t != idle && StatusOf(t).Switching?
      requires current != idle ==> !StatusOf(current).Ready? && !StatusOf(current).NextUp?
      modifies this, currentRq, nextRq, currentRq.queues, nextRq.queues
      ensures Inv() && current == t && currentRq == old(currentRq) && nextRq == old(nextRq)
      ensures old(current) == idle ==> Qs() == old(Qs()) && next == old(next)
      ensures old(current) != idle && !Preempts(old(current), old(Rival())) ==>
        next == old(next) && Qs() == Enqueued(old(Qs()), prio(old(current)), old(current))
      ensures old(current) != idle && Preempts(old(current), old(Rival())) ==>
        old(next) >= 0 && next == old(current) && Qs() == Enqueued(old(Qs()), prio(old(next)), old(next))
    {
      hide Has, Placed, NoDup, Flat;
      ghost var q := Qs();
      if current != idle {
        var _ := Insert(current);
      } else {
        IdleSet(OrderOf(q), next, status, idle);
        status := status[idle := Ready];
        assert Qs() == q;
      }
      current := t;
    }
  }
}
