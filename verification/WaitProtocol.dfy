/** The two-phase wait of the kernel over any number of threads and objects,
    one step for each critical section. */
module WaitProtocol {
  import opened Lists

  datatype Phase = Unset | InProgress | Aborted | Committed
  datatype TimerState = Unused | Queued | Fired | Canceled
  datatype Outcome = Success | Timeout
  datatype Maybe = Nothing | Just(outcome: Outcome)

  /** Where a thread is in `sched_wait`: the section it does next. */
  datatype Pc =
    | Idle          // not in a wait
    | Setup         // the wait block is filled in
    | Entered       // the phase is IN_PROGRESS
    | Acquired      // the object was signaled
    | Linked        // the wait block is on the object's list
    | Timed         // the timeout, if any, is set
    | AbortTimer | AbortTimeout | AbortBlock     // resolved before blocking: clean up
    | Blocked       // committed, THREAD_WAITING
    | WokenBlock | WokenTimeout | WokenTimer     // resumed: clean up

  /** A thread, its wait block (`dequeued`, `unwaited`), its timeout wait block
      (`tDequeued`, `tUnwaited`, on its timer's list if `tListed`) and its
      timer. `verdicts` records each time the current wait was resolved. */
  datatype Thread = Thread(
    pc: Pc, phase: Phase, waiting: bool, waitStatus: Outcome, obj: nat, hasTimeout: bool,
    dequeued: bool, unwaited: bool, tDequeued: bool, tUnwaited: bool, tListed: bool, timer: TimerState,
    result: Maybe, verdicts: seq<Outcome>)

  /** A kernel object: whether it is OBJ_SYNC, its signal count, which for an
      OBJ_SYNC object are tokens, and the waiting threads in order. */
  datatype Object = Object(sync: bool, count: int, queue: seq<nat>)

  type Threads = map<nat, Thread>

  datatype State = State(threads: Threads, objects: map<nat, Object>)

  // Invariant ------------------------------------------------------------------

  /** The wait block has been queued and the thread has not taken it off itself. */
  predicate Holding(pc: Pc) {
    pc.Linked? || pc.Timed? || pc.AbortTimer? || pc.AbortTimeout? || pc.AbortBlock? || pc.Blocked? || pc.WokenBlock?
  }

  predicate Cleaning(pc: Pc) {
    pc.AbortTimer? || pc.AbortTimeout? || pc.AbortBlock? || pc.WokenBlock? || pc.WokenTimeout? || pc.WokenTimer?
  }

  /** The timer may still be running. */
  predicate TimerLive(pc: Pc) {
    pc.Timed? || pc.AbortTimer? || pc.Blocked? || pc.WokenBlock? || pc.WokenTimeout? || pc.WokenTimer?
  }

  /** The timeout wait block may still be on the timer's list. */
  predicate TimeoutLive(pc: Pc) {
    pc.Timed? || pc.AbortTimer? || pc.AbortTimeout? || pc.Blocked? || pc.WokenBlock? || pc.WokenTimeout?
  }

  predicate ThreadOk(th: Thread) {
    && (th.waiting <==> th.pc.Blocked?)
    && (th.pc.Setup? || th.pc.Entered? ==> !th.dequeued && !th.unwaited && th.verdicts == [])
    && (th.pc.Entered? ==> th.phase.InProgress? && !th.tDequeued && !th.tUnwaited)
    && (th.pc.Acquired? ==> th.verdicts == [Success])
    && (Holding(th.pc) || Cleaning(th.pc) ==>
          && (th.dequeued ==> th.unwaited) && (th.tDequeued ==> th.unwaited) && th.tUnwaited == th.unwaited
          && th.verdicts == (if th.unwaited then [th.waitStatus] else []))
    && (Cleaning(th.pc) ==> th.unwaited)
    && (th.pc.Linked? || th.pc.Timed? ==> th.phase == (if th.unwaited then Aborted else InProgress))
    && (th.pc.Linked? ==> !th.tDequeued)
    && (th.pc.Blocked? ==> !th.unwaited)
    && (th.timer.Queued? ==> TimerLive(th.pc) && th.hasTimeout)
    && (th.tListed ==> TimeoutLive(th.pc) && th.hasTimeout)
    && (TimeoutLive(th.pc) && th.hasTimeout ==> (th.tListed <==> !th.tDequeued))
    && ((th.pc.Timed? || th.pc.Blocked?) && th.tListed ==> th.timer.Queued?)
    && (th.pc.WokenTimeout? || th.pc.WokenTimer? || th.pc.AbortTimer? || th.pc.AbortTimeout? ==> th.hasTimeout)
    && (th.pc.Idle? ==> th.verdicts == (if th.result.Just? then [th.result.outcome] else []))
  }

  /** The list of an object holds exactly the blocks that wait on it. */
  ghost predicate QueueOk(ts: Threads, o: nat, q: seq<nat>) {
    && (forall t :: t in q <==> t in ts && ts[t].obj == o && Holding(ts[t].pc) && !ts[t].dequeued)
    && (forall i, j :: 0 <= i < j < |q| ==> q[i] != q[j])
  }

  /** No token lies unused while a thread waits. */
  predicate TokensOk(ob: Object) {
    ob.count >= 0 && (ob.count > 0 ==> ob.queue == [])
  }

  ghost predicate Inv(s: State) {
    && (forall t :: t in s.threads ==> ThreadOk(s.threads[t]) && (!s.threads[t].pc.Idle? ==> s.threads[t].obj in s.objects))
    && (forall o :: o in s.objects ==> QueueOk(s.threads, o, s.objects[o].queue) && TokensOk(s.objects[o]))
  }

  // Sections ---------------------------------------------------------------------

  /** `thread_unwait`. */
  function Unwait(th: Thread, status: Outcome): Thread {
    th.(phase := if th.waiting then th.phase else Aborted, waitStatus := status, unwaited := true, tUnwaited := true,
        waiting := false, pc := if th.waiting then WokenBlock else th.pc, verdicts := th.verdicts + [status])
  }

  /** What `thread_unwait` asserts. */
  predicate Unwaitable(th: Thread) {
    th.waiting || th.phase.InProgress?
  }

  /** `kobject_signal_locked`: threads and list afterwards, and how many it woke. */
  function Signal(ts: Threads, q: seq<nat>, all: bool): (r: (Threads, seq<nat>, nat))
    requires forall t :: t in q ==> t in ts
    ensures r.0.Keys == ts.Keys
    decreases |q|
  {
    if q == [] then (ts, [], 0)
    else
      var t, th := q[0], ts[q[0]].(dequeued := true);
      if th.unwaited then Signal(ts[t := th], q[1..], all)
      else
        var ts' := ts[t := Unwait(th, Success)];
        if !all then (ts', q[1..], 1)
        else var r := Signal(ts', q[1..], all); (r.0, r.1, r.2 + 1)
  }

  /** `wb_dequeue` on an object's list. */
  function Unlink(ob: Object, t: nat, dequeued: bool): Object {
    if dequeued then ob else ob.(queue := Without(ob.queue, t))
  }

  datatype Step =
    | Start(t: nat, o: nat, timeout: bool)  // sched_wait is called
    | Enter(t: nat)
    | Check(t: nat)
    | Arm(t: nat)
    | Commit(t: nat)
    | Clean(t: nat)                         // one cleanup section, or the return
    | Fire(t: nat)                          // the timer of `t` expires
    | SemSignal(o: nat)
    | Poll(o: nat)                          // one turn of poll_single
    | Alarm(o: nat, all: bool)
    | Clear(o: nat)

  ghost predicate Enabled(s: State, step: Step) {
    match step
    case Start(t, o, _) => t in s.threads && s.threads[t].pc.Idle? && o in s.objects
    case Enter(t) => t in s.threads && s.threads[t].pc.Setup?
    case Check(t) => t in s.threads && s.threads[t].pc.Entered?
    case Arm(t) => t in s.threads && s.threads[t].pc.Linked?
    case Commit(t) => t in s.threads && s.threads[t].pc.Timed?
    case Clean(t) => t in s.threads && (Cleaning(s.threads[t].pc) || s.threads[t].pc.Acquired?)
    case Fire(t) => t in s.threads && s.threads[t].timer.Queued?
    case SemSignal(o) => o in s.objects && s.objects[o].sync
    case Poll(o) => o in s.objects
    case Alarm(o, _) => o in s.objects
    case Clear(o) => o in s.objects
  }

  function Entering(th: Thread): Thread {
    th.(pc := Entered, phase := InProgress, tDequeued := false, tUnwaited := false)
  }

  function Arming(th: Thread): Thread {
    if th.hasTimeout then th.(pc := Timed, timer := Queued, tListed := true) else th.(pc := Timed)
  }

  function Committing(th: Thread): Thread {
    if th.phase.Aborted? then th.(pc := if th.hasTimeout then AbortTimer else AbortBlock)
    else th.(pc := Blocked, phase := Committed, waiting := true)
  }

  /** `timer_uninstall`. */
  function Uninstalled(th: Thread): Thread {
    if th.timer.Queued? then th.(timer := Canceled) else th
  }

  /** `wb_dequeue` of the timeout wait block. */
  function Unlisted(th: Thread): Thread {
    if th.tDequeued then th else th.(tListed := false)
  }

  /** Leaving `sched_wait` with the wait status. */
  function Returning(th: Thread, status: Outcome): Thread {
    th.(pc := Idle, result := Just(status))
  }

  function Cleaned(th: Thread): Thread {
    match th.pc
    case AbortTimer => Uninstalled(th).(pc := AbortTimeout)
    case AbortTimeout => Unlisted(th).(pc := AbortBlock)
    case AbortBlock => Returning(th.(phase := Unset), th.waitStatus)
    case WokenBlock => if th.hasTimeout then th.(pc := WokenTimeout) else Returning(th, th.waitStatus)
    case WokenTimeout => Unlisted(th).(pc := WokenTimer)
    case WokenTimer => Returning(Uninstalled(th), th.waitStatus)
    case _ => Returning(th.(phase := Unset), Success)
  }

  /** `timer_update` firing the thread's own timer. */
  function Firing(th: Thread): Thread {
    var th := th.(timer := Fired);
    if !th.tListed then th
    else
      var th := th.(tListed := false, tDequeued := true);
      if th.tUnwaited then th else Unwait(th, Timeout)
  }

  function Acquire(ob: Object): Object {
    if ob.sync then ob.(count := ob.count - 1) else ob
  }

  function With(s: State, t: nat, th: Thread): State {
    s.(threads := s.threads[t := th])
  }

  ghost function Next(s: State, step: Step): State
    requires Inv(s) && Enabled(s, step)
  {
    match step
    case Start(t, o, timeout) =>
      With(s, t, s.threads[t].(pc := Setup, obj := o, hasTimeout := timeout, dequeued := false, unwaited := false, verdicts := [], result := Nothing))
    case Enter(t) => With(s, t, Entering(s.threads[t]))
    case Check(t) =>
      var th := s.threads[t];
      var ob := s.objects[th.obj];
      if ob.count > 0 then
        With(s.(objects := s.objects[th.obj := Acquire(ob)]), t, th.(pc := Acquired, verdicts := [Success]))
      else
        With(s.(objects := s.objects[th.obj := ob.(queue := ob.queue + [t])]), t, th.(pc := Linked))
    case Arm(t) => With(s, t, Arming(s.threads[t]))
    case Commit(t) => With(s, t, Committing(s.threads[t]))
    case Clean(t) =>
      var th := s.threads[t];
      var s' := if th.pc.AbortBlock? || th.pc.WokenBlock? then s.(objects := s.objects[th.obj := Unlink(s.objects[th.obj], t, th.dequeued)]) else s;
      With(s', t, Cleaned(th))
    case Fire(t) => With(s, t, Firing(s.threads[t]))
    case SemSignal(o) =>
      var ob := s.objects[o];
      var r := Signal(s.threads, ob.queue, false);
      State(r.0, s.objects[o := ob.(queue := r.1, count := if r.2 == 0 then ob.count + 1 else ob.count)])
    case Poll(o) =>
      if s.objects[o].count > 0 then s.(objects := s.objects[o := Acquire(s.objects[o])]) else s
    case Alarm(o, all) =>
      var ob := s.objects[o];
      if ob.count != 0 then s
      else if ob.queue == [] then s.(objects := s.objects[o := ob.(count := 1)])
      else
        var r := Signal(s.threads, ob.queue, all || !ob.sync);
        State(r.0, s.objects[o := ob.(queue := r.1, count := if ob.sync then 0 else 1)])
    case Clear(o) =>
      var ob := s.objects[o];
      s.(objects := s.objects[o := ob.(count := 0)])
  }

  // Preservation -----------------------------------------------------------------

  /** A thread changes, but not whether its block is on its object's list. */
  lemma SameLists(ts: Threads, t: nat, th: Thread, o: nat, q: seq<nat>)
    requires QueueOk(ts, o, q) && t in ts
    requires th.obj == o && Holding(th.pc) && !th.dequeued <==> ts[t].obj == o && Holding(ts[t].pc) && !ts[t].dequeued
    ensures QueueOk(ts[t := th], o, q)
  {
  }

  lemma WithInv(s: State, t: nat, th: Thread)
    requires Inv(s) && t in s.threads && ThreadOk(th) && (!th.pc.Idle? ==> th.obj in s.objects)
    requires forall o :: o in s.objects ==>
      (th.obj == o && Holding(th.pc) && !th.dequeued <==> s.threads[t].obj == o && Holding(s.threads[t].pc) && !s.threads[t].dequeued)
    ensures Inv(With(s, t, th))
  {
    hide ThreadOk, QueueOk, Holding;
    forall o | o in s.objects ensures QueueOk(s.threads[t := th], o, s.objects[o].queue) {
      SameLists(s.threads, t, th, o, s.objects[o].queue);
    }
  }

  /** What `kobject_signal_locked` does: it takes a prefix off the list, and each
      thread there was resolved already or is resolved now. */
  lemma SignalIs(ts: Threads, q: seq<nat>, all: bool)
    requires (forall t :: t in q ==> t in ts) && forall i, j :: 0 <= i < j < |q| ==> q[i] != q[j]
    ensures var r := Signal(ts, q, all);
      && |r.1| <= |q| && r.1 == q[|q| - |r.1|..]
      && (forall t :: t in ts && t !in q[..|q| - |r.1|] ==> r.0[t] == ts[t])
      && (forall t :: t in q[..|q| - |r.1|] ==>
            r.0[t] == if ts[t].unwaited then ts[t].(dequeued := true) else Unwait(ts[t].(dequeued := true), Success))
      && (all || r.2 == 0 ==> r.1 == [])
      && (r.2 == 0 ==> forall t :: t in q ==> ts[t].unwaited)
      && (!all ==> r.2 <= 1)
  {
    hide Unwait, Signal;
    SignalTail(ts, q, all);
    SignalWoke(ts, q, all);
    var r := Signal(ts, q, all);
    forall t | t in ts ensures r.0[t] == Signaled(ts[t], t in q[..|q| - |r.1|]) { SignalAt(ts, q, all, t); }
  }

  /** A thread after a signal, whether or not its block was taken off the list. */
  function Signaled(th: Thread, taken: bool): Thread {
    if !taken then th else if th.unwaited then th.(dequeued := true) else Unwait(th.(dequeued := true), Success)
  }

  lemma {:induction false} SignalTail(ts: Threads, q: seq<nat>, all: bool)
    requires forall t :: t in q ==> t in ts
    ensures var r := Signal(ts, q, all); |r.1| <= |q| && r.1 == q[|q| - |r.1|..]
    decreases |q|
  {
    hide Unwait;
    if q != [] {
      var t, th := q[0], ts[q[0]].(dequeued := true);
      if th.unwaited || all { SignalTail(ts[t := if th.unwaited then th else Unwait(th, Success)], q[1..], all); }
    }
  }

  lemma {:induction false} SignalAt(ts: Threads, q: seq<nat>, all: bool, t: nat)
    requires t in ts && (forall t :: t in q ==> t in ts) && forall i, j :: 0 <= i < j < |q| ==> q[i] != q[j]
    ensures var r := Signal(ts, q, all); |r.1| <= |q| && r.0[t] == Signaled(ts[t], t in q[..|q| - |r.1|])
    decreases |q|
  {
    hide Unwait;
    SignalTail(ts, q, all);
    if q != [] {
      var th := ts[q[0]].(dequeued := true);
      var ts' := ts[q[0] := if th.unwaited then th else Unwait(th, Success)];
      assert q == [q[0]] + q[1..] && q[0] !in q[1..];
      if th.unwaited || all {
        SignalAt(ts', q[1..], all, t);
        var n := |q| - |Signal(ts', q[1..], all).1|;
        SignalTail(ts', q[1..], all);
        assert q[..n] == [q[0]] + q[1..][..n - 1];
      } else {
        assert q[..|q| - |q[1..]|] == [q[0]];
      }
    }
  }

  /** How many threads a signal wakes. */
  lemma {:induction false} SignalWoke(ts: Threads, q: seq<nat>, all: bool)
    requires (forall t :: t in q ==> t in ts) && forall i, j :: 0 <= i < j < |q| ==> q[i] != q[j]
    ensures var r := Signal(ts, q, all);
      (all || r.2 == 0 ==> r.1 == []) && (r.2 == 0 ==> forall t :: t in q ==> ts[t].unwaited) && (!all ==> r.2 <= 1)
    decreases |q|
  {
    hide Unwait;
    if q != [] {
      var t := q[0];
      var th := ts[t].(dequeued := true);
      assert q == [t] + q[1..] && t !in q[1..];
      if th.unwaited || all {
        SignalWoke(ts[t := if th.unwaited then th else Unwait(th, Success)], q[1..], all);
      }
    }
  }

  /** Only the counts of an object change. */
  lemma CountInv(s: State, o: nat, ob: Object)
    requires Inv(s) && o in s.objects && ob.queue == s.objects[o].queue && TokensOk(ob)
    ensures Inv(s.(objects := s.objects[o := ob]))
  {
    hide ThreadOk, QueueOk, TokensOk;
  }

  lemma CheckInv(s: State, t: nat)
    requires Inv(s) && Enabled(s, Check(t))
    ensures Inv(Next(s, Check(t)))
  {
    var th := s.threads[t];
    var o, ob := th.obj, s.objects[th.obj];
    if ob.count > 0 {
      CountInv(s, o, Acquire(ob));
      WithInv(s.(objects := s.objects[o := Acquire(ob)]), t, th.(pc := Acquired, verdicts := [Success]));
    } else {
      LinkInv(s, t);
    }
  }

  lemma LinkInv(s: State, t: nat)
    requires Inv(s) && t in s.threads && s.threads[t].pc.Entered? && s.objects[s.threads[t].obj].count <= 0
    ensures var th := s.threads[t];
            var ob := s.objects[th.obj];
            Inv(With(s.(objects := s.objects[th.obj := ob.(queue := ob.queue + [t])]), t, th.(pc := Linked)))
  {
    hide ThreadOk, QueueOk;
    var th := s.threads[t];
    LinkedOk(th);
    forall p | p in s.objects
      ensures QueueOk(s.threads[t := th.(pc := Linked)], p, if p == th.obj then s.objects[p].queue + [t] else s.objects[p].queue)
    {
      LinkList(s.threads, t, p, s.objects[p].queue);
    }
  }

  lemma LinkList(ts: Threads, t: nat, p: nat, q: seq<nat>)
    requires t in ts && QueueOk(ts, p, q) && ts[t].pc.Entered? && !ts[t].dequeued
    ensures QueueOk(ts[t := ts[t].(pc := Linked)], p, if p == ts[t].obj then q + [t] else q)
  {
    assert t !in q;
  }

  lemma LinkedOk(th: Thread)
    requires ThreadOk(th) && th.pc.Entered?
    ensures ThreadOk(th.(pc := Linked)) && !th.dequeued
  {
  }

  lemma CleanedOk(th: Thread)
    requires ThreadOk(th) && (Cleaning(th.pc) || th.pc.Acquired?)
    ensures ThreadOk(Cleaned(th)) && Cleaned(th).obj == th.obj && Cleaned(th).dequeued == th.dequeued
    ensures Holding(Cleaned(th).pc) <==> Holding(th.pc) && !th.pc.AbortBlock? && !th.pc.WokenBlock?
  {
  }

  lemma CleanInv(s: State, t: nat)
    requires Inv(s) && Enabled(s, Clean(t))
    ensures Inv(Next(s, Clean(t)))
  {
    hide ThreadOk, Cleaned;
    var th := s.threads[t];
    CleanedOk(th);
    if th.pc.AbortBlock? || th.pc.WokenBlock? {
      UnlinkInv(s, t, Cleaned(th));
    } else {
      WithInv(s, t, Cleaned(th));
    }
  }

  lemma UnlinkInv(s: State, t: nat, th': Thread)
    requires Inv(s) && t in s.threads && (s.threads[t].pc.AbortBlock? || s.threads[t].pc.WokenBlock?)
    requires ThreadOk(th') && th'.obj == s.threads[t].obj && !Holding(th'.pc)
    ensures var th := s.threads[t];
            Inv(With(s.(objects := s.objects[th.obj := Unlink(s.objects[th.obj], t, th.dequeued)]), t, th'))
  {
    hide ThreadOk, QueueOk, TokensOk, Unlink;
    var th := s.threads[t];
    var ob := Unlink(s.objects[th.obj], t, th.dequeued);
    UnlinkTokens(s.objects[th.obj], t, th.dequeued);
    forall p | p in s.objects
      ensures QueueOk(s.threads[t := th'], p, if p == th.obj then ob.queue else s.objects[p].queue)
    {
      UnlinkList(s.threads, t, th', p, s.objects[p].queue);
    }
    BothInv(s, t, th', th.obj, ob);
  }

  /** A thread and an object change together. */
  lemma BothInv(s: State, t: nat, th': Thread, o: nat, ob': Object)
    requires Inv(s) && t in s.threads && ThreadOk(th') && (!th'.pc.Idle? ==> th'.obj in s.objects)
    requires o in s.objects && TokensOk(ob')
    requires forall p :: p in s.objects ==>
      QueueOk(s.threads[t := th'], p, if p == o then ob'.queue else s.objects[p].queue)
    ensures Inv(With(s.(objects := s.objects[o := ob']), t, th'))
  {
    hide ThreadOk, QueueOk, TokensOk;
    var s' := With(s.(objects := s.objects[o := ob']), t, th');
    forall p | p in s'.objects ensures QueueOk(s'.threads, p, s'.objects[p].queue) && TokensOk(s'.objects[p]) {
      assert p in s.objects && s'.threads == s.threads[t := th'];
    }
    forall x | x in s'.threads ensures ThreadOk(s'.threads[x]) && (!s'.threads[x].pc.Idle? ==> s'.threads[x].obj in s'.objects) {
      assert x == t || s'.threads[x] == s.threads[x];
    }
  }

  lemma UnlinkTokens(ob: Object, t: nat, dequeued: bool)
    requires TokensOk(ob)
    ensures TokensOk(Unlink(ob, t, dequeued)) && Unlink(ob, t, dequeued).queue == if dequeued then ob.queue else Without(ob.queue, t)
  {
    assert ob.count > 0 ==> Without(ob.queue, t) == [];
  }

  lemma UnlinkList(ts: Threads, t: nat, th': Thread, p: nat, q: seq<nat>)
    requires t in ts && QueueOk(ts, p, q) && Holding(ts[t].pc) && !Holding(th'.pc)
    ensures QueueOk(ts[t := th'], p, if p == ts[t].obj && !ts[t].dequeued then Without(q, t) else q)
  {
    hide Holding, Without;
    WithoutOk(q, t);
    var ts', q' := ts[t := th'], if p == ts[t].obj && !ts[t].dequeued then Without(q, t) else q;
    forall x ensures x in q' <==> x in ts' && ts'[x].obj == p && Holding(ts'[x].pc) && !ts'[x].dequeued {
      assert x in q <==> x in ts && ts[x].obj == p && Holding(ts[x].pc) && !ts[x].dequeued;
    }
  }

  lemma UnwaitOk(th: Thread)
    requires ThreadOk(th) && Holding(th.pc) && !th.dequeued
    ensures Holding(th.(dequeued := true).pc)
    ensures th.unwaited ==> ThreadOk(th.(dequeued := true))
    ensures !th.unwaited ==>
      var th' := Unwait(th.(dequeued := true), Success);
      Unwaitable(th) && ThreadOk(th') && Holding(th'.pc) && th'.obj == th.obj && th'.dequeued
  {
  }

  /** Signaling object `o` and then setting its counts. */
  lemma SignalInv(s: State, o: nat, all: bool, ob': Object)
    requires Inv(s) && o in s.objects
    requires ob'.queue == Signal(s.threads, s.objects[o].queue, all).1 && TokensOk(ob')
    ensures Inv(State(Signal(s.threads, s.objects[o].queue, all).0, s.objects[o := ob']))
  {
    hide ThreadOk, TokensOk, Signal, Unwait;
    var ts, q := s.threads, s.objects[o].queue;
    var r := Signal(ts, q, all);
    assert QueueOk(ts, o, q);
    SignalIs(ts, q, all);
    var k := |q| - |r.1|;
    assert q == q[..k] + r.1;
    forall t | t in r.0 ensures ThreadOk(r.0[t]) && (!r.0[t].pc.Idle? ==> r.0[t].obj in s.objects) {
      if t in q[..k] { UnwaitOk(ts[t]); }
    }
    forall t | t in q[..k] ensures Holding(r.0[t].pc) && r.0[t].obj == ts[t].obj && r.0[t].dequeued {
      UnwaitOk(ts[t]);
    }
    forall p | p in s.objects ensures QueueOk(r.0, p, if p == o then r.1 else s.objects[p].queue) {
      SignalLists(ts, q, r.0, k, o, p, s.objects[p].queue);
    }
  }

  lemma SignalLists(ts: Threads, q: seq<nat>, ts': Threads, k: nat, o: nat, p: nat, qp: seq<nat>)
    requires k <= |q| && QueueOk(ts, o, q) && QueueOk(ts, p, qp) && (p == o ==> qp == q) && ts'.Keys == ts.Keys
    requires forall t :: t in ts && t !in q[..k] ==> ts'[t] == ts[t]
    requires forall t :: t in q[..k] ==> Holding(ts'[t].pc) && ts'[t].obj == ts[t].obj && ts'[t].dequeued
    ensures QueueOk(ts', p, if p == o then q[k..] else qp)
  {
    assert q == q[..k] + q[k..];
    forall t ensures t in q[k..] <==> t in q && t !in q[..k] {
      if t in q[k..] {
        var j :| k <= j < |q| && q[j] == t;
        assert forall i :: 0 <= i < k ==> q[..k][i] != t;
      }
    }
  }

  lemma OwnStepOk(th: Thread, o: nat, timeout: bool)
    requires ThreadOk(th)
    ensures th.pc.Idle? ==>
      ThreadOk(th.(pc := Setup, obj := o, hasTimeout := timeout, dequeued := false, unwaited := false, verdicts := [], result := Nothing))
    ensures th.pc.Idle? || th.pc.Setup? ==> !Holding(th.pc)
    ensures !Holding(Setup)
    ensures th.pc.Setup? ==> ThreadOk(Entering(th)) && !Holding(Entering(th).pc) && Entering(th).obj == th.obj
    ensures th.pc.Linked? ==>
      ThreadOk(Arming(th)) && Holding(th.pc) && Holding(Arming(th).pc) && Arming(th).obj == th.obj && Arming(th).dequeued == th.dequeued
    ensures th.pc.Timed? ==>
      ThreadOk(Committing(th)) && Holding(th.pc) && Holding(Committing(th).pc)
      && Committing(th).obj == th.obj && Committing(th).dequeued == th.dequeued
    ensures th.timer.Queued? ==>
      ThreadOk(Firing(th)) && (Holding(Firing(th).pc) <==> Holding(th.pc)) && Firing(th).obj == th.obj && Firing(th).dequeued == th.dequeued
    ensures th.timer.Queued? && th.tListed && !th.tUnwaited ==> Unwaitable(th)
    ensures th.timer.Queued? ==> !th.pc.Idle?
  {
  }

  lemma SignalCount(ts: Threads, q: seq<nat>, all: bool)
    requires (forall t :: t in q ==> t in ts) && forall i, j :: 0 <= i < j < |q| ==> q[i] != q[j]
    ensures var r := Signal(ts, q, all); (q == [] ==> r.1 == []) && (all || r.2 == 0 ==> r.1 == []) && (!all ==> r.2 <= 1)
  {
    hide Unwait;
    SignalIs(ts, q, all);
  }

  lemma AlarmInv(s: State, o: nat, all: bool)
    requires Inv(s) && o in s.objects
    ensures Inv(Next(s, Alarm(o, all)))
  {
    hide ThreadOk, QueueOk, Signal;
    var ob := s.objects[o];
    if ob.count == 0 {
      if ob.queue == [] {
        CountInv(s, o, ob.(count := 1));
      } else {
        QueueDistinct(s, o);
        var r := Signal(s.threads, ob.queue, all || !ob.sync);
        SignalCount(s.threads, ob.queue, all || !ob.sync);
        SignalInv(s, o, all || !ob.sync, ob.(queue := r.1, count := if ob.sync then 0 else 1));
      }
    }
  }

  lemma SemInv(s: State, o: nat)
    requires Inv(s) && Enabled(s, SemSignal(o))
    ensures Inv(Next(s, SemSignal(o)))
  {
    hide ThreadOk, QueueOk, Signal;
    var ob := s.objects[o];
    QueueDistinct(s, o);
    var r := Signal(s.threads, ob.queue, false);
    SignalCount(s.threads, ob.queue, false);
    SignalInv(s, o, false, ob.(queue := r.1, count := if r.2 == 0 then ob.count + 1 else ob.count));
  }

  lemma QueueDistinct(s: State, o: nat)
    requires Inv(s) && o in s.objects
    ensures forall t :: t in s.objects[o].queue ==> t in s.threads
    ensures forall i, j :: 0 <= i < j < |s.objects[o].queue| ==> s.objects[o].queue[i] != s.objects[o].queue[j]
  {
    assert QueueOk(s.threads, o, s.objects[o].queue);
  }

  /** Every section keeps the invariant. */
  lemma NextInv(s: State, step: Step)
    requires Inv(s) && Enabled(s, step)
    ensures Inv(Next(s, step))
  {
    hide ThreadOk, QueueOk, Signal;
    match step
    case Start(t, o, timeout) => OwnInv(s, step, t, o, timeout);
    case Enter(t) => OwnInv(s, step, t, 0, false);
    case Check(t) => CheckInv(s, t);
    case Arm(t) => OwnInv(s, step, t, 0, false);
    case Commit(t) => OwnInv(s, step, t, 0, false);
    case Clean(t) => CleanInv(s, t);
    case Fire(t) => OwnInv(s, step, t, 0, false);
    case SemSignal(o) => SemInv(s, o);
    case Poll(o) => if s.objects[o].count > 0 { CountInv(s, o, Acquire(s.objects[o])); }
    case Alarm(o, all) => AlarmInv(s, o, all);
    case Clear(o) =>
      var ob := s.objects[o];
      CountInv(s, o, ob.(count := 0));
  }

  lemma OwnInv(s: State, step: Step, t: nat, o: nat, timeout: bool)
    requires Inv(s) && Enabled(s, step)
    requires step == Start(t, o, timeout) || step == Enter(t) || step == Arm(t) || step == Commit(t) || step == Fire(t)
    ensures Inv(Next(s, step))
  {
    hide ThreadOk, QueueOk, Signal, TokensOk, Entering, Arming, Committing, Firing, Holding;
    var th := s.threads[t];
    OwnStepOk(th, o, timeout);
    WithInv(s, t, Next(s, step).threads[t]);
  }

  /** A state before anything happens. */
  ghost predicate Initial(s: State) {
    && (forall t :: t in s.threads ==>
          var th := s.threads[t];
          th.pc.Idle? && !th.waiting && !th.tListed && !th.timer.Queued? && th.verdicts == [] && th.result.Nothing?)
    && (forall o :: o in s.objects ==> s.objects[o].queue == [] && s.objects[o].count >= 0)
  }

  ghost predicate Follows(s: State, step: Step, s': State) {
    Inv(s) ==> Enabled(s, step) && s' == Next(s, step)
  }

  ghost predicate IsRun(run: seq<State>, steps: seq<Step>) {
    && |run| == |steps| + 1 && Initial(run[0])
    && forall i :: 0 <= i < |steps| ==> Follows(run[i], steps[i], run[i + 1])
  }

  /** Over whole runs. */
  lemma {:induction false} RunInv(run: seq<State>, steps: seq<Step>, k: nat)
    requires IsRun(run, steps) && k < |run|
    ensures Inv(run[k])
  {
    if k > 0 {
      var i := k - 1;
      RunInv(run, steps, i);
      assert Follows(run[i], steps[i], run[i + 1]);
      NextInv(run[i], steps[i]);
    }
  }

  // What it means ------------------------------------------------------------------

  /** When `sched_wait` returns, the wait was resolved exactly once, with the
      status it returns; none of its wait blocks is on any list, its timer is not
      running, and the next `timer_reset` will find it so. */
  lemma ReturnedClean(s: State, t: nat)
    requires Inv(s) && t in s.threads && s.threads[t].pc.Idle?
    ensures var th := s.threads[t];
      && (th.result.Just? ==> th.verdicts == [th.result.outcome])
      && !th.tListed && !th.timer.Queued? && forall o :: o in s.objects ==> t !in s.objects[o].queue
  {
    forall o | o in s.objects ensures t !in s.objects[o].queue {
      assert QueueOk(s.threads, o, s.objects[o].queue);
    }
  }

  /** A thread that sleeps has not been resolved, is on its object's list where a
      signal finds it, the object has no token left, and its timeout is running. */
  lemma SleeperFound(s: State, t: nat)
    requires Inv(s) && t in s.threads && s.threads[t].waiting
    ensures var th := s.threads[t];
      && th.verdicts == [] && th.obj in s.objects && t in s.objects[th.obj].queue && s.objects[th.obj].count == 0
      && (th.hasTimeout ==> th.tListed && th.timer.Queued?)
  {
    var th := s.threads[t];
    assert QueueOk(s.threads, th.obj, s.objects[th.obj].queue);
  }

  /** A signal goes to the first thread on the list that is not resolved yet, and
      to nobody, as a token, only if there is none. */
  lemma SignalGoesTo(s: State, o: nat, i: nat)
    requires Inv(s) && Enabled(s, SemSignal(o)) && i < |s.objects[o].queue|
    requires forall j :: 0 <= j < i ==> s.threads[s.objects[o].queue[j]].unwaited
    requires !s.threads[s.objects[o].queue[i]].unwaited
    ensures var t, s' := s.objects[o].queue[i], Next(s, SemSignal(o));
      && s'.threads[t].verdicts == [Success] && !s'.threads[t].waiting && s'.objects[o].count == s.objects[o].count
      && s'.objects[o].queue == s.objects[o].queue[i + 1..]
      && forall u :: u in s.threads && u != t ==> s'.threads[u].verdicts == s.threads[u].verdicts
  {
    QueueDistinct(s, o);
    FirstWoken(s.threads, s.objects[o].queue, i);
    var t := s.objects[o].queue[i];
    assert QueueOk(s.threads, o, s.objects[o].queue) && ThreadOk(s.threads[t]);
  }

  lemma {:induction false} FirstWoken(ts: Threads, q: seq<nat>, i: nat)
    requires (forall t :: t in q ==> t in ts) && (forall i, j :: 0 <= i < j < |q| ==> q[i] != q[j])
    requires i < |q| && (forall j :: 0 <= j < i ==> ts[q[j]].unwaited) && !ts[q[i]].unwaited
    ensures var r := Signal(ts, q, false);
      && r.1 == q[i + 1..] && r.2 == 1 && r.0[q[i]] == Unwait(ts[q[i]].(dequeued := true), Success)
      && forall u :: u in ts && u != q[i] ==> r.0[u].verdicts == ts[u].verdicts
    decreases i
  {
    if i > 0 {
      var t := q[0];
      FirstWoken(ts[t := ts[t].(dequeued := true)], q[1..], i - 1);
    }
  }

  lemma {:induction false} AllStale(ts: Threads, q: seq<nat>, all: bool)
    requires (forall t :: t in q ==> t in ts && ts[t].unwaited)
    ensures Signal(ts, q, all).2 == 0
    decreases |q|
  {
    if q != [] {
      AllStale(ts[q[0] := ts[q[0]].(dequeued := true)], q[1..], all);
    }
  }
}
