/** The sleeping mutex over the two-phase wait: any number of threads, one step
    for each compare-and-swap and each critical section. */
module MutexProtocol {
  import opened WaitProtocol
  import opened WaitSystem

  const LOCK_TRY_COUNT := 50

  /** Where a thread is with respect to the mutex; `Sleeping` covers all of
      `sched_wait` when it blocks, `Polling` when it polls, `Alarming` the time
      between the release and the alarm. */
  datatype Use = Outside | Trying(tries: nat) | Sleeping | Polling | Holding | Alarming

  datatype Owner = Nobody | By(thread: nat)

  datatype MState = MState(w: State, owner: Owner, use: map<nat, Use>, ev: nat)

  // Invariants -----------------------------------------------------------------

  ghost predicate UseOk(m: MState, t: nat) {
    && t in m.use && t in m.w.threads
    && (m.use[t].Sleeping? <==> !m.w.threads[t].pc.Idle?)
    && (m.use[t].Sleeping? ==> m.w.threads[t].obj == m.ev)
    && (m.use[t].Holding? <==> m.owner == By(t))
    && (m.use[t].Trying? ==> m.use[t].tries < LOCK_TRY_COUNT)
  }

  ghost predicate MInv(m: MState) {
    && Inv(m.w) && m.ev in m.w.objects && m.w.objects[m.ev].sync && m.w.objects[m.ev].count <= 1
    && m.use.Keys == m.w.threads.Keys && (m.owner.By? ==> m.owner.thread in m.use)
    && forall t :: t in m.use ==> UseOk(m, t)
  }

  /** In `sched_wait`, blocking or polling, and not resolved yet. */
  ghost predicate Pending(m: MState, t: nat) {
    t in m.use && t in m.w.threads && (m.use[t].Polling? || (m.use[t].Sleeping? && m.w.threads[t].verdicts == []))
  }

  /** About to alarm, about to try the lock, or woken and about to try it. */
  ghost predicate Helper(m: MState, u: nat) {
    && u in m.use && u in m.w.threads
    && (m.use[u].Alarming? || m.use[u].Trying? || (m.use[u].Sleeping? && m.w.threads[u].verdicts == [Success]))
  }

  /** While the mutex is free, nobody waits for it in vain: the event is signaled
      or some thread is on its way. */
  ghost predicate NoLostWakeup(m: MState) {
    m.owner == Nobody && (exists t :: Pending(m, t)) ==>
      (m.ev in m.w.objects && m.w.objects[m.ev].count > 0) || exists u :: Helper(m, u)
  }

  /** All blocking waits are infinite; then only signals resolve waits. */
  ghost predicate Untimed(m: MState) {
    forall t :: t in m.use && m.use[t].Sleeping? && t in m.w.threads ==>
      var th := m.w.threads[t];
      !th.hasTimeout && (WaitProtocol.Holding(th.pc) && th.unwaited ==> th.dequeued) && (th.verdicts == [] || th.verdicts == [Success])
  }

  // Steps ----------------------------------------------------------------------

  datatype MStep =
    | Call(t: nat)                    // kmutex_acquire
    | Try(t: nat, timeout: bool, poll: bool) // one compare-and-swap, and the call of sched_wait after the last
    | Turn(t: nat)                    // one turn of poll_single
    | Quit(t: nat)                    // its deadline has passed
    | Wait(step: Step)                // a section of sched_wait, or a timer
    | Release(t: nat)                 // the compare-and-swap of kmutex_release
    | Ring(t: nat)                    // its event_alarm

  predicate IsWaitStep(step: Step) {
    step.Enter? || step.Check? || step.Arm? || step.Commit? || step.Clean? || step.Fire?
  }

  ghost predicate MEnabled(m: MState, step: MStep) {
    match step
    case Call(t) => t in m.use && m.use[t].Outside?
    case Try(t, _, _) => t in m.use && m.use[t].Trying?
    case Turn(t) => t in m.use && m.use[t].Polling?
    case Quit(t) => t in m.use && m.use[t].Polling?
    case Wait(st) => IsWaitStep(st) && Enabled(m.w, st) && st.t in m.use
    case Release(t) => t in m.use && m.use[t].Holding?
    case Ring(t) => t in m.use && m.use[t].Alarming?
  }

  /** Back from `sched_wait`: retry, or give up with the error. */
  function AfterWait(th: Thread): Use {
    if !th.pc.Idle? then Sleeping else if th.result == Just(Success) then Trying(0) else Outside
  }

  ghost function MNext(m: MState, step: MStep): MState
    requires MInv(m) && MEnabled(m, step)
  {
    match step
    case Call(t) => m.(use := m.use[t := Trying(0)])
    case Try(t, timeout, poll) =>
      if m.owner == Nobody then m.(owner := By(t), use := m.use[t := Holding])
      else if m.use[t].tries + 1 < LOCK_TRY_COUNT then m.(use := m.use[t := Trying(m.use[t].tries + 1)])
      else if poll then m.(use := m.use[t := Polling])
      else assert UseOk(m, t); m.(w := Next(m.w, Start(t, m.ev, timeout)), use := m.use[t := Sleeping])
    case Turn(t) =>
      if m.w.objects[m.ev].count > 0 then m.(w := Next(m.w, Poll(m.ev)), use := m.use[t := Trying(0)]) else m
    case Quit(t) => m.(use := m.use[t := Outside])
    case Wait(st) =>
      var w := Next(m.w, st);
      m.(w := w, use := m.use[st.t := AfterWait(w.threads[st.t])])
    case Release(t) => m.(owner := Nobody, use := m.use[t := Alarming])
    case Ring(t) => m.(w := Next(m.w, Alarm(m.ev, false)), use := m.use[t := Outside])
  }

  // What the steps of the wait change ---------------------------------------------

  lemma WaitFrame(s: State, st: Step)
    requires Inv(s) && IsWaitStep(st) && Enabled(s, st)
    ensures var s', t := Next(s, st), st.t;
      && s'.threads.Keys == s.threads.Keys && s'.objects.Keys == s.objects.Keys
      && (forall u :: u in s.threads && u != t ==> s'.threads[u] == s.threads[u])
      && (forall o :: o in s.objects ==> s'.objects[o].sync == s.objects[o].sync && s'.objects[o].count <= s.objects[o].count)
      && !s.threads[t].pc.Idle? && s'.threads[t].obj == s.threads[t].obj && s'.threads[t].hasTimeout == s.threads[t].hasTimeout
  {
    hide Inv, Next, Enabled;
    WaitOthers(s, st);
    WaitOwn(s, st);
  }

  lemma WaitOthers(s: State, st: Step)
    requires Inv(s) && IsWaitStep(st) && Enabled(s, st)
    ensures var s' := Next(s, st);
      && s'.threads.Keys == s.threads.Keys && s'.objects.Keys == s.objects.Keys
      && (forall u :: u in s.threads && u != st.t ==> s'.threads[u] == s.threads[u])
      && (forall o :: o in s.objects ==> s'.objects[o].sync == s.objects[o].sync && s'.objects[o].count <= s.objects[o].count)
  {
    hide QueueOk, TokensOk, Entering, Arming, Committing, Firing, Cleaned;
    OwnStepOk(s.threads[st.t], 0, false);
  }

  lemma WaitOwn(s: State, st: Step)
    requires Inv(s) && IsWaitStep(st) && Enabled(s, st)
    ensures var th := s.threads[st.t];
      var s' := Next(s, st);
      !th.pc.Idle? && st.t in s'.threads && s'.threads[st.t].obj == th.obj && s'.threads[st.t].hasTimeout == th.hasTimeout
  {
    hide QueueOk, TokensOk;
    OwnStepOk(s.threads[st.t], 0, false);
  }

  lemma WaitVerdicts(s: State, st: Step)
    requires Inv(s) && IsWaitStep(st) && Enabled(s, st)
    ensures var t, s' := st.t, Next(s, st);
            var th, th' := s.threads[t], s'.threads[t];
      && (th'.verdicts == th.verdicts
          || (th.verdicts == [] && th'.verdicts == [Success] && st.Check? && th.obj in s.objects && s.objects[th.obj].count > 0)
          || (th.verdicts == [] && th'.verdicts == [Timeout] && th.hasTimeout))
      && (th.obj in s.objects && s'.objects[th.obj].count < s.objects[th.obj].count ==> th'.verdicts == [Success])
      && (th'.pc.Idle? ==> th'.result.Just? && th'.verdicts == [th'.result.outcome])
      && (!th.hasTimeout && (WaitProtocol.Holding(th.pc) && th.unwaited ==> th.dequeued) ==>
            (WaitProtocol.Holding(th'.pc) && th'.unwaited ==> th'.dequeued))
  {
    hide QueueOk, TokensOk;
    OwnStepOk(s.threads[st.t], 0, false);
    if st.Clean? { CleanedOk(s.threads[st.t]); }
  }

  lemma AlarmFrame(s: State, o: nat)
    requires Inv(s) && o in s.objects && s.objects[o].sync && s.objects[o].count <= 1
    ensures var s' := Next(s, Alarm(o, false));
      && s'.threads.Keys == s.threads.Keys && s'.objects.Keys == s.objects.Keys && s'.objects[o].sync && s'.objects[o].count <= 1
      && forall u :: u in s.threads ==> Touched(s.threads[u], s'.threads[u])
  {
    hide QueueOk, Unwait, ThreadOk;
    QueueDistinct(s, o);
    var ob := s.objects[o];
    SignalIs(s.threads, ob.queue, false);
    var r := Signal(s.threads, ob.queue, false);
    forall u | u in s.threads ensures Touched(s.threads[u], r.0[u]) {
      var k := |ob.queue| - |r.1|;
      TouchedOk(s.threads[u]);
      if u in ob.queue[..k] { assert QueueOk(s.threads, o, ob.queue); InQueue(s, o, u); } else { assert r.0[u] == s.threads[u]; }
    }
  }

  /** What a signal does to a thread. */
  predicate Touched(th: Thread, th': Thread) {
    && (th'.pc.Idle? <==> th.pc.Idle?) && th'.obj == th.obj && th'.hasTimeout == th.hasTimeout
    && (th'.verdicts == th.verdicts || (th.verdicts == [] && th'.verdicts == [Success]))
    && ((WaitProtocol.Holding(th.pc) && th.unwaited ==> th.dequeued) ==> (WaitProtocol.Holding(th'.pc) && th'.unwaited ==> th'.dequeued))
  }

  lemma TouchedOk(th: Thread)
    ensures Touched(th, th) && Touched(th, th.(dequeued := true))
    ensures !th.pc.Idle? && th.verdicts == [] ==> Touched(th, Unwait(th.(dequeued := true), Success))
  {
  }

  lemma InQueue(s: State, o: nat, u: nat)
    requires Inv(s) && o in s.objects && u in s.objects[o].queue
    ensures u in s.threads && !s.threads[u].pc.Idle? && !s.threads[u].dequeued && s.threads[u].obj == o
    ensures !s.threads[u].unwaited <==> s.threads[u].verdicts == []
    ensures WaitProtocol.Holding(s.threads[u].pc)
  {
    assert QueueOk(s.threads, o, s.objects[o].queue);
  }

  /** The uses after a step in which only thread `t` and its use change. */
  lemma UsesOk(m: MState, m': MState, t: nat)
    requires MInv(m) && m'.ev == m.ev && m'.use.Keys == m.use.Keys && m'.w.threads.Keys == m.w.threads.Keys && UseOk(m', t)
    requires forall u :: u in m.use && u != t ==> m'.use[u] == m.use[u] && (m'.owner == By(u) <==> m.owner == By(u))
    requires forall u :: u in m.use && u != t ==>
      (m'.w.threads[u].pc.Idle? <==> m.w.threads[u].pc.Idle?) && m'.w.threads[u].obj == m.w.threads[u].obj
    ensures forall u :: u in m'.use ==> UseOk(m', u)
  {
    hide Inv;
    forall u | u in m'.use ensures UseOk(m', u) { assert UseOk(m, u); }
  }

  /** Every step keeps the invariant. */
  lemma MNextInv(m: MState, step: MStep)
    requires MInv(m) && MEnabled(m, step)
    ensures MInv(MNext(m, step))
  {
    hide Inv, Next, Enabled;
    match step
    case Call(t) => assert UseOk(m, t); UsesOk(m, MNext(m, step), t);
    case Try(t, timeout, poll) => TryInv(m, t, timeout, poll);
    case Turn(t) => TurnInv(m, t);
    case Quit(t) => assert UseOk(m, t); UsesOk(m, MNext(m, step), t);
    case Wait(st) => WaitInv(m, st);
    case Release(t) => assert UseOk(m, t); UsesOk(m, MNext(m, step), t);
    case Ring(t) => RingInv(m, t);
  }

  lemma TryInv(m: MState, t: nat, timeout: bool, poll: bool)
    requires MInv(m) && MEnabled(m, Try(t, timeout, poll))
    ensures MInv(MNext(m, Try(t, timeout, poll)))
  {
    hide Inv, Next, Enabled;
    assert UseOk(m, t);
    if m.owner == Nobody || m.use[t].tries + 1 < LOCK_TRY_COUNT || poll {
      UsesOk(m, MNext(m, Try(t, timeout, poll)), t);
    } else {
      SleepInv(m, t, timeout);
    }
  }

  lemma SleepInv(m: MState, t: nat, timeout: bool)
    requires MInv(m) && MEnabled(m, Try(t, timeout, false)) && m.owner.By? && m.use[t].tries + 1 == LOCK_TRY_COUNT
    ensures MInv(MNext(m, Try(t, timeout, false)))
  {
    hide Inv, Next, Enabled;
    assert UseOk(m, t);
    StartFrame(m.w, t, m.ev, timeout);
    UsesOk(m, MNext(m, Try(t, timeout, false)), t);
  }

  lemma TurnInv(m: MState, t: nat)
    requires MInv(m) && MEnabled(m, Turn(t))
    ensures MInv(MNext(m, Turn(t)))
  {
    hide Inv, Next;
    assert UseOk(m, t);
    if m.w.objects[m.ev].count > 0 {
      NextInv(m.w, Poll(m.ev));
      PollFrame(m.w, m.ev);
      UsesOk(m, MNext(m, Turn(t)), t);
    }
  }

  lemma PollFrame(s: State, o: nat)
    requires Inv(s) && o in s.objects && s.objects[o].count > 0 && s.objects[o].sync
    ensures var s' := Next(s, Poll(o));
      s'.threads == s.threads && s'.objects.Keys == s.objects.Keys && s'.objects[o].sync && s'.objects[o].count == s.objects[o].count - 1
  {
    hide Inv;
  }

  lemma WaitInv(m: MState, st: Step)
    requires MInv(m) && MEnabled(m, Wait(st))
    ensures MInv(MNext(m, Wait(st)))
  {
    hide Inv, Next, Enabled;
    NextInv(m.w, st);
    WaitFrame(m.w, st);
    assert UseOk(m, st.t);
    UsesOk(m, MNext(m, Wait(st)), st.t);
  }

  lemma RingInv(m: MState, t: nat)
    requires MInv(m) && MEnabled(m, Ring(t))
    ensures MInv(MNext(m, Ring(t)))
  {
    hide Inv, Next, Enabled;
    AlarmEnabled(m.w, m.ev);
    NextInv(m.w, Alarm(m.ev, false));
    AlarmFrame(m.w, m.ev);
    assert UseOk(m, t);
    UsesOk(m, MNext(m, Ring(t)), t);
  }

  lemma AlarmEnabled(s: State, o: nat)
    requires o in s.objects
    ensures Enabled(s, Alarm(o, false))
  {
  }

  lemma StartFrame(s: State, t: nat, o: nat, timeout: bool)
    requires Inv(s) && t in s.threads && o in s.objects && s.threads[t].pc.Idle?
    ensures Enabled(s, Start(t, o, timeout))
    ensures var s' := Next(s, Start(t, o, timeout));
      && Inv(s') && s'.threads.Keys == s.threads.Keys && s'.objects == s.objects
      && (forall u :: u in s.threads && u != t ==> s'.threads[u] == s.threads[u])
      && s'.threads[t].pc.Setup? && s'.threads[t].obj == o && s'.threads[t].hasTimeout == timeout && s'.threads[t].verdicts == []
  {
    NextInv(s, Start(t, o, timeout));
  }

  // No lost wakeup -----------------------------------------------------------------

  /** Every step but the alarm keeps it, timeouts or not. */
  lemma NoLostStep(m: MState, step: MStep)
    requires MInv(m) && MEnabled(m, step) && NoLostWakeup(m) && !step.Ring?
    ensures NoLostWakeup(MNext(m, step))
  {
    hide MInv, NoLostWakeup, MNext;
    match step
    case Call(_) => OwnKeeps(m, step);
    case Try(_, _, _) => OwnKeeps(m, step);
    case Release(_) => OwnKeeps(m, step);
    case Turn(t) => TurnKeeps(m, t);
    case Quit(t) => QuitKeeps(m, t);
    case Wait(st) => WaitKeeps(m, st);
  }

  lemma OwnKeeps(m: MState, step: MStep)
    requires MInv(m) && MEnabled(m, step) && NoLostWakeup(m) && (step.Call? || step.Try? || step.Release?)
    ensures NoLostWakeup(MNext(m, step))
  {
    hide Inv, Next, Enabled;
    assert step.Call? || step.Release? ==> Helper(MNext(m, step), step.t) by { assert UseOk(m, step.t); }
  }

  lemma TurnKeeps(m: MState, t: nat)
    requires MInv(m) && MEnabled(m, Turn(t)) && NoLostWakeup(m)
    ensures NoLostWakeup(MNext(m, Turn(t)))
  {
    hide Inv, Next, Enabled;
    if m.w.objects[m.ev].count > 0 {
      PollFrame(m.w, m.ev);
      assert Helper(MNext(m, Turn(t)), t) by { assert UseOk(m, t); }
    }
  }

  lemma WaitKeeps(m: MState, st: Step)
    requires MInv(m) && MEnabled(m, Wait(st)) && NoLostWakeup(m)
    ensures NoLostWakeup(MNext(m, Wait(st)))
  {
    hide Inv, Next, Enabled;
    var m' := MNext(m, Wait(st));
    WaitFrame(m.w, st);
    WaitVerdicts(m.w, st);
    assert UseOk(m, st.t);
    if x :| Pending(m', x) {
      assert Pending(m, x);
      if u :| Helper(m, u) {
        assert Helper(m', u);
      } else {
        assert m'.w.objects[m.ev].count < m.w.objects[m.ev].count ==> Helper(m', st.t);
      }
    }
  }

  lemma QuitKeeps(m: MState, t: nat)
    requires MInv(m) && MEnabled(m, Quit(t)) && NoLostWakeup(m)
    ensures NoLostWakeup(MNext(m, Quit(t)))
  {
    hide Inv;
    var m' := MNext(m, Quit(t));
    if x :| Pending(m', x) {
      assert Pending(m, x);
      if u :| Helper(m, u) { assert Helper(m', u); }
    }
  }

  /** The alarm strands the waiters: the event is unsignaled, its list holds only
      threads that timed out, and while somebody waits nobody else is on its way. */
  ghost predicate Strands(m: MState, t: nat) {
    && m.owner == Nobody && m.ev in m.w.objects && m.w.objects[m.ev].count == 0 && m.w.objects[m.ev].queue != []
    && (forall x :: x in m.w.objects[m.ev].queue ==> x in m.w.threads && m.w.threads[x].unwaited)
    && (exists x :: Pending(m, x)) && !exists u :: u != t && Helper(m, u)
  }

  /** With timeouts a wakeup can be lost, at the alarm and in exactly one case. */
  lemma RingExact(m: MState, t: nat)
    requires MInv(m) && MEnabled(m, Ring(t))
    ensures NoLostWakeup(MNext(m, Ring(t))) <==> !Strands(m, t)
  {
    hide MInv, Inv, Next, Enabled, MNext, MEnabled, Pending, Helper;
    var m' := MNext(m, Ring(t));
    RingKeeps(m, t);
    RingSignals(m, t);
    if Strands(m, t) {
      var x :| Pending(m, x);
      assert Pending(m', x);
      forall u ensures !Helper(m', u) { assert u != t && Helper(m', u) ==> Helper(m, u); }
    } else if x :| m.owner == Nobody && m'.w.objects[m.ev].count == 0 && Pending(m', x) {
      assert Pending(m, x);
      if u :| u != t && Helper(m, u) { assert Helper(m', u); }
    }
  }

  /** A thread that waits after the alarm did before; a helper remains one; if the
      list held only stale threads, nothing changes. */
  lemma RingKeeps(m: MState, t: nat)
    requires MInv(m) && MEnabled(m, Ring(t))
    ensures var m' := MNext(m, Ring(t));
      && m'.owner == m.owner && m'.ev == m.ev
      && (forall u :: u != t && Helper(m, u) ==> Helper(m', u)) && !Helper(m', t)
      && (forall x :: Pending(m', x) ==> Pending(m, x))
      && (Strands(m, t) ==>
            && m'.w.objects[m.ev].count == 0 && (forall x :: Pending(m, x) ==> Pending(m', x))
            && forall u :: Helper(m', u) ==> Helper(m, u))
  {
    hide MInv, Strands, MNext, MEnabled, Pending, Helper;
    RingOthers(m, t);
    if Strands(m, t) { RingStranded(m, t); }
  }

  lemma RingOthers(m: MState, t: nat)
    requires MInv(m) && MEnabled(m, Ring(t))
    ensures var m' := MNext(m, Ring(t));
      && m'.owner == m.owner && m'.ev == m.ev
      && (forall u :: u != t && Helper(m, u) ==> Helper(m', u)) && !Helper(m', t)
      && (forall x :: Pending(m', x) ==> Pending(m, x))
  {
    hide Inv, Next, QueueOk, Enabled;
    AlarmEnabled(m.w, m.ev);
    AlarmFrame(m.w, m.ev);
    AlarmWakes(m.w, m.ev);
    assert UseOk(m, t);
  }

  lemma RingStranded(m: MState, t: nat)
    requires MInv(m) && MEnabled(m, Ring(t)) && Strands(m, t)
    ensures var m' := MNext(m, Ring(t));
      && m.ev in m'.w.objects && m'.w.objects[m.ev].count == 0 && (forall x :: Pending(m, x) ==> Pending(m', x))
      && forall u :: Helper(m', u) ==> Helper(m, u)
  {
    hide Inv, Next, QueueOk, Enabled;
    AlarmEnabled(m.w, m.ev);
    AlarmFrame(m.w, m.ev);
    AlarmWakes(m.w, m.ev);
    assert UseOk(m, t);
  }

  /** The alarm leaves the event signaled or wakes a thread, unless the list holds
      only stale threads. */
  lemma RingSignals(m: MState, t: nat)
    requires MInv(m) && MEnabled(m, Ring(t))
    ensures var m', ob := MNext(m, Ring(t)), m.w.objects[m.ev];
      && m.ev in m.w.objects && m.ev in m'.w.objects
      && (m'.w.objects[m.ev].count > 0
          || (exists u :: Helper(m', u))
          || (ob.count == 0 && ob.queue != [] && forall x :: x in ob.queue ==> x in m.w.threads && m.w.threads[x].unwaited))
  {
    hide Inv, Next, QueueOk, Enabled;
    AlarmEnabled(m.w, m.ev);
    var q := m.w.objects[m.ev].queue;
    AlarmFrame(m.w, m.ev);
    AlarmWakes(m.w, m.ev);
    if m.w.objects[m.ev].count == 0 && (exists x :: x in q && !m.w.threads[x].unwaited) {
      var i := FirstPending(m.w, q);
      assert UseOk(m, q[i]);
      assert Helper(MNext(m, Ring(t)), q[i]);
    }
  }

  ghost predicate IsFirst(ts: Threads, q: seq<nat>, i: int) {
    && (forall x :: x in q ==> x in ts)
    && 0 <= i < |q| && !ts[q[i]].unwaited && forall j :: 0 <= j < i ==> ts[q[j]].unwaited
  }

  /** The first thread on a list that is not resolved yet. */
  lemma {:induction false} FirstPending(s: State, q: seq<nat>) returns (i: nat)
    requires exists x :: x in q && x in s.threads && !s.threads[x].unwaited
    requires forall x :: x in q ==> x in s.threads
    ensures IsFirst(s.threads, q, i)
  {
    if !s.threads[q[0]].unwaited {
      i := 0;
    } else {
      assert q == [q[0]] + q[1..];
      i := FirstPending(s, q[1..]);
      i := i + 1;
    }
  }

  lemma AlarmWakes(s: State, o: nat)
    requires Inv(s) && o in s.objects && s.objects[o].sync
    ensures var ob, s' := s.objects[o], Next(s, Alarm(o, false));
      && (ob.count != 0 || ob.queue == [] ==> s'.objects[o].count > 0)
      && (ob.count == 0 && ob.queue != [] && (forall x :: x in ob.queue ==> x in s.threads && s.threads[x].unwaited) ==>
            s'.objects[o].count == 0 && forall u :: u in s.threads ==> s'.threads[u].verdicts == s.threads[u].verdicts)
      && (forall x :: x in ob.queue ==> x in s.threads && !s.threads[x].pc.Idle?)
      && (forall i :: ob.count == 0 && IsFirst(s.threads, ob.queue, i) ==> s'.threads[ob.queue[i]].verdicts == [Success])
  {
    hide QueueOk, ThreadOk, Unwait;
    QueueDistinct(s, o);
    var ob := s.objects[o];
    SignalIs(s.threads, ob.queue, false);
    forall x | x in ob.queue ensures !s.threads[x].pc.Idle? { InQueue(s, o, x); }
    forall i | ob.count == 0 && IsFirst(s.threads, ob.queue, i)
      ensures Next(s, Alarm(o, false)).threads[ob.queue[i]].verdicts == [Success]
    {
      FirstWoken(s.threads, ob.queue, i);
      InQueue(s, o, ob.queue[i]);
      UnwaitVerdict(s.threads[ob.queue[i]]);
    }
    if forall x :: x in ob.queue ==> s.threads[x].unwaited {
      AllStale(s.threads, ob.queue, false);
    }
  }

  lemma UnwaitVerdict(th: Thread)
    ensures Unwait(th.(dequeued := true), Success).verdicts == th.verdicts + [Success]
  {
  }

  /** Infinite waits stay infinite, and then no alarm strands anybody. */
  lemma UntimedStep(m: MState, step: MStep)
    requires MInv(m) && Untimed(m) && MEnabled(m, step) && !(step.Try? && step.timeout && !step.poll)
    ensures Untimed(MNext(m, step))
    ensures step.Ring? ==> !Strands(m, step.t)
  {
    hide Inv, Next, Enabled, MEnabled, MInv, Strands;
    match step
    case Call(t) =>
    case Try(t, timeout, poll) => UntimedTry(m, t, timeout, poll);
    case Turn(t) => UntimedTurn(m, t);
    case Quit(t) =>
    case Wait(st) => UntimedWait(m, st);
    case Release(t) =>
    case Ring(t) => UntimedRing(m, t);
  }

  lemma UntimedTry(m: MState, t: nat, timeout: bool, poll: bool)
    requires MInv(m) && Untimed(m) && MEnabled(m, Try(t, timeout, poll)) && (timeout ==> poll)
    ensures Untimed(MNext(m, Try(t, timeout, poll)))
  {
    hide Inv, Next, Enabled;
    assert UseOk(m, t);
    StartFrame(m.w, t, m.ev, timeout);
  }

  lemma UntimedTurn(m: MState, t: nat)
    requires MInv(m) && Untimed(m) && MEnabled(m, Turn(t))
    ensures Untimed(MNext(m, Turn(t)))
  {
    hide Inv, Next;
    if m.w.objects[m.ev].count > 0 { PollFrame(m.w, m.ev); }
  }

  lemma UntimedWait(m: MState, st: Step)
    requires MInv(m) && Untimed(m) && MEnabled(m, Wait(st))
    ensures Untimed(MNext(m, Wait(st)))
  {
    hide Inv, Next, Enabled;
    WaitFrame(m.w, st);
    WaitVerdicts(m.w, st);
    assert UseOk(m, st.t);
  }

  lemma UntimedRing(m: MState, t: nat)
    requires MInv(m) && Untimed(m) && MEnabled(m, Ring(t))
    ensures Untimed(MNext(m, Ring(t))) && !Strands(m, t)
  {
    hide Inv, Next, Enabled;
    AlarmEnabled(m.w, m.ev);
    AlarmFrame(m.w, m.ev);
    forall u ensures u in m.use ==> UseOk(m, u) {}
    if m.w.objects[m.ev].queue != [] {
      var x := m.w.objects[m.ev].queue[0];
      InQueue(m.w, m.ev, x);
      assert UseOk(m, x) && !m.w.threads[x].unwaited;
    }
  }

  // Whole runs ---------------------------------------------------------------------

  ghost predicate MInitial(m: MState) {
    && Initial(m.w) && m.ev in m.w.objects && m.w.objects[m.ev].sync && m.w.objects[m.ev].count == 0
    && m.owner == Nobody && m.use.Keys == m.w.threads.Keys && forall t :: t in m.use ==> m.use[t].Outside?
  }

  ghost predicate MFollows(m: MState, step: MStep, m': MState) {
    MInv(m) ==> MEnabled(m, step) && m' == MNext(m, step)
  }

  ghost predicate IsMRun(run: seq<MState>, steps: seq<MStep>) {
    && |run| == |steps| + 1 && MInitial(run[0])
    && forall i :: 0 <= i < |steps| ==> MFollows(run[i], steps[i], run[i + 1])
  }

  /** When all blocking waits are infinite, no run loses a wakeup; polls may time out. */
  lemma {:induction false} RunKeepsWakeups(run: seq<MState>, steps: seq<MStep>, k: nat)
    requires IsMRun(run, steps) && k < |run|
    requires forall i :: 0 <= i < |steps| ==> !(steps[i].Try? && steps[i].timeout && !steps[i].poll)
    ensures MInv(run[k]) && Untimed(run[k]) && NoLostWakeup(run[k])
  {
    if k == 0 {
      MInitialInv(run[0]);
    } else {
      hide MInv, Untimed, NoLostWakeup, MInitial, MEnabled;
      var i := k - 1;
      RunKeepsWakeups(run, steps, i);
      assert MFollows(run[i], steps[i], run[i + 1]);
      MNextInv(run[i], steps[i]);
      UntimedStep(run[i], steps[i]);
      if steps[i].Ring? {
        RingExact(run[i], steps[i].t);
      } else {
        NoLostStep(run[i], steps[i]);
      }
    }
  }

  lemma MInitialInv(m: MState)
    requires MInitial(m)
    ensures MInv(m) && Untimed(m) && NoLostWakeup(m)
  {
    InitialInv(m.w);
  }

  /** While the mutex is free and a thread sleeps, another one has released it
      but not alarmed yet, or is about to try to take it. */
  lemma SleeperHasHelper(m: MState, t: nat)
    requires MInv(m) && NoLostWakeup(m) && m.owner == Nobody && t in m.use && m.use[t].Sleeping?
    requires t in m.w.threads && m.w.threads[t].waiting
    ensures exists u :: u != t && Helper(m, u)
  {
    assert UseOk(m, t);
    SleeperFound(m.w, t);
    assert Pending(m, t);
    var u :| Helper(m, u);
    assert u != t;
  }

  /** At most one thread holds the mutex, and it is the recorded owner. */
  lemma MutualExclusion(m: MState, t: nat, u: nat)
    requires MInv(m) && t in m.use && u in m.use && m.use[t].Holding? && m.use[u].Holding?
    ensures t == u && m.owner == By(t)
  {
    assert UseOk(m, t) && UseOk(m, u);
  }

  class Mutex {
    const kernel: Kernel
    const ev: nat
    var owner: Owner
    var use: map<nat, Use>

    ghost function M(): MState
      reads this, kernel
    {
      MState(kernel.St(), owner, use, ev)
    }

    /** `kmutex_init`. */
    constructor (kernel: Kernel, ev: nat, use: map<nat, Use>)
      requires MInitial(MState(kernel.St(), Nobody, use, ev))
      ensures this.kernel == kernel && M() == MState(kernel.St(), Nobody, use, ev) && MInv(M())
    {
      this.kernel, this.ev, this.use, owner := kernel, ev, use, Nobody;
      new;
      MInitialInv(M());
    }

    /** Entering `kmutex_acquire_common`; it asserts that the caller is not the owner. */
    method Acquire(t: nat)
      requires MInv(M()) && MEnabled(M(), Call(t))
      modifies this`use
      ensures M() == MNext(old(M()), Call(t)) && MInv(M()) && owner != By(t)
    {
      hide MInv;
      MNextInv(M(), Call(t));
      OutsideNotOwner(M(), t);
      use := use[t := Trying(0)];
    }

    /** One turn of the inner loop: compare and swap; after the last, wait. */
    method TryOnce(t: nat, timeout: bool, poll: bool)
      requires MInv(M()) && MEnabled(M(), Try(t, timeout, poll)) && Inv(kernel.St())
      modifies this`owner, this`use, kernel
      ensures M() == MNext(old(M()), Try(t, timeout, poll)) && MInv(M())
    {
      hide MInv, Inv, Next;
      MNextInv(M(), Try(t, timeout, poll));
      if owner == Nobody {
        owner := By(t);
        use := use[t := Use.Holding];
        return;
      }
      var tries := use[t].tries + 1;
      if tries < LOCK_TRY_COUNT {
        use := use[t := Trying(tries)];
      } else if poll {
        use := use[t := Polling];
      } else {
        TryingIdle(M(), t);
        kernel.BeginWait(t, ev, timeout);
        use := use[t := Sleeping];
      }
    }

    /** One turn of `poll_single`; a signal leads back to the lock. */
    method PollTurn(t: nat)
      requires MInv(M()) && MEnabled(M(), Turn(t)) && Inv(kernel.St()) && ev in kernel.objects
      modifies this`use, kernel
      ensures M() == MNext(old(M()), Turn(t)) && MInv(M())
    {
      hide MInv, Inv, Next;
      MNextInv(M(), Turn(t));
      Unsignaled(M());
      var acquired := kernel.PollOnce(ev);
      if acquired { use := use[t := Trying(0)]; }
    }

    /** `poll_single` gives up. */
    method PollQuit(t: nat)
      requires MInv(M()) && MEnabled(M(), Quit(t))
      modifies this`use
      ensures M() == MNext(old(M()), Quit(t)) && MInv(M())
    {
      hide MInv;
      MNextInv(M(), Quit(t));
      use := use[t := Outside];
    }

    /** A section of the wait, by the thread itself or its timer; a finished wait
        leads back to the lock, or out with the error. */
    method WaitSection(st: Step)
      requires MInv(M()) && MEnabled(M(), Wait(st))
      modifies this`use, kernel
      ensures M() == MNext(old(M()), Wait(st)) && MInv(M())
    {
      hide Next, UseOk, ThreadOk, QueueOk, TokensOk;
      MNextInv(M(), Wait(st));
      WaitFrame(kernel.St(), st);
      NotIdleObject(kernel.St(), st.t);
      match st {
        case Enter(t) => kernel.EnterWait(t);
        case Check(t) => kernel.CheckObject(t);
        case Arm(t) => kernel.SetTimeout(t);
        case Commit(t) => kernel.CommitWait(t);
        case Clean(t) => kernel.CleanUp(t);
        case Fire(t) => kernel.TimerFires(t);
      }
      use := use[st.t := AfterWait(kernel.threads[st.t])];
    }

    /** The compare-and-swap of `kmutex_release`, which cannot fail. */
    method Release(t: nat)
      requires MInv(M()) && MEnabled(M(), MStep.Release(t))
      modifies this`owner, this`use
      ensures old(owner) == By(t)
      ensures M() == MNext(old(M()), MStep.Release(t)) && MInv(M())
    {
      hide MInv;
      MNextInv(M(), MStep.Release(t));
      HolderIsOwner(M(), t);
      owner := Nobody;
      use := use[t := Alarming];
    }

    /** The alarm of `kmutex_release`. */
    method Ring(t: nat)
      requires MInv(M()) && MEnabled(M(), MStep.Ring(t)) && Inv(kernel.St()) && ev in kernel.objects
      modifies this`use, kernel
      ensures M() == MNext(old(M()), MStep.Ring(t)) && MInv(M())
    {
      hide MInv, Inv, Next;
      MNextInv(M(), MStep.Ring(t));
      kernel.EventAlarm(ev, false);
      use := use[t := Outside];
    }
  }

  /** A turn that finds no signal changes nothing. */
  lemma Unsignaled(m: MState)
    requires MInv(m)
    ensures m.w.objects[m.ev].count <= 0 ==> Next(m.w, Poll(m.ev)) == m.w
  {
    hide Inv;
  }

  lemma OutsideNotOwner(m: MState, t: nat)
    requires MInv(m) && t in m.use && m.use[t].Outside?
    ensures m.owner != By(t)
  {
    assert UseOk(m, t);
  }

  lemma TryingIdle(m: MState, t: nat)
    requires MInv(m) && t in m.use && m.use[t].Trying?
    ensures t in m.w.threads && m.w.threads[t].pc.Idle? && m.ev in m.w.objects
  {
    assert UseOk(m, t);
  }

  lemma HolderIsOwner(m: MState, t: nat)
    requires MInv(m) && t in m.use && m.use[t].Holding?
    ensures m.owner == By(t)
  {
    assert UseOk(m, t);
  }

  lemma NotIdleObject(s: State, t: nat)
    requires Inv(s) && t in s.threads && !s.threads[t].pc.Idle?
    ensures s.threads[t].obj in s.objects
  {
  }
}
