/** A run of the sleeping mutex, from its first state, that loses a wakeup: the
    alarm goes to a thread that has already timed out, and the one that waits
    without a timeout sleeps for ever although the mutex is free. */
module MutexStranding {
  import opened WaitProtocol
  import opened MutexProtocol

  const IDLE := Thread(Idle, Unset, false, Success, 0, false, false, false, false, false, false, Unused, Nothing, [])

  /** Three threads and the event of the mutex. */
  function Snap(t1: Thread, t2: Thread, queue: seq<nat>, owner: Owner, u0: Use, u1: Use, u2: Use): MState {
    MState(State(map[0 := IDLE, 1 := t1, 2 := t2], map[0 := Object(true, 0, queue)]), owner, map[0 := u0, 1 := u1, 2 := u2], 0)
  }

  function Setting(timeout: bool): Thread {
    IDLE.(pc := Setup, obj := 0, hasTimeout := timeout)
  }

  /** Thread 1 blocked with a timeout; thread 2 without. */
  function Waits(timeout: bool): Thread {
    Committing(Arming(Entering(Setting(timeout)).(pc := Linked)))
  }

  /** The timeout of thread 1 has expired; its wait block is still on the list. */
  function Late(): Thread {
    Firing(Waits(true))
  }

  /** Thread 1 has returned from `sched_wait` with the timeout. */
  function Gone(): Thread {
    Cleaned(Cleaned(Cleaned(Late().(dequeued := true))))
  }

  ghost function Last(run: seq<MState>): MState
    requires run != []
  {
    run[|run| - 1]
  }

  ghost predicate Reached(run: seq<MState>, steps: seq<MStep>, m: MState) {
    IsMRun(run, steps) && run != [] && Last(run) == m && MInv(m)
  }

  /** One more step. */
  lemma Go(run: seq<MState>, steps: seq<MStep>, m: MState, step: MStep, m': MState) returns (run': seq<MState>, steps': seq<MStep>)
    requires Reached(run, steps, m) && MEnabled(m, step) && m' == MNext(m, step)
    ensures Reached(run', steps', m') && run' == run + [m'] && steps' == steps + [step]
  {
    hide MInv, MEnabled, MNext, MInitial;
    run', steps' := run + [m'], steps + [step];
    MNextInv(m, step);
    forall i | 0 <= i < |steps'| ensures MFollows(run'[i], steps'[i], run'[i + 1]) {
      assert i < |steps| ==> MFollows(run[i], steps[i], run[i + 1]);
    }
  }

  function Trials(m: MState, t: nat, k: nat): MState {
    m.(use := m.use[t := Trying(k)])
  }

  lemma NoTrial(m: MState, t: nat)
    requires t in m.use && m.use[t] == Trying(0)
    ensures Trials(m, t, 0) == m
  {
    assert m.use[t := Trying(0)] == m.use;
  }

  lemma OneTrial(m: MState, t: nat, timeout: bool, k: nat)
    requires MInv(Trials(m, t, k)) && m.owner.By? && t in m.use && k + 1 < LOCK_TRY_COUNT
    ensures MEnabled(Trials(m, t, k), Try(t, timeout, false))
    ensures MNext(Trials(m, t, k), Try(t, timeout, false)) == Trials(m, t, k + 1)
  {
    hide MInv;
    assert Trials(m, t, k).use[t := Trying(k + 1)] == Trials(m, t, k + 1).use;
  }

  lemma ReachedInv(run: seq<MState>, steps: seq<MStep>, m: MState)
    requires Reached(run, steps, m)
    ensures MInv(m)
  {
    hide MInv;
  }

  /** Failed attempts at the lock, any number below the limit. */
  lemma {:induction false} Spin(run: seq<MState>, steps: seq<MStep>, m: MState, t: nat, timeout: bool, k: nat)
    returns (run': seq<MState>, steps': seq<MStep>)
    requires Reached(run, steps, m) && m.owner.By? && t in m.use && m.use[t] == Trying(0) && k < LOCK_TRY_COUNT
    ensures Reached(run', steps', Trials(m, t, k)) && |steps'| == |steps| + k
    ensures steps <= steps' && run <= run'
  {
    hide Reached, MInv, MNext, MEnabled, Trials;
    if k == 0 {
      NoTrial(m, t);
      run', steps' := run, steps;
    } else {
      run', steps' := Spin(run, steps, m, t, timeout, k - 1);
      ReachedInv(run', steps', Trials(m, t, k - 1));
      OneTrial(m, t, timeout, k - 1);
      run', steps' := Go(run', steps', Trials(m, t, k - 1), Try(t, timeout, false), Trials(m, t, k));
    }
  }

  /** Thread `t` and its use change. */
  function Put(m: MState, t: nat, th: Thread, u: Use): MState {
    m.(w := With(m.w, t, th), use := m.use[t := u])
  }

  lemma Sets<T>(a: T, b: T, c: T, d: T)
    ensures map[0 := a, 1 := b, 2 := c][0 := d] == map[0 := d, 1 := b, 2 := c]
    ensures map[0 := a, 1 := b, 2 := c][1 := d] == map[0 := a, 1 := d, 2 := c]
    ensures map[0 := a, 1 := b, 2 := c][2 := d] == map[0 := a, 1 := b, 2 := d]
  {
  }

  lemma SnapPut(t1: Thread, t2: Thread, q: seq<nat>, o: Owner, u0: Use, u1: Use, u2: Use, th: Thread, u: Use)
    ensures Put(Snap(t1, t2, q, o, u0, u1, u2), 1, th, u) == Snap(th, t2, q, o, u0, u, u2)
    ensures Put(Snap(t1, t2, q, o, u0, u1, u2), 2, th, u) == Snap(t1, th, q, o, u0, u1, u)
  {
    Sets(IDLE, t1, t2, th);
    Sets(u0, u1, u2, u);
  }

  /** A section that changes only the thread itself. */
  lemma Own(m: MState, st: Step, th: Thread)
    requires MInv(m) && MEnabled(m, Wait(st)) && st.t in m.w.threads
    requires var was := m.w.threads[st.t];
      && (st.Enter? || st.Arm? || st.Commit? || st.Fire? || (st.Clean? && was.dequeued))
      && th == if st.Enter? then Entering(was) else if st.Arm? then Arming(was) else if st.Commit? then Committing(was)
               else if st.Fire? then Firing(was) else Cleaned(was)
    ensures MNext(m, Wait(st)) == Put(m, st.t, th, AfterWait(th))
  {
    if st.Clean? && (m.w.threads[st.t].pc.AbortBlock? || m.w.threads[st.t].pc.WokenBlock?) {
      var o := m.w.threads[st.t].obj;
      assert m.w.objects[o := m.w.objects[o]] == m.w.objects;
    }
  }

  /** `MNext` for a thread that finds the event unsignaled. */
  lemma Checks(m: MState, t: nat, th: Thread)
    requires MInv(m) && MEnabled(m, Wait(Check(t))) && m.w.objects.Keys == {0} && m.w.threads[t].obj == 0 && m.w.objects[0].count == 0
    requires th == m.w.threads[t].(pc := Linked)
    ensures MNext(m, Wait(Check(t))) ==
      Put(m.(w := m.w.(objects := m.w.objects[0 := m.w.objects[0].(queue := m.w.objects[0].queue + [t])])), t, th, Sleeping)
  {
  }

  /** The owner's first steps. */
  lemma Opening() returns (run: seq<MState>, steps: seq<MStep>)
    ensures Reached(run, steps, Snap(IDLE, IDLE, [], By(0), Use.Holding, Outside, Outside))
  {
    hide MInv;
    var m0 := Snap(IDLE, IDLE, [], Owner.Nobody, Outside, Outside, Outside);
    var m1 := Snap(IDLE, IDLE, [], Owner.Nobody, Trying(0), Outside, Outside);
    assert m0.w.threads.Keys == {0, 1, 2} && m0.use.Keys == {0, 1, 2};
    MInitialInv(m0);
    run, steps := [m0], [];
    Sets(Outside, Outside, Outside, Trying(0));
    run, steps := Go(run, steps, m0, Call(0), m1);
    Sets(Trying(0), Outside, Outside, Use.Holding);
    run, steps := Go(run, steps, m1, Try(0, false, false), Snap(IDLE, IDLE, [], By(0), Use.Holding, Outside, Outside));
  }

  /** A thread fails fifty times to take the lock, and waits. */
  lemma Sleeps(run: seq<MState>, steps: seq<MStep>, m: MState, t: nat, timeout: bool) returns (run': seq<MState>, steps': seq<MStep>)
    requires Reached(run, steps, m) && m.owner.By? && m.ev == 0 && t in m.use && m.use[t].Outside? && t in m.w.threads && m.w.threads[t] == IDLE
    ensures Reached(run', steps', Put(m, t, Setting(timeout), Sleeping))
    ensures steps <= steps' && run <= run'
  {
    hide Inv;
    var m1, last := Trials(m, t, 0), (LOCK_TRY_COUNT - 1) as nat;
    run', steps' := Go(run, steps, m, Call(t), m1);
    assert Trials(m1, t, last) == Trials(m, t, last);
    run', steps' := Spin(run', steps', m1, t, timeout, last);
    var m2 := Trials(m, t, last);
    assert m2.use[t := Sleeping] == m.use[t := Sleeping];
    assert UseOk(m2, t);
    StartFrame(m2.w, t, 0, timeout);
    run', steps' := Go(run', steps', m2, Try(t, timeout, false), Put(m, t, Setting(timeout), Sleeping));
  }

  /** Thread 1 waits with a timeout, and the timeout expires. */
  lemma FirstTimesOut() returns (run: seq<MState>, steps: seq<MStep>)
    ensures Reached(run, steps, Snap(Late(), IDLE, [1], By(0), Use.Holding, Sleeping, Outside))
  {
    hide MInv, MNext;
    run, steps := Opening();
    var a := Snap(IDLE, IDLE, [], By(0), Use.Holding, Outside, Outside);
    run, steps := Sleeps(run, steps, a, 1, true);
    SnapPut(IDLE, IDLE, [], By(0), Use.Holding, Outside, Outside, Setting(true), Sleeping);
    run, steps := Enters(run, steps, Setting(true), IDLE, [], Outside);
    assert [] + [1] == [1];
    run, steps := Arms(run, steps, Entering(Setting(true)).(pc := Linked), IDLE, [1], Outside);
  }

  /** Thread 1 enters the wait and finds the event unsignaled. */
  lemma Enters(run: seq<MState>, steps: seq<MStep>, t1: Thread, t2: Thread, q: seq<nat>, u2: Use)
    returns (run': seq<MState>, steps': seq<MStep>)
    requires Reached(run, steps, Snap(t1, t2, q, By(0), Use.Holding, Sleeping, u2)) && t1.pc.Setup? && t1.obj == 0
    ensures Reached(run', steps', Snap(Entering(t1).(pc := Linked), t2, q + [1], By(0), Use.Holding, Sleeping, u2))
  {
    hide MInv, MNext;
    var m := Snap(t1, t2, q, By(0), Use.Holding, Sleeping, u2);
    var m1 := Snap(Entering(t1), t2, q, By(0), Use.Holding, Sleeping, u2);
    Own(m, Enter(1), Entering(t1));
    SnapPut(t1, t2, q, By(0), Use.Holding, Sleeping, u2, Entering(t1), Sleeping);
    run', steps' := Go(run, steps, m, Wait(Enter(1)), m1);
    var th := Entering(t1).(pc := Linked);
    Checks(m1, 1, th);
    var m2 := Snap(Entering(t1), t2, q + [1], By(0), Use.Holding, Sleeping, u2);
    assert m1.w.objects[0 := m1.w.objects[0].(queue := q + [1])] == m2.w.objects;
    SnapPut(Entering(t1), t2, q + [1], By(0), Use.Holding, Sleeping, u2, th, Sleeping);
    run', steps' := Go(run', steps', m1, Wait(Check(1)), Snap(th, t2, q + [1], By(0), Use.Holding, Sleeping, u2));
  }

  /** It sets its timer, blocks, and is woken by the timer. */
  lemma Arms(run: seq<MState>, steps: seq<MStep>, t1: Thread, t2: Thread, q: seq<nat>, u2: Use)
    returns (run': seq<MState>, steps': seq<MStep>)
    requires Reached(run, steps, Snap(t1, t2, q, By(0), Use.Holding, Sleeping, u2)) && t1.pc.Linked? && t1.hasTimeout && t1.phase.InProgress?
    ensures Reached(run', steps', Snap(Firing(Committing(Arming(t1))), t2, q, By(0), Use.Holding, Sleeping, u2))
  {
    hide MInv, MNext;
    var x, y, z := Arming(t1), Committing(Arming(t1)), Firing(Committing(Arming(t1)));
    Own(Snap(t1, t2, q, By(0), Use.Holding, Sleeping, u2), Arm(1), x);
    SnapPut(t1, t2, q, By(0), Use.Holding, Sleeping, u2, x, Sleeping);
    run', steps' := Go(run, steps, Snap(t1, t2, q, By(0), Use.Holding, Sleeping, u2), Wait(Arm(1)), Snap(x, t2, q, By(0), Use.Holding, Sleeping, u2));
    Own(Snap(x, t2, q, By(0), Use.Holding, Sleeping, u2), Commit(1), y);
    SnapPut(x, t2, q, By(0), Use.Holding, Sleeping, u2, y, Sleeping);
    run', steps' := Go(run', steps', Snap(x, t2, q, By(0), Use.Holding, Sleeping, u2), Wait(Commit(1)), Snap(y, t2, q, By(0), Use.Holding, Sleeping, u2));
    Own(Snap(y, t2, q, By(0), Use.Holding, Sleeping, u2), Fire(1), z);
    SnapPut(y, t2, q, By(0), Use.Holding, Sleeping, u2, z, Sleeping);
    run', steps' := Go(run', steps', Snap(y, t2, q, By(0), Use.Holding, Sleeping, u2), Wait(Fire(1)), Snap(z, t2, q, By(0), Use.Holding, Sleeping, u2));
  }

  /** Thread 2 begins an infinite wait just before the owner releases the mutex. */
  lemma SecondSleeps() returns (run: seq<MState>, steps: seq<MStep>)
    ensures Reached(run, steps, Snap(Late(), Entering(Setting(false)), [1], Owner.Nobody, Alarming, Sleeping, Sleeping))
  {
    hide MInv;
    run, steps := FirstTimesOut();
    var a := Snap(Late(), IDLE, [1], By(0), Use.Holding, Sleeping, Outside);
    run, steps := Sleeps(run, steps, a, 2, false);
    SnapPut(Late(), IDLE, [1], By(0), Use.Holding, Sleeping, Outside, Setting(false), Sleeping);
    var b, th := Snap(Late(), Setting(false), [1], By(0), Use.Holding, Sleeping, Sleeping), Entering(Setting(false));
    Own(b, Enter(2), th);
    SnapPut(Late(), Setting(false), [1], By(0), Use.Holding, Sleeping, Sleeping, th, Sleeping);
    var c := Snap(Late(), th, [1], By(0), Use.Holding, Sleeping, Sleeping);
    run, steps := Go(run, steps, b, Wait(Enter(2)), c);
    Sets(Use.Holding, Sleeping, Sleeping, Alarming);
    run, steps := Go(run, steps, c, Release(0), Snap(Late(), th, [1], Owner.Nobody, Alarming, Sleeping, Sleeping));
  }

  /** When thread 0 alarms the event, its list holds only thread 1. */
  function Released(): MState {
    Snap(Late(), Entering(Setting(false)), [1], Owner.Nobody, Alarming, Sleeping, Sleeping)
  }

  function Alarmed(): MState {
    Snap(Late().(dequeued := true), Entering(Setting(false)), [], Owner.Nobody, Outside, Sleeping, Sleeping)
  }

  /** In the end nobody has the mutex, and thread 2 waits for it. */
  function Hung(): MState {
    Snap(Gone(), Waits(false), [2], Owner.Nobody, Outside, Outside, Sleeping)
  }

  /** A signal that finds one stale block wakes nobody. */
  lemma SignalMissed(ts: Threads, t: nat)
    requires t in ts && ts[t].unwaited
    ensures Signal(ts, [t], false) == (ts[t := ts[t].(dequeued := true)], [], 0)
  {
    var q := [t];
    assert q[1..] == [];
    assert Signal(ts, q, false) == Signal(ts[t := ts[t].(dequeued := true)], [], false);
  }

  lemma AlarmMissed(s: State, o: nat, t: nat)
    requires Inv(s) && o in s.objects && s.objects[o].sync && s.objects[o].count == 0 && s.objects[o].queue == [t]
    requires t in s.threads && s.threads[t].unwaited
    ensures Next(s, Alarm(o, false)) == State(s.threads[t := s.threads[t].(dequeued := true)], s.objects[o := s.objects[o].(queue := [])])
  {
    hide Inv, Signal;
    SignalMissed(s.threads, t);
  }

  lemma RingMissed()
    requires MInv(Released())
    ensures MEnabled(Released(), Ring(0)) && MNext(Released(), Ring(0)) == Alarmed()
  {
    hide Inv, Late, Entering, Setting, Next;
    var m := Released();
    LateIs();
    AlarmMissed(m.w, 0, 1);
    Sets(IDLE, Late(), Entering(Setting(false)), Late().(dequeued := true));
    assert m.w.objects[0 := m.w.objects[0].(queue := [])] == Alarmed().w.objects;
    Sets(Alarming, Sleeping, Sleeping, Outside);
  }

  lemma Stranded()
    ensures Strands(Released(), 0) && NoLostWakeup(Released())
  {
    hide Late;
    LateIs();
    var m := Released();
    assert Pending(m, 2);
    assert Helper(m, 0);
  }

  /** The sections of thread 1 after its timeout. */
  lemma LateIs()
    ensures Late().unwaited && Late().verdicts == [Timeout] && Late().pc.WokenBlock?
    ensures var a := Late().(dequeued := true);
      && AfterWait(a) == AfterWait(Cleaned(a)) == AfterWait(Cleaned(Cleaned(a))) == Sleeping && AfterWait(Gone()) == Outside
      && Cleaned(a).pc.WokenTimeout? && Cleaned(Cleaned(a)).pc.WokenTimer? && Gone().pc.Idle?
      && Cleaned(a).dequeued && Cleaned(Cleaned(a)).dequeued && !Gone().timer.Queued?
  {
  }

  /** Thread 2 blocks, and thread 1 leaves. */
  lemma Blocks(run: seq<MState>, steps: seq<MStep>) returns (run': seq<MState>, steps': seq<MStep>)
    requires Reached(run, steps, Alarmed())
    ensures Reached(run', steps', Snap(Late().(dequeued := true), Waits(false), [2], Owner.Nobody, Outside, Sleeping, Sleeping))
    ensures run <= run' && steps <= steps'
  {
    hide MInv, MNext;
    var t1, e := Late().(dequeued := true), Entering(Setting(false));
    var x, y, z := e.(pc := Linked), Arming(e.(pc := Linked)), Waits(false);
    Checks(Alarmed(), 2, x);
    var m1 := Snap(t1, e, [2], Owner.Nobody, Outside, Sleeping, Sleeping);
    assert [] + [2] == [2];
    assert Alarmed().w.objects[0 := Alarmed().w.objects[0].(queue := [2])] == m1.w.objects;
    SnapPut(t1, e, [2], Owner.Nobody, Outside, Sleeping, Sleeping, x, Sleeping);
    var m2 := Snap(t1, x, [2], Owner.Nobody, Outside, Sleeping, Sleeping);
    run', steps' := Go(run, steps, Alarmed(), Wait(Check(2)), m2);
    Own(m2, Arm(2), y);
    SnapPut(t1, x, [2], Owner.Nobody, Outside, Sleeping, Sleeping, y, Sleeping);
    var m3 := Snap(t1, y, [2], Owner.Nobody, Outside, Sleeping, Sleeping);
    run', steps' := Go(run', steps', m2, Wait(Arm(2)), m3);
    Own(m3, Commit(2), z);
    SnapPut(t1, y, [2], Owner.Nobody, Outside, Sleeping, Sleeping, z, Sleeping);
    run', steps' := Go(run', steps', m3, Wait(Commit(2)), Snap(t1, z, [2], Owner.Nobody, Outside, Sleeping, Sleeping));
  }

  lemma Leaves(run: seq<MState>, steps: seq<MStep>) returns (run': seq<MState>, steps': seq<MStep>)
    requires Reached(run, steps, Snap(Late().(dequeued := true), Waits(false), [2], Owner.Nobody, Outside, Sleeping, Sleeping))
    ensures Reached(run', steps', Hung()) && run <= run' && steps <= steps'
  {
    hide MInv, MNext, Late, Waits, Cleaned;
    LateIs();
    var a, t2 := Late().(dequeued := true), Waits(false);
    var b, c := Cleaned(a), Cleaned(Cleaned(a));
    Own(Snap(a, t2, [2], Owner.Nobody, Outside, Sleeping, Sleeping), Clean(1), b);
    SnapPut(a, t2, [2], Owner.Nobody, Outside, Sleeping, Sleeping, b, Sleeping);
    run', steps' := Go(run, steps, Snap(a, t2, [2], Owner.Nobody, Outside, Sleeping, Sleeping), Wait(Clean(1)),
                       Snap(b, t2, [2], Owner.Nobody, Outside, Sleeping, Sleeping));
    Own(Snap(b, t2, [2], Owner.Nobody, Outside, Sleeping, Sleeping), Clean(1), c);
    SnapPut(b, t2, [2], Owner.Nobody, Outside, Sleeping, Sleeping, c, Sleeping);
    run', steps' := Go(run', steps', Snap(b, t2, [2], Owner.Nobody, Outside, Sleeping, Sleeping), Wait(Clean(1)),
                       Snap(c, t2, [2], Owner.Nobody, Outside, Sleeping, Sleeping));
    Own(Snap(c, t2, [2], Owner.Nobody, Outside, Sleeping, Sleeping), Clean(1), Gone());
    SnapPut(c, t2, [2], Owner.Nobody, Outside, Sleeping, Sleeping, Gone(), Outside);
    run', steps' := Go(run', steps', Snap(c, t2, [2], Owner.Nobody, Outside, Sleeping, Sleeping), Wait(Clean(1)), Hung());
  }

  /** A run from the first state loses a wakeup at its alarm, step `k`, and ends
      with thread 2 asleep. */
  lemma LostWakeup() returns (run: seq<MState>, steps: seq<MStep>, k: nat)
    ensures IsMRun(run, steps) && k < |steps| && steps[k] == Ring(0)
    ensures NoLostWakeup(run[k]) && Strands(run[k], 0) && !NoLostWakeup(run[k + 1])
    ensures run[|run| - 1] == Hung()
  {
    hide MInv, MNext, MEnabled, Strands, NoLostWakeup, MInitial, MFollows;
    run, steps := SecondSleeps();
    k := |steps|;
    RingMissed();
    Stranded();
    RingExact(Released(), 0);
    run, steps := Go(run, steps, Released(), Ring(0), Alarmed());
    run, steps := Blocks(run, steps);
    run, steps := Leaves(run, steps);
  }

  lemma WaitsIs()
    ensures Waits(false).waiting && Waits(false).pc.Blocked? && !Waits(false).hasTimeout && !Waits(false).timer.Queued?
  {
  }

  /** Only a new acquisition can happen then: thread 2 sleeps although the mutex is free. */
  lemma HungIs(step: MStep)
    ensures Hung().owner == Owner.Nobody && Hung().w.threads[2].waiting && !Hung().w.threads[2].hasTimeout
    ensures MEnabled(Hung(), step) <==> step == Call(0) || step == Call(1)
  {
    hide Gone, Waits;
    LateIs();
    WaitsIs();
  }
}
