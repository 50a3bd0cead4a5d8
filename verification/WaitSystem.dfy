/** The critical sections of `wait.c`, `object.c`, `semaphore.c` and `kevent.c`,
    and the timer's, acting on threads and objects in place. */
module WaitSystem {
  import opened Lists
  import opened WaitProtocol

  class Kernel {
    var threads: Threads
    var objects: map<nat, Object>

    ghost function St(): State
      reads this
    {
      State(threads, objects)
    }

    constructor (threads: Threads, objects: map<nat, Object>)
      requires Initial(State(threads, objects))
      ensures Inv(St()) && St() == State(threads, objects)
    {
      this.threads, this.objects := threads, objects;
      InitialInv(State(threads, objects));
    }

    /** `thread_unwait`; its assertion is the precondition. */
    method ThreadUnwait(t: nat, status: Outcome)
      requires t in threads && Unwaitable(threads[t])
      modifies this`threads
      ensures threads == old(threads)[t := Unwait(old(threads[t]), status)]
    {
      var th := threads[t];
      if !th.waiting {
        th := th.(phase := Aborted);
      }
      th := th.(waitStatus := status, verdicts := th.verdicts + [status]);
      th := th.(unwaited := true);
      th := th.(tUnwaited := true);
      if th.waiting {
        th := th.(waiting := false, pc := WokenBlock);
      }
      threads := threads[t := th];
    }

    /** `kobject_signal_locked`. */
    method KobjectSignalLocked(o: nat, all: bool) returns (unblocked: nat)
      requires Inv(St()) && o in objects && forall t :: t in objects[o].queue ==> t in threads
      modifies this
      ensures var r := Signal(old(threads), old(objects[o].queue), all);
              threads == r.0 && unblocked == r.2 && objects == old(objects)[o := old(objects[o]).(queue := r.1)]
    {
      hide Inv, Unwaitable, Unwait, Signal, Signalable, SignalsTo;
      QueuedUnwaitable(St(), o);
      ghost var end := Signal(threads, objects[o].queue, all);
      SignalNext(threads, objects[o].queue, all);
      unblocked := 0;
      while objects[o].queue != []
        invariant objects.Keys == old(objects.Keys)
        invariant objects == old(objects)[o := old(objects[o]).(queue := objects[o].queue)]
        invariant Signalable(threads, objects[o].queue) && SignalsTo(threads, objects[o].queue, all, unblocked, end)
        invariant !all ==> unblocked == 0
        decreases |objects[o].queue|
      {
        var t := objects[o].queue[0];
        ghost var q := objects[o].queue;
        ghost var before := threads;
        SignalableNext(threads, q);
        SignalFirst(threads, q, all, unblocked, end);
        threads := threads[t := threads[t].(dequeued := true)];
        objects := objects[o := objects[o].(queue := objects[o].queue[1..])];
        if threads[t].unwaited {
          continue;
        }
        ThreadUnwait(t, Success);
        assert threads == before[t := Unwait(before[t].(dequeued := true), Success)];
        if !all {
          unblocked := 1;
          return;
        }
        unblocked := unblocked + 1;
      }
      SignalNone(threads, all, unblocked, end);
    }

    /** `semaphore_signal`. */
    method SemaphoreSignal(o: nat)
      requires Inv(St()) && o in objects && objects[o].sync
      modifies this
      ensures St() == Next(old(St()), SemSignal(o)) && Inv(St())
    {
      hide Inv, Signal, ThreadOk;
      NextInv(St(), SemSignal(o));
      QueueDistinct(St(), o);
      var n := KobjectSignalLocked(o, false);
      var ob := objects[o];
      if n == 0 {
        ob := ob.(count := ob.count + 1);
      }
      objects := objects[o := ob];
    }

    /** `event_alarm`. */
    method EventAlarm(o: nat, all: bool)
      requires Inv(St()) && o in objects
      modifies this
      ensures St() == Next(old(St()), Alarm(o, all)) && Inv(St())
    {
      hide Inv, Signal, ThreadOk;
      NextInv(St(), Alarm(o, all));
      QueueDistinct(St(), o);
      if objects[o].count == 0 {
        if objects[o].queue != [] {
          if objects[o].sync {
            var _ := KobjectSignalLocked(o, all);
          } else {
            var _ := KobjectSignalLocked(o, true);
            objects := objects[o := objects[o].(count := 1)];
          }
        } else {
          objects := objects[o := objects[o].(count := 1)];
        }
      }
    }

    /** `event_clear` and `semaphore_reset`. */
    method ClearCount(o: nat)
      requires Inv(St()) && o in objects
      modifies this
      ensures St() == Next(old(St()), Clear(o)) && Inv(St())
    {
      hide Inv;
      NextInv(St(), Clear(o));
      objects := objects[o := objects[o].(count := 0)];
    }

    /** One turn of the loop of `poll_single`. */
    method PollOnce(o: nat) returns (acquired: bool)
      requires Inv(St()) && o in objects
      modifies this
      ensures St() == Next(old(St()), Poll(o)) && Inv(St()) && (acquired <==> old(objects[o].count) > 0)
    {
      hide Inv;
      NextInv(St(), Poll(o));
      acquired := objects[o].count > 0;
      if acquired {
        MaybeAcquire(o);
      }
    }

    /** `obj_maybe_acquire`. */
    method MaybeAcquire(o: nat)
      requires o in objects
      modifies this`objects
      ensures objects == old(objects)[o := Acquire(old(objects[o]))]
    {
      if objects[o].sync {
        objects := objects[o := objects[o].(count := objects[o].count - 1)];
      } else {
        objects := objects[o := objects[o]];
      }
    }

    // The sections of sched_wait, in the order of the code.

    method BeginWait(t: nat, o: nat, timeout: bool)
      requires Inv(St()) && Enabled(St(), Start(t, o, timeout))
      modifies this
      ensures St() == Next(old(St()), Start(t, o, timeout)) && Inv(St())
    {
      hide Inv;
      NextInv(St(), Start(t, o, timeout));
      var th := threads[t].(obj := o, hasTimeout := timeout, dequeued := false, unwaited := false);
      threads := threads[t := th.(verdicts := [], result := Nothing, pc := Setup)];
    }

    method EnterWait(t: nat)
      requires Inv(St()) && Enabled(St(), Enter(t))
      modifies this
      ensures St() == Next(old(St()), Enter(t)) && Inv(St())
    {
      hide Inv;
      NextInv(St(), Enter(t));
      threads := threads[t := threads[t].(phase := InProgress, tDequeued := false, tUnwaited := false, pc := Entered)];
    }

    method CheckObject(t: nat)
      requires Inv(St()) && Enabled(St(), Check(t)) && threads[t].obj in objects
      modifies this
      ensures St() == Next(old(St()), Check(t)) && Inv(St())
    {
      hide Inv;
      NextInv(St(), Check(t));
      var o := threads[t].obj;
      if objects[o].count > 0 {
        MaybeAcquire(o);
        threads := threads[t := threads[t].(verdicts := [Success], pc := Acquired)];
      } else {
        objects := objects[o := objects[o].(queue := objects[o].queue + [t])];
        threads := threads[t := threads[t].(pc := Linked)];
      }
    }

    /** `set_timeout`, if there is one; `timer_reset` asserts that the timer is
        not queued, and `timer_install` would find it busy. */
    method SetTimeout(t: nat)
      requires Inv(St()) && Enabled(St(), Arm(t))
      modifies this
      ensures !old(threads)[t].timer.Queued?
      ensures St() == Next(old(St()), Arm(t)) && Inv(St())
    {
      hide Inv;
      NextInv(St(), Arm(t));
      TimerIdle(St(), t);
      var th := threads[t];
      if th.hasTimeout {
        th := th.(timer := Queued);
        th := th.(tListed := true);
      }
      threads := threads[t := th.(pc := Timed)];
    }

    /** The test for an abort, and the first half of `do_wait`. */
    method CommitWait(t: nat)
      requires Inv(St()) && Enabled(St(), Commit(t))
      modifies this
      ensures St() == Next(old(St()), Commit(t)) && Inv(St())
    {
      hide Inv;
      NextInv(St(), Commit(t));
      var th := threads[t];
      if th.phase == Aborted {
        th := th.(pc := if th.hasTimeout then AbortTimer else AbortBlock);
      } else {
        th := th.(phase := Committed, waiting := true, pc := Blocked);
      }
      threads := threads[t := th];
    }

    /** One section of the way out of `sched_wait`. */
    method CleanUp(t: nat)
      requires Inv(St()) && Enabled(St(), Clean(t)) && threads[t].obj in objects
      modifies this
      ensures St() == Next(old(St()), Clean(t)) && Inv(St())
    {
      hide Inv, Cleaned;
      NextInv(St(), Clean(t));
      var th := threads[t];
      if th.pc == AbortBlock || th.pc == WokenBlock {
        if !th.dequeued {
          objects := objects[th.obj := objects[th.obj].(queue := Without(objects[th.obj].queue, t))];
        }
        assert objects == old(objects)[th.obj := Unlink(old(objects)[th.obj], t, th.dequeued)];
      }
      th := Leave(th);
      threads := threads[t := th];
    }

    /** The part of `timer_update` that fires the timer of `t`. */
    method TimerFires(t: nat)
      requires Inv(St()) && Enabled(St(), Fire(t))
      modifies this
      ensures St() == Next(old(St()), Fire(t)) && Inv(St())
    {
      hide Inv, Unwait, Unwaitable;
      NextInv(St(), Fire(t));
      TimeoutUnwaitable(St(), t);
      threads := threads[t := threads[t].(timer := Fired)];
      if threads[t].tListed {
        threads := threads[t := threads[t].(tListed := false, tDequeued := true)];
        if !threads[t].tUnwaited {
          ThreadUnwait(t, Timeout);
        }
      }
      assert threads == old(threads)[t := Firing(old(threads[t]))];
    }
  }

  /** The thread's own part of a cleanup section. */
  method Leave(old_: Thread) returns (th: Thread)
    requires Cleaning(old_.pc) || old_.pc.Acquired?
    ensures th == Cleaned(old_)
  {
    th := old_;
    match th.pc {
      case AbortTimer => th := Uninstalled(th).(pc := AbortTimeout);
      case AbortTimeout => th := Unlisted(th).(pc := AbortBlock);
      case AbortBlock => th := th.(phase := Unset, pc := Idle, result := Just(th.waitStatus));
      case WokenBlock =>
        if th.hasTimeout {
          th := th.(pc := WokenTimeout);
        } else {
          th := th.(pc := Idle, result := Just(th.waitStatus));
        }
      case WokenTimeout => th := Unlisted(th).(pc := WokenTimer);
      case WokenTimer =>
        th := Uninstalled(th);
        th := th.(pc := Idle, result := Just(th.waitStatus));
      case _ => th := th.(phase := Unset, pc := Idle, result := Just(Success));
    }
  }

  /** A list of threads that may be unwaited, if they are not resolved yet. */
  ghost predicate Signalable(ts: Threads, q: seq<nat>) {
    && (forall t :: t in q ==> t in ts && (!ts[t].unwaited ==> Unwaitable(ts[t])))
    && (forall i, j :: 0 <= i < j < |q| ==> q[i] != q[j])
  }

  /** What is left to do on list `q` ends in `end`. */
  ghost predicate SignalsTo(ts: Threads, q: seq<nat>, all: bool, unblocked: nat, end: (Threads, seq<nat>, nat)) {
    (forall t :: t in q ==> t in ts) && var r := Signal(ts, q, all); end == (r.0, r.1, r.2 + unblocked)
  }

  lemma SignalableNext(ts: Threads, q: seq<nat>)
    requires q != [] && Signalable(ts, q)
    ensures q[0] in ts && (!ts[q[0]].unwaited ==> Unwaitable(ts[q[0]].(dequeued := true)))
    ensures var th := ts[q[0]].(dequeued := true);
      Signalable(ts[q[0] := if th.unwaited then th else Unwait(th, Success)], q[1..])
  {
    hide Unwaitable, Unwait;
    assert q == [q[0]] + q[1..] && q[0] !in q[1..];
    StillUnwaitable(ts[q[0]]);
  }

  lemma SignalFirst(ts: Threads, q: seq<nat>, all: bool, unblocked: nat, end: (Threads, seq<nat>, nat))
    requires q != [] && SignalsTo(ts, q, all, unblocked, end)
    ensures var t, th := q[0], ts[q[0]].(dequeued := true);
      var ts' := ts[t := if th.unwaited then th else Unwait(th, Success)];
      if th.unwaited then SignalsTo(ts', q[1..], all, unblocked, end)
      else if all then SignalsTo(ts', q[1..], all, unblocked + 1, end)
      else end == (ts', q[1..], 1 + unblocked)
  {
  }

  lemma SignalNext(ts: Threads, q: seq<nat>, all: bool)
    requires forall t :: t in q ==> t in ts
    ensures SignalsTo(ts, q, all, 0, Signal(ts, q, all))
  {
  }

  lemma SignalNone(ts: Threads, all: bool, unblocked: nat, end: (Threads, seq<nat>, nat))
    requires SignalsTo(ts, [], all, unblocked, end)
    ensures end == (ts, [], unblocked)
  {
  }

  lemma TimerIdle(s: State, t: nat)
    requires Inv(s) && Enabled(s, Arm(t))
    ensures !s.threads[t].timer.Queued?
  {
  }

  lemma TimeoutUnwaitable(s: State, t: nat)
    requires Inv(s) && Enabled(s, Fire(t))
    ensures var th := s.threads[t];
            th.tListed && !th.tUnwaited ==> Unwaitable(th.(timer := Fired).(tListed := false, tDequeued := true))
  {
    OwnStepOk(s.threads[t], 0, false);
  }

  lemma StillUnwaitable(th: Thread)
    ensures Unwaitable(th.(dequeued := true)) == Unwaitable(th)
  {
  }

  lemma InitialInv(s: State)
    requires Initial(s)
    ensures Inv(s)
  {
  }

  /** Every unresolved thread on a list may be unwaited: the assertion of
      `thread_unwait` never fails. */
  lemma QueuedUnwaitable(s: State, o: nat)
    requires Inv(s) && o in s.objects
    ensures Signalable(s.threads, s.objects[o].queue)
  {
    var q := s.objects[o].queue;
    assert QueueOk(s.threads, o, q);
    forall t | t in q && !s.threads[t].unwaited ensures Unwaitable(s.threads[t]) { UnwaitOk(s.threads[t]); }
  }
}
