/** Notification events, which stay signaled until they are cleared, and what
    makes a wait succeed or time out. */
module WaitEvents {
  import opened Lists
  import opened WaitProtocol
  import opened WaitTokens

  /** An alarm leaves a notification event signaled, and no wait on it unresolved. */
  lemma AlarmNotifies(s: State, o: nat, all: bool)
    requires Inv(s) && Enabled(s, Alarm(o, all)) && !s.objects[o].sync
    ensures var s' := Next(s, Alarm(o, all));
      && o in s'.objects && !s'.objects[o].sync && s'.objects[o].count > 0
      && (s.objects[o].count > 0 ==> s' == s)
      && (s.objects[o].count == 0 ==> Winners(s, s', o) == Unresolved(s, o))
  {
    hide Inv, Signal, Winners, Unresolved;
    Counts(s, o);
    if s.objects[o].count == 0 {
      if s.objects[o].queue == [] {
        NobodyWins(s, Next(s, Alarm(o, all)), o);
        NobodyUnresolved(s, o);
      } else {
        SignalWinners(s, o, true, o, Next(s, Alarm(o, all)));
      }
    }
  }

  lemma Counts(s: State, o: nat)
    requires Inv(s) && o in s.objects
    ensures s.objects[o].count >= 0 && (s.objects[o].count > 0 ==> s.objects[o].queue == [])
  {
    assert TokensOk(s.objects[o]);
  }

  lemma NobodyUnresolved(s: State, o: nat)
    requires o in s.objects && s.objects[o].queue == []
    ensures Unresolved(s, o) == {}
  {
  }

  /** Only a clear takes the signal of a notification event away. */
  lemma SignalStays(s: State, step: Step, o: nat)
    requires Inv(s) && Enabled(s, step) && o in s.objects && !s.objects[o].sync && s.objects[o].count > 0 && step != Clear(o)
    ensures var s' := Next(s, step);
      o in s'.objects && !s'.objects[o].sync && s'.objects[o].count == s.objects[o].count
  {
    hide Inv, Signal, ThreadOk, Firing, Cleaned, Entering, Arming, Committing;
    Counts(s, o);
    match step {
      case Check(t) => WaitTokens.Threads(s, t);
      case SemSignal(p) => QueueDistinct(s, p);
      case Alarm(p, all) => QueueDistinct(s, p);
      case _ =>
    }
  }

  /** While it is signaled, a thread that comes to wait succeeds at once and takes
      nothing; so does a poll. */
  lemma CheckSucceeds(s: State, step: Step, o: nat)
    requires Inv(s) && Enabled(s, step) && o in s.objects && !s.objects[o].sync && s.objects[o].count > 0
    requires step == Poll(o) || (step.Check? && s.threads[step.t].obj == o)
    ensures var s' := Next(s, step);
      && o in s'.objects && s'.objects[o] == s.objects[o]
      && (step.Check? ==> step.t in s'.threads && s'.threads[step.t].pc.Acquired? && s'.threads[step.t].verdicts == [Success])
  {
    hide Inv, Signal;
  }

  /** While an object is signaled, every wait block on it is resolved. */
  lemma SignaledNobodyWaits(s: State, o: nat, t: nat)
    requires Inv(s) && o in s.objects && s.objects[o].count > 0 && t in s.threads && s.threads[t].obj == o && Holding(s.threads[t].pc)
    ensures s.threads[t].unwaited && s.threads[t].verdicts == [s.threads[t].waitStatus] && !s.threads[t].pc.Blocked?
  {
    Counts(s, o);
    assert QueueOk(s.threads, o, s.objects[o].queue) && ThreadOk(s.threads[t]);
    assert t !in s.objects[o].queue;
  }

  /** Over every run: from an alarm of a notification event to the next clear the
      event is signaled, whatever threads wait and poll, and no wait on it is
      unresolved. */
  lemma {:induction false} NotifiedUntilCleared(run: seq<State>, steps: seq<Step>, o: nat, all: bool, i: nat, j: nat)
    requires IsRun(run, steps) && i < j < |run| && steps[i] == Alarm(o, all)
    requires o in run[i].objects && !run[i].objects[o].sync && forall k :: i < k < j ==> steps[k] != Clear(o)
    ensures o in run[j].objects && !run[j].objects[o].sync
    ensures o in run[i + 1].objects && run[j].objects[o].count == run[i + 1].objects[o].count > 0
    ensures forall t :: t in run[j].threads && run[j].threads[t].obj == o && Holding(run[j].threads[t].pc) ==> run[j].threads[t].unwaited
    decreases j
  {
    hide Inv, Enabled, Next, Initial, Holding;
    RunInv(run, steps, j - 1);
    RunInv(run, steps, j);
    assert Follows(run[j - 1], steps[j - 1], run[j]);
    if i + 1 == j {
      AlarmNotifies(run[i], o, all);
    } else {
      NotifiedUntilCleared(run, steps, o, all, i, j - 1);
      SignalStays(run[j - 1], steps[j - 1], o);
    }
    forall t | t in run[j].threads && run[j].threads[t].obj == o && Holding(run[j].threads[t].pc) ensures run[j].threads[t].unwaited {
      SignaledNobodyWaits(run[j], o, t);
    }
  }

  // Why waits end -------------------------------------------------------------------

  /** A wait on `o` succeeds only because the object was signaled when it began, or
      by a signal while it was on the object's list and unresolved. */
  lemma SuccessHasCause(s: State, step: Step, o: nat, t: nat)
    requires Inv(s) && Enabled(s, step) && o in s.objects && t in Winners(s, Next(s, step), o)
    ensures (step == Check(t) && s.objects[o].count > 0)
      || ((step == SemSignal(o) || (step.Alarm? && step.o == o && s.objects[o].count == 0)) && t in Unresolved(s, o))
  {
    hide Inv, Signal, Winners, Unresolved;
    var s' := Next(s, step);
    match step {
      case Check(u) => CheckWins(s, u, o, t);
      case SemSignal(p) => SignalOrWinners(s, p, false, o, t, s');
      case Alarm(p, all) =>
        if s.objects[p].count == 0 && s.objects[p].queue != [] {
          SignalOrWinners(s, p, all || !s.objects[p].sync, o, t, s');
        } else {
          NobodyWins(s, s', o);
        }
      case Poll(p) => NobodyWins(s, s', o);
      case Clear(p) => NobodyWins(s, s', o);
      case _ => OwnWins(s, step, o);
    }
  }

  lemma CheckWins(s: State, u: nat, o: nat, t: nat)
    requires Inv(s) && Enabled(s, Check(u)) && o in s.objects && t in Winners(s, Next(s, Check(u)), o)
    ensures t == u && s.objects[o].count > 0
  {
    hide QueueOk;
    assert ThreadOk(s.threads[u]);
    assert |s.threads[t].verdicts + [Success]| == |s.threads[t].verdicts| + 1;
  }

  lemma SignalOrWinners(s: State, p: nat, all: bool, o: nat, t: nat, s': State)
    requires Inv(s) && p in s.objects && o in s.objects && t in Winners(s, s', o)
    requires (forall u :: u in s.objects[p].queue ==> u in s.threads) ==> s'.threads == Signal(s.threads, s.objects[p].queue, all).0
    ensures p == o && t in Unresolved(s, o)
  {
    hide Inv, Signal, Winners, Woken;
    QueueDistinct(s, p);
    WinnersWoken(s, p, all, o, s');
    SignalIs(s.threads, s.objects[p].queue, all);
  }

  /** Only waits with a timeout time out. */
  predicate TimedOk(th: Thread) {
    Timeout in th.verdicts ==> th.hasTimeout
  }

  lemma StepTimedOk(s: State, step: Step, t: nat)
    requires Inv(s) && Enabled(s, step) && t in s.threads && TimedOk(s.threads[t])
    ensures t in Next(s, step).threads && TimedOk(Next(s, step).threads[t])
  {
    hide Inv, Signal, ThreadOk, Firing, Cleaned, Entering, Arming, Committing;
    WaitTokens.Threads(s, t);
    var th := s.threads[t];
    match step {
      case SemSignal(o) => SignalTimedOk(s, o, false, t);
      case Alarm(o, all) => SignalTimedOk(s, o, all || !s.objects[o].sync, t);
      case Fire(u) => if t == u { FireTimedOk(th); }
      case Clean(u) => if t == u { CleanTimedOk(th); }
      case Enter(u) => if t == u { OwnTimedOk(th); }
      case Arm(u) => if t == u { OwnTimedOk(th); }
      case Commit(u) => if t == u { OwnTimedOk(th); }
      case _ =>
    }
  }

  lemma OwnTimedOk(th: Thread)
    requires TimedOk(th)
    ensures TimedOk(Entering(th)) && TimedOk(Arming(th)) && TimedOk(Committing(th))
  {
  }

  lemma FireTimedOk(th: Thread)
    requires ThreadOk(th) && th.timer.Queued?
    ensures TimedOk(Firing(th))
  {
  }

  lemma CleanTimedOk(th: Thread)
    requires ThreadOk(th) && (Cleaning(th.pc) || th.pc.Acquired?) && TimedOk(th)
    ensures TimedOk(Cleaned(th))
  {
    CleanedVerdicts(th);
    SameTimeout(th);
  }

  lemma SameTimeout(th: Thread)
    ensures Cleaned(th).hasTimeout == th.hasTimeout
  {
    if th.pc.AbortTimer? || th.pc.WokenTimer? {
      UninstalledTimeout(th);
    } else if th.pc.AbortTimeout? || th.pc.WokenTimeout? {
      UnlistedTimeout(th);
    }
  }

  lemma UninstalledTimeout(th: Thread)
    requires th.pc.AbortTimer? || th.pc.WokenTimer?
    ensures Cleaned(th).hasTimeout == th.hasTimeout
  {
  }

  lemma UnlistedTimeout(th: Thread)
    requires th.pc.AbortTimeout? || th.pc.WokenTimeout?
    ensures Cleaned(th).hasTimeout == th.hasTimeout
  {
  }

  lemma SignalTimedOk(s: State, o: nat, all: bool, t: nat)
    requires Inv(s) && o in s.objects && t in s.threads && TimedOk(s.threads[t])
    ensures forall x :: x in s.objects[o].queue ==> x in s.threads
    ensures TimedOk(Signal(s.threads, s.objects[o].queue, all).0[t])
  {
    hide Inv, Signal;
    QueueDistinct(s, o);
    SignalIs(s.threads, s.objects[o].queue, all);
  }

  /** In every state of every run, a wait that timed out had a timeout. */
  lemma {:induction false} TimeoutsWereSet(run: seq<State>, steps: seq<Step>, t: nat, k: nat)
    requires IsRun(run, steps) && k < |run| && t in run[0].threads
    ensures t in run[k].threads && TimedOk(run[k].threads[t])
  {
    if k > 0 {
      hide Inv, Enabled, Next, TimedOk;
      TimeoutsWereSet(run, steps, t, k - 1);
      RunInv(run, steps, k - 1);
      assert Follows(run[k - 1], steps[k - 1], run[k]);
      StepTimedOk(run[k - 1], steps[k - 1], t);
    }
  }
}
