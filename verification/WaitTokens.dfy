/** What becomes of each wait and of each token over whole runs, counted from the
    states and steps alone. */
module WaitTokens {
  import opened Lists
  import opened WaitProtocol

  // One step, one thread ---------------------------------------------------------

  /** A wait that has begun and is not resolved yet. */
  predicate Open(th: Thread) {
    !th.pc.Idle? && th.verdicts == []
  }

  /** A wait on `o` that has succeeded and not returned yet. */
  predicate Decided(th: Thread, o: nat) {
    !th.pc.Idle? && th.obj == o && th.verdicts == [Success]
  }

  predicate Begins(th: Thread, th': Thread) {
    th.pc.Idle? && Open(th')
  }

  predicate Resolves(th: Thread, th': Thread) {
    Open(th) && !Open(th')
  }

  predicate Wins(th: Thread, th': Thread, o: nat) {
    th'.obj == o && th'.verdicts == th.verdicts + [Success]
  }

  /** The wait on `o` returns success. */
  predicate Returns(th: Thread, th': Thread, o: nat) {
    !th.pc.Idle? && th'.pc.Idle? && th'.obj == o && th'.result == Just(Success)
  }

  /** What a step may do to a thread: begin a wait, go on with it, or end it. */
  predicate Evolves(th: Thread, th': Thread) {
    || th' == th
    || Begins(th, th')
    || (!th.pc.Idle? && th'.obj == th.obj && (th'.verdicts == th.verdicts || (Open(th) && |th'.verdicts| == 1)))
  }

  lemma EvolvesOk(s: State, step: Step, t: nat)
    requires Inv(s) && Enabled(s, step) && t in s.threads
    ensures t in Next(s, step).threads && Evolves(s.threads[t], Next(s, step).threads[t])
  {
    hide Signal, Evolves, Inv;
    match step {
      case SemSignal(o) => SignalEvolves(s, o, false, t);
      case Alarm(o, all) =>
        SignalEvolves(s, o, all || !s.objects[o].sync, t);
        Stays(s.threads[t]);
      case Poll(o) => Stays(s.threads[t]);
      case Clear(o) => Stays(s.threads[t]);
      case _ => OwnEvolves(s, step, t);
    }
  }

  lemma Stays(th: Thread)
    ensures Evolves(th, th)
  {
  }

  lemma OwnEvolves(s: State, step: Step, t: nat)
    requires Inv(s) && Enabled(s, step) && t in s.threads
    requires !step.SemSignal? && !step.Alarm? && !step.Poll? && !step.Clear?
    ensures t in Next(s, step).threads && Evolves(s.threads[t], Next(s, step).threads[t])
  {
    hide Inv, Signal, Evolves, ThreadOk, Firing, Cleaned, Entering, Arming, Committing;
    Threads(s, t);
    if t == step.t {
      var th := s.threads[t];
      match step {
        case Start(_, o, timeout) => StartEvolves(th, Next(s, step).threads[t]);
        case Check(_) => CheckEvolves(th, Next(s, step).threads[t]);
        case Fire(_) => FireEvolves(th);
        case Clean(_) => CleanEvolves(th);
        case _ => GoesOn(th);
      }
    } else {
      Stays(s.threads[t]);
    }
  }

  lemma StartEvolves(th: Thread, th': Thread)
    requires th.pc.Idle? && th'.pc.Setup? && th'.verdicts == []
    ensures Evolves(th, th')
  {
  }

  lemma CheckEvolves(th: Thread, th': Thread)
    requires ThreadOk(th) && th.pc.Entered? && th'.obj == th.obj && (th'.verdicts == th.verdicts || th'.verdicts == [Success])
    ensures Evolves(th, th')
  {
  }

  lemma GoesOn(th: Thread)
    requires !th.pc.Idle?
    ensures Evolves(th, Entering(th)) && Evolves(th, Arming(th)) && Evolves(th, Committing(th))
  {
  }

  lemma FireEvolves(th: Thread)
    requires ThreadOk(th) && th.timer.Queued?
    ensures Evolves(th, Firing(th))
  {
  }

  lemma CleanEvolves(th: Thread)
    requires ThreadOk(th) && (Cleaning(th.pc) || th.pc.Acquired?)
    ensures Evolves(th, Cleaned(th))
  {
  }

  lemma SignalEvolves(s: State, o: nat, all: bool, t: nat)
    requires Inv(s) && o in s.objects && t in s.threads
    ensures (forall x :: x in s.objects[o].queue ==> x in s.threads)
    ensures Evolves(s.threads[t], Signal(s.threads, s.objects[o].queue, all).0[t])
  {
    hide TokensOk, Signal;
    QueueDistinct(s, o);
    var q := s.objects[o].queue;
    SignalAt(s.threads, q, all, t);
    var taken := t in q[..|q| - |Signal(s.threads, q, all).1|];
    if taken { assert QueueOk(s.threads, o, q) && ThreadOk(s.threads[t]); }
  }

  // One step, all threads -----------------------------------------------------------

  ghost function Winners(s: State, s': State, o: nat): set<nat> {
    set t | t in s.threads && t in s'.threads && Wins(s.threads[t], s'.threads[t], o)
  }

  ghost function Returning(s: State, s': State, o: nat): set<nat> {
    set t | t in s.threads && t in s'.threads && Returns(s.threads[t], s'.threads[t], o)
  }

  ghost function Waiting(s: State, o: nat): set<nat> {
    set t | t in s.threads && Decided(s.threads[t], o)
  }

  /** Each win is a success that is still to be returned or has been. */
  lemma WinnersReturn(s: State, step: Step, o: nat)
    requires Inv(s) && Enabled(s, step)
    ensures var s' := Next(s, step);
      |Waiting(s', o)| + |Returning(s, s', o)| == |Waiting(s, o)| + |Winners(s, s', o)|
  {
    hide Inv, Next, Evolves, Decided, Returns, Wins, Enabled;
    var s' := Next(s, step);
    NextInv(s, step);
    SameThreads(s, step);
    forall t | t in s.threads
      ensures Decided(s'.threads[t], o) || Returns(s.threads[t], s'.threads[t], o)
        <==> Decided(s.threads[t], o) || Wins(s.threads[t], s'.threads[t], o)
      ensures !(Decided(s'.threads[t], o) && Returns(s.threads[t], s'.threads[t], o))
      ensures !(Decided(s.threads[t], o) && Wins(s.threads[t], s'.threads[t], o))
    {
      EvolvesOk(s, step, t);
      Threads(s, t);
      Threads(s', t);
      WinReturns(s.threads[t], s'.threads[t], o);
    }
    assert Waiting(s', o) + Returning(s, s', o) == Waiting(s, o) + Winners(s, s', o);
    assert Waiting(s', o) !! Returning(s, s', o) && Waiting(s, o) !! Winners(s, s', o);
  }

  lemma Threads(s: State, t: nat)
    requires Inv(s) && t in s.threads
    ensures ThreadOk(s.threads[t])
  {
  }

  lemma SameThreads(s: State, step: Step)
    requires Inv(s) && Enabled(s, step)
    ensures Next(s, step).threads.Keys == s.threads.Keys
  {
    hide Signal, ThreadOk, QueueOk, TokensOk;
  }

  lemma WinReturns(th: Thread, th': Thread, o: nat)
    requires ThreadOk(th) && ThreadOk(th') && Evolves(th, th')
    ensures Decided(th', o) || Returns(th, th', o) <==> Decided(th, o) || Wins(th, th', o)
    ensures !(Decided(th', o) && Returns(th, th', o)) && !(Decided(th, o) && Wins(th, th', o))
  {
    assert [] + [Success] == [Success];
    assert |th.verdicts + [Success]| == |th.verdicts| + 1;
  }

  // Tokens ----------------------------------------------------------------------------

  /** The threads on the list of `o` that a signal may still wake. */
  ghost function Unresolved(s: State, o: nat): set<nat>
    requires o in s.objects
  {
    set t | t in s.objects[o].queue && t in s.threads && !s.threads[t].unwaited
  }

  /** The tokens that a step brings to object `o`: one for a semaphore signal; for
      an alarm none if the event is signaled already, one if nobody waits, and
      otherwise one for each thread it can wake, or for the first. */
  ghost function Given(s: State, step: Step, o: nat): nat
    requires o in s.objects
  {
    match step
    case SemSignal(p) => if p == o then 1 else 0
    case Alarm(p, all) =>
      if p != o || s.objects[o].count != 0 then 0
      else if s.objects[o].queue == [] then 1
      else if all then |Unresolved(s, o)|
      else if Unresolved(s, o) == {} then 0 else 1
    case _ => 0
  }

  /** The tokens that polls take. */
  ghost function Polled(s: State, step: Step, o: nat): nat
    requires o in s.objects
  {
    if step == Poll(o) && s.objects[o].count > 0 then 1 else 0
  }

  /** The tokens that a clear destroys. */
  ghost function Cleared(s: State, step: Step, o: nat): int
    requires o in s.objects
  {
    if step == Clear(o) then s.objects[o].count else 0
  }

  /** Each token given is there, or went to one wait that succeeded, to one poll,
      or was cleared. */
  lemma StepConserves(s: State, step: Step, o: nat)
    requires Inv(s) && Enabled(s, step) && o in s.objects && s.objects[o].sync
    ensures var s' := Next(s, step);
      && o in s'.objects && s'.objects[o].sync
      && s.objects[o].count + Given(s, step, o) == s'.objects[o].count + |Winners(s, s', o)| + Polled(s, step, o) + Cleared(s, step, o)
  {
    hide Inv, Signal, Winners, Unresolved;
    match step {
      case Check(t) => CheckConserves(s, t, o);
      case SemSignal(p) => SignalWinners(s, p, false, o, Next(s, step));
      case Alarm(p, all) =>
        if s.objects[p].count == 0 && s.objects[p].queue != [] {
          SignalWinners(s, p, all || !s.objects[p].sync, o, Next(s, step));
        } else {
          NobodyWins(s, Next(s, step), o);
        }
      case Poll(p) => NobodyWins(s, Next(s, step), o);
      case Clear(p) => NobodyWins(s, Next(s, step), o);
      case _ => OwnWins(s, step, o);
    }
  }

  lemma NobodyWins(s: State, s': State, o: nat)
    requires s'.threads == s.threads
    ensures Winners(s, s', o) == {}
  {
  }

  lemma OwnWins(s: State, step: Step, o: nat)
    requires Inv(s) && Enabled(s, step) && o in s.objects
    requires !step.Check? && !step.SemSignal? && !step.Alarm? && !step.Poll? && !step.Clear?
    ensures var s' := Next(s, step);
      Winners(s, s', o) == {} && o in s'.objects && s'.objects[o] == s.objects[o].(queue := s'.objects[o].queue)
  {
    hide Inv, Signal, ThreadOk, Firing, Cleaned, Entering, Arming, Committing;
    OwnVerdicts(s.threads[step.t]);
    if step.Clean? { CleanWins(s, step.t); }
  }

  /** A wait is resolved before it is cleaned up. */
  lemma CleanWins(s: State, t: nat)
    requires Inv(s) && Enabled(s, Clean(t))
    ensures Cleaned(s.threads[t]).verdicts == s.threads[t].verdicts
  {
    hide QueueOk, TokensOk, Cleaned;
    assert ThreadOk(s.threads[t]);
    CleanedVerdicts(s.threads[t]);
  }

  lemma CleanedVerdicts(th: Thread)
    requires ThreadOk(th) && (Cleaning(th.pc) || th.pc.Acquired?)
    ensures Cleaned(th).verdicts == th.verdicts
  {
    CleanedOk(th);
  }

  lemma OwnVerdicts(th: Thread)
    ensures Entering(th).verdicts == th.verdicts && Arming(th).verdicts == th.verdicts && Committing(th).verdicts == th.verdicts
    ensures Firing(th).verdicts == th.verdicts || Firing(th).verdicts == th.verdicts + [Timeout]
    ensures th.verdicts + [Success] != th.verdicts && th.verdicts + [Success] != th.verdicts + [Timeout]
  {
    hide Firing;
    FiringVerdict(th);
    Verdict(th, Timeout);
    assert |th.verdicts + [Success]| == |th.verdicts| + 1;
  }

  lemma FiringVerdict(th: Thread)
    ensures Firing(th).verdicts == if th.tListed && !th.tUnwaited then th.verdicts + [Timeout] else th.verdicts
  {
  }

  lemma Verdict(th: Thread, status: Outcome)
    ensures Unwait(th, status).verdicts == th.verdicts + [status]
    ensures status == Timeout ==> th.verdicts + [status] != th.verdicts + [Success]
  {
    assert (th.verdicts + [status])[|th.verdicts|] == status && (th.verdicts + [Success])[|th.verdicts|] == Success;
  }

  lemma CheckConserves(s: State, t: nat, o: nat)
    requires Inv(s) && Enabled(s, Check(t)) && o in s.objects && s.objects[o].sync
    ensures var s' := Next(s, Check(t));
      o in s'.objects && s'.objects[o].sync && s.objects[o].count == s'.objects[o].count + |Winners(s, s', o)|
  {
    hide QueueOk;
    assert ThreadOk(s.threads[t]);
    var s' := Next(s, Check(t));
    assert Winners(s, s', o) == if s.threads[t].obj == o && s.objects[o].count > 0 then {t} else {};
  }

  /** A signal wakes, on its own object, as many threads as it counts. */
  lemma SignalWinners(s: State, p: nat, all: bool, o: nat, s': State)
    requires Inv(s) && p in s.objects && o in s.objects
    requires (forall t :: t in s.objects[p].queue ==> t in s.threads) ==> s'.threads == Signal(s.threads, s.objects[p].queue, all).0
    ensures forall t :: t in s.objects[p].queue ==> t in s.threads
    ensures p != o ==> Winners(s, s', o) == {}
    ensures p == o ==> |Winners(s, s', o)| == Signal(s.threads, s.objects[p].queue, all).2
    ensures p == o && all ==> Winners(s, s', o) == Unresolved(s, o)
    ensures p == o ==> (Winners(s, s', o) == {} <==> Unresolved(s, o) == {})
    ensures !all ==> |Winners(s, s', o)| <= 1
  {
    hide Inv, Signal, Winners, Woken;
    QueueDistinct(s, p);
    WinnersWoken(s, p, all, o, s');
    var q := s.objects[p].queue;
    var r := Signal(s.threads, q, all);
    SignalIs(s.threads, q, all);
    Counted(s.threads, q, all);
    if p == o {
      if Unresolved(s, o) == {} {
        forall t | t in q ensures s.threads[t].unwaited { assert t !in Unresolved(s, o); }
        AllStale(s.threads, q, all);
      }
    }
  }

  lemma WinnersWoken(s: State, p: nat, all: bool, o: nat, s': State)
    requires Inv(s) && p in s.objects && o in s.objects
    requires (forall t :: t in s.objects[p].queue ==> t in s.threads) ==> s'.threads == Signal(s.threads, s.objects[p].queue, all).0
    ensures forall t :: t in s.objects[p].queue ==> t in s.threads
    ensures var q := s.objects[p].queue;
      var r := Signal(s.threads, q, all);
      && |r.1| <= |q| && Winners(s, s', o) == (if p == o then Woken(s.threads, r.0) else {})
      && forall t :: t in Woken(s.threads, r.0) <==> t in q[..|q| - |r.1|] && !s.threads[t].unwaited
  {
    hide Inv, Signal, Wins, Unwait;
    QueueDistinct(s, p);
    var q := s.objects[p].queue;
    SignalIs(s.threads, q, all);
    forall t | t in s.threads { WakesOwn(s, p, all, o, t); }
  }

  lemma WakesOwn(s: State, p: nat, all: bool, o: nat, t: nat)
    requires Inv(s) && p in s.objects && t in s.threads && forall x :: x in s.objects[p].queue ==> x in s.threads
    ensures var q := s.objects[p].queue;
      var r := Signal(s.threads, q, all);
      && t in r.0 && |r.1| <= |q|
      && (Wins(s.threads[t], r.0[t], o) <==> p == o && t in Woken(s.threads, r.0))
      && (t in Woken(s.threads, r.0) <==> t in q[..|q| - |r.1|] && !s.threads[t].unwaited)
  {
    hide TokensOk, ThreadOk, Signal;
    QueueDistinct(s, p);
    var q := s.objects[p].queue;
    SignalAt(s.threads, q, all, t);
    assert QueueOk(s.threads, p, q);
    assert |s.threads[t].verdicts + [Success]| == |s.threads[t].verdicts| + 1;
  }

  ghost function Woken(ts: Threads, ts': Threads): set<nat> {
    set t | t in ts && t in ts' && ts'[t].verdicts == ts[t].verdicts + [Success]
  }

  /** The count that `kobject_signal_locked` returns. */
  lemma {:induction false} Counted(ts: Threads, q: seq<nat>, all: bool)
    requires (forall t :: t in q ==> t in ts) && forall i, j :: 0 <= i < j < |q| ==> q[i] != q[j]
    ensures Signal(ts, q, all).2 == |Woken(ts, Signal(ts, q, all).0)|
    decreases |q|
  {
    hide Unwait;
    if q == [] {
      assert Woken(ts, ts) == {};
    } else {
      var t, th := q[0], ts[q[0]].(dequeued := true);
      var ts' := ts[t := if th.unwaited then th else Unwait(th, Success)];
      assert q == [t] + q[1..] && t !in q[1..];
      Verdict(th, Success);
      if th.unwaited || all {
        var r := Signal(ts', q[1..], all);
        Counted(ts', q[1..], all);
        SignalAt(ts', q[1..], all, t);
        WokenFirst(ts, ts', r.0, t);
      } else {
        WokenFirst(ts, ts', ts', t);
        assert Woken(ts', ts') == {};
      }
    }
  }

  /** What happens to one thread first, and to the others after it. */
  lemma WokenFirst(ts: Threads, ts': Threads, ts'': Threads, t: nat)
    requires t in ts && ts'.Keys == ts''.Keys == ts.Keys && ts''[t] == ts'[t]
    requires forall u :: u in ts && u != t ==> ts'[u].verdicts == ts[u].verdicts
    ensures ts'[t].verdicts == ts[t].verdicts ==> Woken(ts, ts'') == Woken(ts', ts'')
    ensures ts'[t].verdicts == ts[t].verdicts + [Success] ==> |Woken(ts, ts'')| == |Woken(ts', ts'')| + 1
  {
    assert |ts'[t].verdicts + [Success]| == |ts'[t].verdicts| + 1;
    assert t !in Woken(ts', ts'');
    if ts'[t].verdicts == ts[t].verdicts + [Success] {
      assert Woken(ts, ts'') == Woken(ts', ts'') + {t};
    } else if ts'[t].verdicts == ts[t].verdicts {
      assert Woken(ts, ts'') == Woken(ts', ts'');
    }
  }

  // Whole runs ------------------------------------------------------------------------

  /** What happened to the tokens of an object in the first steps of a run:
      brought by signals, won by waits, taken by polls, destroyed by clears; and
      how many waits on it returned success. */
  datatype Tally = Tally(given: int, won: int, polled: int, cleared: int, returned: int)

  ghost function TallyOf(run: seq<State>, steps: seq<Step>, o: nat, k: nat): Tally
    requires k <= |steps| && |run| == |steps| + 1
  {
    if k == 0 then Tally(0, 0, 0, 0, 0)
    else
      var t, s, s', step := TallyOf(run, steps, o, k - 1), run[k - 1], run[k], steps[k - 1];
      if o !in s.objects then t
      else Tally(t.given + Given(s, step, o), t.won + |Winners(s, s', o)|, t.polled + Polled(s, step, o),
                 t.cleared + Cleared(s, step, o), t.returned + |Returning(s, s', o)|)
  }

  /** In every run the tokens an object began with and got are there, or went one
      each to waits that succeeded, to polls and to clears; and the waits that
      succeeded are those that returned success and those about to. */
  lemma {:induction false} TokensConserved(run: seq<State>, steps: seq<Step>, o: nat, k: nat)
    requires IsRun(run, steps) && k < |run| && o in run[0].objects && run[0].objects[o].sync
    ensures o in run[k].objects && run[k].objects[o].sync
    ensures var t := TallyOf(run, steps, o, k);
      && run[0].objects[o].count + t.given == run[k].objects[o].count + t.won + t.polled + t.cleared
      && t.won == t.returned + |Waiting(run[k], o)|
  {
    hide Inv, Enabled, Next, Initial, Given, Polled, Cleared, Winners, Returning, Waiting;
    if k == 0 {
      NobodyDecided(run[0], o);
    } else {
      var i := k - 1;
      TokensConserved(run, steps, o, i);
      RunInv(run, steps, i);
      assert Follows(run[i], steps[i], run[i + 1]);
      StepConserves(run[i], steps[i], o);
      WinnersReturn(run[i], steps[i], o);
    }
  }

  lemma NobodyDecided(s: State, o: nat)
    requires Initial(s)
    ensures Waiting(s, o) == {}
  {
  }

  ghost function Signals(steps: seq<Step>, o: nat, k: nat): nat
    requires k <= |steps|
  {
    if k == 0 then 0 else Signals(steps, o, k - 1) + if steps[k - 1] == SemSignal(o) then 1 else 0
  }

  /** A semaphore, which is signaled but never alarmed or reset: what it began with
      and the number of signals make up its count, the waits that have returned
      success or are about to, and the polls that took a token. */
  lemma SemaphoreConserved(run: seq<State>, steps: seq<Step>, o: nat, k: nat)
    requires IsRun(run, steps) && k < |run| && o in run[0].objects && run[0].objects[o].sync
    requires forall i :: 0 <= i < |steps| ==> !(steps[i].Alarm? && steps[i].o == o) && steps[i] != Clear(o)
    ensures o in run[k].objects
    ensures var t := TallyOf(run, steps, o, k);
      run[0].objects[o].count + Signals(steps, o, k) == run[k].objects[o].count + t.returned + |Waiting(run[k], o)| + t.polled
  {
    hide IsRun, Waiting;
    TokensConserved(run, steps, o, k);
    SignalsGive(run, steps, o, k);
  }

  lemma {:induction false} SignalsGive(run: seq<State>, steps: seq<Step>, o: nat, k: nat)
    requires IsRun(run, steps) && k < |run| && o in run[0].objects && run[0].objects[o].sync
    requires forall i :: 0 <= i < |steps| ==> !(steps[i].Alarm? && steps[i].o == o) && steps[i] != Clear(o)
    ensures TallyOf(run, steps, o, k).given == Signals(steps, o, k) && TallyOf(run, steps, o, k).cleared == 0
  {
    if k > 0 {
      hide IsRun, Winners, Returning;
      SignalsGive(run, steps, o, k - 1);
      TokensConserved(run, steps, o, k - 1);
    }
  }

  // Exactly once ------------------------------------------------------------------------

  ghost function Calls(steps: seq<Step>, t: nat, k: nat): nat
    requires k <= |steps|
  {
    if k == 0 then 0 else Calls(steps, t, k - 1) + if steps[k - 1].Start? && steps[k - 1].t == t then 1 else 0
  }

  /** How often a wait of thread `t` was resolved. */
  ghost function Resolutions(run: seq<State>, t: nat, k: nat): nat
    requires k < |run|
  {
    if k == 0 then 0
    else
      var added := if t in run[k - 1].threads && t in run[k].threads then Added(run[k - 1].threads[t], run[k].threads[t]) else 0;
      Resolutions(run, t, k - 1) + added
  }

  function Added(th: Thread, th': Thread): nat {
    if |th'.verdicts| > |th.verdicts| then |th'.verdicts| - |th.verdicts| else 0
  }

  /** How often `sched_wait` of thread `t` returned. */
  ghost function Ends(run: seq<State>, t: nat, k: nat): nat
    requires k < |run|
  {
    if k == 0 then 0
    else
      var s, s' := run[k - 1], run[k];
      var ended := if t in s.threads && t in s'.threads && !s.threads[t].pc.Idle? && s'.threads[t].pc.Idle? then 1 else 0;
      Ends(run, t, k - 1) + ended
  }

  /** Each wait is resolved exactly once and returns once: of the calls so far only
      one that is still open has not been resolved, and only one that has not
      returned is still going on. */
  lemma {:induction false} ResolvedOnce(run: seq<State>, steps: seq<Step>, t: nat, k: nat)
    requires IsRun(run, steps) && k < |run| && t in run[0].threads
    ensures t in run[k].threads
    ensures Calls(steps, t, k) == Resolutions(run, t, k) + if Open(run[k].threads[t]) then 1 else 0
    ensures Calls(steps, t, k) == Ends(run, t, k) + if run[k].threads[t].pc.Idle? then 0 else 1
  {
    if k > 0 {
      hide Inv, Enabled, Next, Initial, Open, Added;
      var i := k - 1;
      ResolvedOnce(run, steps, t, i);
      RunInv(run, steps, i);
      assert Follows(run[i], steps[i], run[i + 1]);
      StepResolves(run[i], steps[i], t);
    }
  }

  lemma StepResolves(s: State, step: Step, t: nat)
    requires Inv(s) && Enabled(s, step) && t in s.threads
    ensures t in Next(s, step).threads
    ensures var th, th', called := s.threads[t], Next(s, step).threads[t], if step.Start? && step.t == t then 1 else 0;
      && called + (if Open(th) then 1 else 0) == Added(th, th') + (if Open(th') then 1 else 0)
      && (called == 1 ==> th.pc.Idle? && !th'.pc.Idle?) && (called == 0 && th.pc.Idle? ==> th'.pc.Idle?)
  {
    hide Inv, Next, Enabled;
    EvolvesOk(s, step, t);
    BeginsIs(s, step, t);
    if !s.threads[t].pc.Idle? { ReturnsVerdict(s, step, t); }
    NextInv(s, step);
    Threads(s, t);
    Threads(Next(s, step), t);
  }

  /** Only a call begins a wait. */
  lemma BeginsIs(s: State, step: Step, t: nat)
    requires Inv(s) && Enabled(s, step) && t in s.threads
    ensures t in Next(s, step).threads
    ensures Begins(s.threads[t], Next(s, step).threads[t]) <==> step.Start? && step.t == t
  {
    hide QueueOk, TokensOk, Signal;
    assert ThreadOk(s.threads[t]);
    match step {
      case SemSignal(o) => StillGoing(s, o, false, t);
      case Alarm(o, all) => StillGoing(s, o, all || !s.objects[o].sync, t);
      case _ =>
    }
  }

  /** `sched_wait` always returns the one status with which its wait was resolved. */
  lemma ReturnsVerdict(s: State, step: Step, t: nat)
    requires Inv(s) && Enabled(s, step) && t in s.threads && !s.threads[t].pc.Idle?
    ensures t in Next(s, step).threads
    ensures var th' := Next(s, step).threads[t];
      th'.pc.Idle? ==> step == Clean(t) && th'.result.Just? && th'.verdicts == [th'.result.outcome]
  {
    hide Inv, Signal, ThreadOk, Firing, Cleaned, Entering, Arming, Committing;
    NextInv(s, step);
    SameThreads(s, step);
    Threads(Next(s, step), t);
    IdleVerdict(Next(s, step).threads[t]);
    if step.SemSignal? {
      StillGoing(s, step.o, false, t);
    } else if step.Alarm? {
      StillGoing(s, step.o, step.all || !s.objects[step.o].sync, t);
    } else if step == Clean(t) {
      EndsWith(s.threads[t]);
    } else {
      OwnStep(s.threads[t]);
    }
  }

  /** Only the last section ends the wait. */
  lemma OwnStep(th: Thread)
    requires !th.pc.Idle?
    ensures !Entering(th).pc.Idle? && !Arming(th).pc.Idle? && !Committing(th).pc.Idle? && !Firing(th).pc.Idle?
  {
  }

  lemma EndsWith(th: Thread)
    requires Cleaning(th.pc) || th.pc.Acquired?
    ensures Cleaned(th).pc.Idle? ==> Cleaned(th).result.Just?
  {
    hide Uninstalled, Unlisted;
    match th.pc
    case AbortTimer =>
    case AbortTimeout =>
    case AbortBlock =>
    case WokenBlock =>
    case WokenTimeout =>
    case WokenTimer =>
    case _ =>
  }

  lemma IdleVerdict(th: Thread)
    requires ThreadOk(th)
    ensures th.pc.Idle? && th.result.Just? ==> th.verdicts == [th.result.outcome]
  {
  }

  /** A signal neither begins nor ends a wait. */
  lemma StillGoing(s: State, o: nat, all: bool, t: nat)
    requires Inv(s) && o in s.objects && t in s.threads
    ensures forall x :: x in s.objects[o].queue ==> x in s.threads
    ensures Signal(s.threads, s.objects[o].queue, all).0[t].pc.Idle? <==> s.threads[t].pc.Idle?
  {
    hide TokensOk, Signal, ThreadOk;
    QueueDistinct(s, o);
    SignalAt(s.threads, s.objects[o].queue, all, t);
    assert QueueOk(s.threads, o, s.objects[o].queue);
  }

  /** `event_alarm` ignores how many threads it woke: the signal of a
      synchronisation event is lost, neither kept nor given to a wait, exactly when
      the event is unsignaled and has waiters, all of them resolved already. */
  lemma AlarmLost(s: State, o: nat, all: bool)
    requires Inv(s) && Enabled(s, Alarm(o, all)) && s.objects[o].sync
    ensures var ob, s' := s.objects[o], Next(s, Alarm(o, all));
      (s'.objects[o].count == 0 && Winners(s, s', o) == {})
      <==> ob.count == 0 && ob.queue != [] && forall t :: t in ob.queue ==> s.threads[t].unwaited
  {
    hide Inv, Signal, Winners;
    var ob, s' := s.objects[o], Next(s, Alarm(o, all));
    QueueDistinct(s, o);
    if ob.count == 0 && ob.queue != [] {
      SignalWinners(s, o, all, o, s');
      if t :| t in ob.queue && !s.threads[t].unwaited { assert t in Unresolved(s, o); }
    } else if ob.count != 0 {
      CountKnown(s, o);
    }
  }

  lemma CountKnown(s: State, o: nat)
    requires Inv(s) && o in s.objects
    ensures s.objects[o].count >= 0
  {
  }
}
