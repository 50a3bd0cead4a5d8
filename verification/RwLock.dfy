/** The reader-writer lock over any number of threads, one step for each atomic
    operation; waiting on its event is any delay, ending in success or error. */
module RwLock {
  const EXCLUSIVE := 0x8000_0000
  const STATES := 0x1_0000_0000

  /** Where a thread is: the operation it does next. A `local` is what it loaded. */
  datatype Pc =
    | Out
    | ShLoad | ShCount(local: int) | ShCas(local: int) | ShWait
    | Reader | ShDrop(upgrade: bool) | ShAlarm(upgrade: bool)
    | ExAdd | ExLoad | ExCas | ExOwn | ExWait | ExGiveUp
    | Writer | RelCount | RelOwner | RelState | RelAlarm
    | UpLoad | UpAdd(local: int) | UpCas(local: int) | UpBack

  datatype Owner = Nobody | By(thread: nat)

  type Pcs = map<nat, Pc>

  /** Has a shared lock. */
  predicate Shares(pc: Pc) {
    pc.Reader? || pc.ShDrop? || pc.UpLoad? || pc.UpAdd? || pc.UpCas? || pc.UpBack?
  }

  /** Has set the exclusive bit and not cleared it. */
  predicate Excludes(pc: Pc) {
    pc.ExOwn? || pc.Writer? || pc.RelCount? || pc.RelOwner? || pc.RelState?
  }

  /** Is counted in `exclusive_count`: waits for the exclusive lock or has it. */
  predicate Counted(pc: Pc) {
    pc.ExLoad? || pc.ExCas? || pc.ExOwn? || pc.ExWait? || pc.ExGiveUp? || pc.Writer? || pc.RelCount? || pc.UpCas? || pc.UpBack?
  }

  predicate Owns(pc: Pc) {
    pc.Writer? || pc.RelCount? || pc.RelOwner?
  }

  ghost function Sharing(pcs: Pcs): set<nat> {
    set t | t in pcs && Shares(pcs[t])
  }

  ghost function Excluding(pcs: Pcs): set<nat> {
    set t | t in pcs && Excludes(pcs[t])
  }

  ghost function Counting(pcs: Pcs): set<nat> {
    set t | t in pcs && Counted(pcs[t])
  }

  /** The word is the number of readers, or exactly the exclusive bit. */
  ghost predicate Ok(state: int, count: int, owner: Owner, pcs: Pcs) {
    && |pcs| < EXCLUSIVE
    && state == (if Excluding(pcs) == {} then |Sharing(pcs)| else EXCLUSIVE)
    && (Excluding(pcs) != {} ==> Sharing(pcs) == {})
    && (forall t, u :: t in Excluding(pcs) && u in Excluding(pcs) ==> t == u)
    && count == |Counting(pcs)|
    && (forall t :: t in pcs ==> (Owns(pcs[t]) <==> owner == By(t)))
    && (owner.By? ==> owner.thread in pcs)
    && forall t :: t in pcs ==> LocalOk(pcs[t])
  }

  /** What a thread has learnt from its load. */
  predicate LocalOk(pc: Pc) {
    && (pc.ShCount? || pc.ShCas? ==> 0 <= pc.local < EXCLUSIVE)
    && (pc.UpCas? ==> pc.local == 1)
  }

  /** A writer excludes everybody else; readers share only among themselves. */
  lemma WriterExcludes(state: int, count: int, owner: Owner, pcs: Pcs, t: nat, u: nat)
    requires Ok(state, count, owner, pcs) && t in pcs && u in pcs && t != u && Excludes(pcs[t])
    ensures !Excludes(pcs[u]) && !Shares(pcs[u]) && state == EXCLUSIVE
  {
    assert t in Excluding(pcs);
    assert Excludes(pcs[u]) ==> u in Excluding(pcs);
    assert Shares(pcs[u]) ==> u in Sharing(pcs);
  }

  /** The word never reaches the exclusive bit by counting readers, and its
      readers part never underflows. */
  lemma WordExact(state: int, count: int, owner: Owner, pcs: Pcs)
    requires Ok(state, count, owner, pcs)
    ensures 0 <= state < STATES && 0 <= count < EXCLUSIVE
    ensures state >= EXCLUSIVE <==> exists t :: t in pcs && Excludes(pcs[t])
    ensures state != EXCLUSIVE ==> state == |Sharing(pcs)|
    ensures state == 0 <==> forall t :: t in pcs ==> !Shares(pcs[t]) && !Excludes(pcs[t])
  {
    Bounded(Sharing(pcs), pcs);
    Bounded(Counting(pcs), pcs);
    if Excluding(pcs) != {} {
      var t :| t in Excluding(pcs);
    } else {
      assert forall t :: t in pcs && Excludes(pcs[t]) ==> t in Excluding(pcs);
      assert forall t :: t in pcs && Shares(pcs[t]) ==> t in Sharing(pcs);
      if |Sharing(pcs)| > 0 {
        var t :| t in Sharing(pcs);
      }
    }
  }

  lemma Bounded(s: set<nat>, pcs: Pcs)
    requires forall t :: t in s ==> t in pcs
    ensures |s| <= |pcs|
  {
    Subset(s, pcs.Keys);
    assert |pcs.Keys| == |pcs|;
  }

  lemma {:induction false} Subset(a: set<nat>, b: set<nat>)
    requires a <= b
    ensures |a| <= |b| && (|a| == |b| ==> a == b)
  {
    if x :| x in a {
      Subset(a - {x}, b - {x});
    } else if a != b {
      var x :| x in b;
      assert |b - {x}| < |b|;
    }
  }

  /** A set of threads after one thread moved on. */
  lemma Moved(pcs: Pcs, t: nat, pc: Pc)
    requires t in pcs
    ensures |pcs[t := pc]| == |pcs|
    ensures Sharing(pcs[t := pc]) == (if Shares(pc) then Sharing(pcs) + {t} else Sharing(pcs) - {t})
    ensures Excluding(pcs[t := pc]) == (if Excludes(pc) then Excluding(pcs) + {t} else Excluding(pcs) - {t})
    ensures Counting(pcs[t := pc]) == (if Counted(pc) then Counting(pcs) + {t} else Counting(pcs) - {t})
    ensures t in Sharing(pcs) <==> Shares(pcs[t])
    ensures t in Excluding(pcs) <==> Excludes(pcs[t])
    ensures t in Counting(pcs) <==> Counted(pcs[t])
  {
    assert pcs[t := pc].Keys == pcs.Keys;
  }

  class Lock {
    var state: int
    var count: int
    var owner: Owner
    var pcs: Pcs

    ghost predicate Valid()
      reads this
    {
      Ok(state, count, owner, pcs)
    }

    /** `rwlock_init`. */
    constructor (threads: set<nat>)
      requires |threads| < EXCLUSIVE
      ensures Valid() && state == 0 && pcs.Keys == threads && forall t :: t in pcs ==> pcs[t].Out?
    {
      state, count, owner := 0, 0, Nobody;
      pcs := map t | t in threads :: Out;
      new;
      assert pcs.Keys == threads && |pcs.Keys| == |pcs|;
      assert Sharing(pcs) == {} && Excluding(pcs) == {} && Counting(pcs) == {};
    }

    // rwlock_acquire_shared

    method LoadShared(t: nat)
      requires Valid() && t in pcs && pcs[t].ShLoad?
      modifies this`pcs
      ensures Valid() && pcs == old(pcs)[t := if state >= EXCLUSIVE then ShWait else ShCount(state)]
    {
      hide Ok;
      WordExact(state, count, owner, pcs);
      var pc := if state >= EXCLUSIVE then ShWait else ShCount(state);
      Keep(state, count, owner, pcs, t, pc);
      pcs := pcs[t := pc];
    }

    method LoadCount(t: nat)
      requires Valid() && t in pcs && pcs[t].ShCount?
      modifies this`pcs
      ensures Valid() && pcs == old(pcs)[t := if count != 0 then ShWait else ShCas(old(pcs[t].local))]
    {
      hide Ok;
      Local(state, count, owner, pcs, t);
      var pc := if count != 0 then ShWait else ShCas(pcs[t].local);
      Keep(state, count, owner, pcs, t, pc);
      pcs := pcs[t := pc];
    }

    /** The new word does not wrap around or reach the exclusive bit. */
    method CasShared(t: nat)
      requires Valid() && t in pcs && pcs[t].ShCas?
      modifies this`pcs, this`state
      ensures Valid()
      ensures old(state) == old(pcs[t].local) ==> pcs == old(pcs)[t := Reader] && state == old(state) + 1
      ensures old(state) != old(pcs[t].local) ==> pcs == old(pcs)[t := ShWait] && state == old(state)
    {
      hide Ok;
      Local(state, count, owner, pcs, t);
      if state == pcs[t].local {
        AddReader(state, count, owner, pcs, t, Reader);
        state := (state + 1) % STATES;
        pcs := pcs[t := Reader];
      } else {
        Keep(state, count, owner, pcs, t, ShWait);
        pcs := pcs[t := ShWait];
      }
    }

    /** A wait ends: try again, or give up. */
    method WaitEnds(t: nat, success: bool)
      requires Valid() && t in pcs && (pcs[t].ShWait? || pcs[t].ExWait?)
      modifies this`pcs
      ensures Valid()
      ensures pcs == old(pcs)[t := if old(pcs[t]).ShWait? then (if success then ShLoad else Out) else if success then ExLoad else ExGiveUp]
    {
      hide Ok;
      var pc := if pcs[t].ShWait? then (if success then ShLoad else Out) else if success then ExLoad else ExGiveUp;
      Keep(state, count, owner, pcs, t, pc);
      pcs := pcs[t := pc];
    }

    // rwlock_release_shared

    /** The subtraction, which never underflows; the last reader alarms. After
        the release inside an upgrade the exclusive lock is acquired. */
    method DropShared(t: nat)
      requires Valid() && t in pcs && pcs[t].ShDrop?
      modifies this`pcs, this`state
      ensures Valid() && 0 < old(state) < EXCLUSIVE && state == old(state) - 1
      ensures pcs == old(pcs)[t := if state == 0 then ShAlarm(old(pcs[t].upgrade)) else if old(pcs[t].upgrade) then ExAdd else Out]
    {
      hide Ok;
      var pc := if state == 1 then ShAlarm(pcs[t].upgrade) else if pcs[t].upgrade then ExAdd else Out;
      DropReader(state, count, owner, pcs, t, pc);
      state := (state - 1) % STATES;
      pcs := pcs[t := pc];
    }

    // rwlock_acquire_exclusive

    method AddExclusive(t: nat)
      requires Valid() && t in pcs && pcs[t].ExAdd?
      modifies this`pcs, this`count
      ensures Valid() && pcs == old(pcs)[t := ExLoad] && count == old(count) + 1
    {
      hide Ok;
      CountUp(state, count, owner, pcs, t, ExLoad);
      count := count + 1;
      pcs := pcs[t := ExLoad];
    }

    method LoadExclusive(t: nat)
      requires Valid() && t in pcs && pcs[t].ExLoad?
      modifies this`pcs
      ensures Valid() && pcs == old(pcs)[t := if state != 0 then ExWait else ExCas]
    {
      hide Ok;
      var pc := if state != 0 then ExWait else ExCas;
      Keep(state, count, owner, pcs, t, pc);
      pcs := pcs[t := pc];
    }

    /** A winning compare-and-swap finds no owner. */
    method CasExclusive(t: nat)
      requires Valid() && t in pcs && pcs[t].ExCas?
      modifies this`pcs, this`state
      ensures Valid()
      ensures old(state) == 0 ==> owner == Nobody && state == EXCLUSIVE && pcs == old(pcs)[t := ExOwn]
      ensures old(state) != 0 ==> state == old(state) && pcs == old(pcs)[t := ExWait]
    {
      hide Ok;
      if state == 0 {
        Exclude(state, count, owner, pcs, t);
        state := EXCLUSIVE;
        pcs := pcs[t := ExOwn];
      } else {
        Keep(state, count, owner, pcs, t, ExWait);
        pcs := pcs[t := ExWait];
      }
    }

    /** The assertion that there is no owner, and the store. */
    method StoreOwner(t: nat)
      requires Valid() && t in pcs && pcs[t].ExOwn?
      modifies this`pcs, this`owner
      ensures Valid() && old(owner) == Nobody && owner == By(t) && pcs == old(pcs)[t := Writer]
    {
      hide Ok;
      SetOwner(state, count, owner, pcs, t);
      owner := By(t);
      pcs := pcs[t := Writer];
    }

    method GiveUp(t: nat)
      requires Valid() && t in pcs && pcs[t].ExGiveUp?
      modifies this`pcs, this`count
      ensures Valid() && pcs == old(pcs)[t := Out] && count == old(count) - 1
    {
      hide Ok;
      CountDown(state, count, owner, pcs, t, Out);
      count := count - 1;
      pcs := pcs[t := Out];
    }

    // rwlock_release_exclusive

    /** The assertion that the caller is the owner, and the subtraction. */
    method DropCount(t: nat)
      requires Valid() && t in pcs && pcs[t].RelCount?
      modifies this`pcs, this`count
      ensures Valid() && owner == By(t) && pcs == old(pcs)[t := RelOwner] && count == old(count) - 1
    {
      hide Ok;
      CountDown(state, count, owner, pcs, t, RelOwner);
      count := count - 1;
      pcs := pcs[t := RelOwner];
    }

    method ClearOwner(t: nat)
      requires Valid() && t in pcs && pcs[t].RelOwner?
      modifies this`pcs, this`owner
      ensures Valid() && old(owner) == By(t) && owner == Nobody && pcs == old(pcs)[t := RelState]
    {
      hide Ok;
      UnsetOwner(state, count, owner, pcs, t);
      owner := Nobody;
      pcs := pcs[t := RelState];
    }

    /** Clearing the exclusive bit leaves the lock free. */
    method ClearState(t: nat)
      requires Valid() && t in pcs && pcs[t].RelState?
      modifies this`pcs, this`state
      ensures Valid() && old(state) == EXCLUSIVE && state == 0 && pcs == old(pcs)[t := RelAlarm]
    {
      hide Ok;
      Include(state, count, owner, pcs, t);
      state := if state >= EXCLUSIVE then state - EXCLUSIVE else state;
      pcs := pcs[t := RelAlarm];
    }

    // rwlock_upgrade_to_exclusive

    method LoadUpgrade(t: nat)
      requires Valid() && t in pcs && pcs[t].UpLoad?
      modifies this`pcs
      ensures Valid() && pcs == old(pcs)[t := UpAdd(state)]
    {
      hide Ok;
      Keep(state, count, owner, pcs, t, UpAdd(state));
      pcs := pcs[t := UpAdd(state)];
    }

    method AddUpgrade(t: nat)
      requires Valid() && t in pcs && pcs[t].UpAdd?
      modifies this`pcs, this`count
      ensures Valid() && count == old(count) + 1
      ensures pcs == old(pcs)[t := if old(pcs[t].local) == 1 then UpCas(1) else UpBack]
    {
      hide Ok;
      var pc := if pcs[t].local == 1 then UpCas(1) else UpBack;
      CountUp(state, count, owner, pcs, t, pc);
      count := count + 1;
      pcs := pcs[t := pc];
    }

    /** The only reader turns its shared lock into the exclusive one at once. */
    method CasUpgrade(t: nat)
      requires Valid() && t in pcs && pcs[t].UpCas?
      modifies this`pcs, this`state
      ensures Valid()
      ensures old(state) == 1 ==> owner == Nobody && state == EXCLUSIVE && pcs == old(pcs)[t := ExOwn]
      ensures old(state) != 1 ==> state == old(state) && pcs == old(pcs)[t := UpBack]
    {
      hide Ok;
      Local(state, count, owner, pcs, t);
      if state == pcs[t].local {
        Upgrade(state, count, owner, pcs, t);
        state := EXCLUSIVE;
        pcs := pcs[t := ExOwn];
      } else {
        Keep(state, count, owner, pcs, t, UpBack);
        pcs := pcs[t := UpBack];
      }
    }

    /** The fallback: the shared lock is released before the exclusive one is
        asked for. */
    method BackOut(t: nat)
      requires Valid() && t in pcs && pcs[t].UpBack?
      modifies this`pcs, this`count
      ensures Valid() && count == old(count) - 1 && pcs == old(pcs)[t := ShDrop(true)]
    {
      hide Ok;
      CountDown(state, count, owner, pcs, t, ShDrop(true));
      count := count - 1;
      pcs := pcs[t := ShDrop(true)];
    }

    /** The calls, and the alarms on the way out. */
    method Proceed(t: nat, pc: Pc)
      requires Valid() && t in pcs
      requires match pcs[t]
               case Out => pc.ShLoad? || pc.ExAdd?
               case Reader => pc == ShDrop(false) || pc.UpLoad?
               case Writer => pc.RelCount?
               case ShAlarm(upgrade) => pc == if upgrade then ExAdd else Out
               case RelAlarm => pc.Out?
               case _ => false
      modifies this`pcs
      ensures Valid() && pcs == old(pcs)[t := pc]
    {
      hide Ok;
      Keep(state, count, owner, pcs, t, pc);
      pcs := pcs[t := pc];
    }
  }

  // How the invariant follows a thread -----------------------------------------------

  lemma Local(state: int, count: int, owner: Owner, pcs: Pcs, t: nat)
    requires Ok(state, count, owner, pcs) && t in pcs
    ensures LocalOk(pcs[t])
  {
  }

  lemma Keep(state: int, count: int, owner: Owner, pcs: Pcs, t: nat, pc: Pc)
    requires Ok(state, count, owner, pcs) && t in pcs && LocalOk(pc)
    requires Shares(pc) == Shares(pcs[t]) && Excludes(pc) == Excludes(pcs[t]) && Counted(pc) == Counted(pcs[t]) && Owns(pc) == Owns(pcs[t])
    ensures Ok(state, count, owner, pcs[t := pc])
  {
    SetsKept(pcs, t, pc);
    hide Sharing, Excluding, Counting, Shares, Excludes, Counted, Owns, LocalOk;
  }

  lemma SetsKept(pcs: Pcs, t: nat, pc: Pc)
    requires t in pcs && Shares(pc) == Shares(pcs[t]) && Excludes(pc) == Excludes(pcs[t]) && Counted(pc) == Counted(pcs[t])
    ensures |pcs[t := pc]| == |pcs| && Sharing(pcs[t := pc]) == Sharing(pcs)
    ensures Excluding(pcs[t := pc]) == Excluding(pcs) && Counting(pcs[t := pc]) == Counting(pcs)
  {
    Moved(pcs, t, pc);
  }

  lemma AddReader(state: int, count: int, owner: Owner, pcs: Pcs, t: nat, pc: Pc)
    requires Ok(state, count, owner, pcs) && t in pcs && pcs[t].ShCas? && pc.Reader? && state < EXCLUSIVE
    ensures Ok(state + 1, count, owner, pcs[t := pc]) && state + 1 < STATES
  {
    hide Sharing, Excluding, Counting;
    ReaderCame(pcs, t, pc);
  }

  lemma ReaderCame(pcs: Pcs, t: nat, pc: Pc)
    requires t in pcs && pcs[t].ShCas? && pc.Reader?
    ensures |pcs[t := pc]| == |pcs| && |Sharing(pcs)| <= |pcs|
    ensures |Sharing(pcs[t := pc])| == |Sharing(pcs)| + 1
    ensures Excluding(pcs[t := pc]) == Excluding(pcs) && Counting(pcs[t := pc]) == Counting(pcs)
  {
    Moved(pcs, t, pc);
    Bounded(Sharing(pcs), pcs);
  }

  lemma DropReader(state: int, count: int, owner: Owner, pcs: Pcs, t: nat, pc: Pc)
    requires Ok(state, count, owner, pcs) && t in pcs && pcs[t].ShDrop? && (pc.ShAlarm? || pc.ExAdd? || pc.Out?)
    ensures 0 < state < EXCLUSIVE && Ok(state - 1, count, owner, pcs[t := pc])
  {
    hide Sharing, Excluding, Counting;
    ReaderLeft(pcs, t, pc);
  }

  lemma ReaderLeft(pcs: Pcs, t: nat, pc: Pc)
    requires t in pcs && pcs[t].ShDrop? && (pc.ShAlarm? || pc.ExAdd? || pc.Out?)
    ensures |pcs[t := pc]| == |pcs| && t in Sharing(pcs) && 0 < |Sharing(pcs)| <= |pcs|
    ensures |Sharing(pcs[t := pc])| == |Sharing(pcs)| - 1
    ensures Excluding(pcs[t := pc]) == Excluding(pcs) && Counting(pcs[t := pc]) == Counting(pcs)
  {
    Moved(pcs, t, pc);
    Bounded(Sharing(pcs), pcs);
  }

  lemma CountUp(state: int, count: int, owner: Owner, pcs: Pcs, t: nat, pc: Pc)
    requires Ok(state, count, owner, pcs) && t in pcs && LocalOk(pc) && !Counted(pcs[t]) && Counted(pc)
    requires Shares(pc) == Shares(pcs[t]) && Excludes(pc) == Excludes(pcs[t]) && Owns(pc) == Owns(pcs[t])
    ensures Ok(state, count + 1, owner, pcs[t := pc])
  {
    CountMoved(pcs, t, pc);
    hide Sharing, Excluding, Counting, Shares, Excludes, Counted, Owns, LocalOk;
  }

  lemma CountMoved(pcs: Pcs, t: nat, pc: Pc)
    requires t in pcs && Shares(pc) == Shares(pcs[t]) && Excludes(pc) == Excludes(pcs[t]) && Counted(pc) != Counted(pcs[t])
    ensures |pcs[t := pc]| == |pcs| && Sharing(pcs[t := pc]) == Sharing(pcs) && Excluding(pcs[t := pc]) == Excluding(pcs)
    ensures |Counting(pcs[t := pc])| == |Counting(pcs)| + if Counted(pc) then 1 else -1
  {
    Moved(pcs, t, pc);
  }

  lemma CountDown(state: int, count: int, owner: Owner, pcs: Pcs, t: nat, pc: Pc)
    requires Ok(state, count, owner, pcs) && t in pcs && LocalOk(pc) && Counted(pcs[t]) && !Counted(pc)
    requires Shares(pc) == Shares(pcs[t]) && Excludes(pc) == Excludes(pcs[t]) && Owns(pc) == Owns(pcs[t])
    ensures Ok(state, count - 1, owner, pcs[t := pc])
    ensures Owns(pcs[t]) ==> owner == By(t)
  {
    CountMoved(pcs, t, pc);
    hide Sharing, Excluding, Counting, Shares, Excludes, Counted, Owns, LocalOk;
  }

  /** No thread can be the owner while the word has no exclusive bit. */
  lemma NoOwner(state: int, count: int, owner: Owner, pcs: Pcs)
    requires Ok(state, count, owner, pcs) && state != EXCLUSIVE
    ensures owner == Nobody
  {
    assert forall x :: x in pcs && Owns(pcs[x]) ==> x in Excluding(pcs);
  }

  lemma Exclude(state: int, count: int, owner: Owner, pcs: Pcs, t: nat)
    requires Ok(state, count, owner, pcs) && t in pcs && pcs[t].ExCas? && state == 0
    ensures owner == Nobody && Ok(EXCLUSIVE, count, owner, pcs[t := ExOwn])
  {
    Moved(pcs, t, ExOwn);
    NoOwner(state, count, owner, pcs);
    assert Counting(pcs) + {t} == Counting(pcs) && Sharing(pcs) - {t} == Sharing(pcs);
    hide Sharing, Excluding, Counting;
  }

  lemma Upgrade(state: int, count: int, owner: Owner, pcs: Pcs, t: nat)
    requires Ok(state, count, owner, pcs) && t in pcs && pcs[t].UpCas? && state == 1
    ensures owner == Nobody && Ok(EXCLUSIVE, count, owner, pcs[t := ExOwn])
  {
    Moved(pcs, t, ExOwn);
    NoOwner(state, count, owner, pcs);
    assert Counting(pcs) + {t} == Counting(pcs);
    Subset({t}, Sharing(pcs));
    hide Sharing, Excluding, Counting;
  }

  lemma SetOwner(state: int, count: int, owner: Owner, pcs: Pcs, t: nat)
    requires Ok(state, count, owner, pcs) && t in pcs && pcs[t].ExOwn?
    ensures owner == Nobody && Ok(state, count, By(t), pcs[t := Writer])
  {
    SetsKept(pcs, t, Writer);
    assert t in Excluding(pcs);
    assert forall x :: x in pcs && Owns(pcs[x]) ==> x in Excluding(pcs);
    hide Sharing, Counting;
  }

  lemma UnsetOwner(state: int, count: int, owner: Owner, pcs: Pcs, t: nat)
    requires Ok(state, count, owner, pcs) && t in pcs && pcs[t].RelOwner?
    ensures owner == By(t) && Ok(state, count, Nobody, pcs[t := RelState])
  {
    SetsKept(pcs, t, RelState);
    hide Sharing, Excluding, Counting;
  }

  lemma Include(state: int, count: int, owner: Owner, pcs: Pcs, t: nat)
    requires Ok(state, count, owner, pcs) && t in pcs && pcs[t].RelState?
    ensures state == EXCLUSIVE && Ok(0, count, owner, pcs[t := RelAlarm])
  {
    hide Sharing, Excluding, Counting;
    WriterLeft(pcs, t);
    assert Excluding(pcs) == {t};
  }

  lemma WriterLeft(pcs: Pcs, t: nat)
    requires t in pcs && pcs[t].RelState?
    ensures |pcs[t := RelAlarm]| == |pcs| && t in Excluding(pcs)
    ensures Excluding(pcs[t := RelAlarm]) == Excluding(pcs) - {t}
    ensures Sharing(pcs[t := RelAlarm]) == Sharing(pcs) && Counting(pcs[t := RelAlarm]) == Counting(pcs)
  {
    Moved(pcs, t, RelAlarm);
  }
}
