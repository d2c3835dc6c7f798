/** A thread that has yielded, or used up its budget, does not run again before its next release. */
module Sleep {
  import opened Words
  import opened KernelState
  import opened Scheduling
  import opened Ceilings
  import opened Priorities
  import opened Admission
  import opened LockInvariant
  import opened UnlockSteps
  import opened Runs
  import opened Protocol
  import opened Budgets

  /** Thread i waits for its release, stands in no queue, and its release clock shows d. */
  ghost predicate Asleep(s: KState, i: nat, d: Word)
    requires Shape(s)
  {
    && i < s.n && s.active != i && s.threads[i].state == Waiting && s.threads[i].untilRelease == d
    && !InSomeQueue(s, i)
  }

  lemma SettleSleeps(s: KState, i: nat)
    requires Shape(s) && !s.preempt && i < s.n && s.threads[i].state == Waiting && !InSomeQueue(s, i)
    requires !s.pendsv ==> s.active != i
    ensures Asleep(Settle(s), i, s.threads[i].untilRelease)
  {
    SelectMeaning(s);
    SettleQueues(s, i);
  }

  /** A yield puts the caller to sleep. */
  lemma YieldSleeps(s: KState)
    requires Inv(s) && InUserCode(s)
    ensures Asleep(Next(s, DoYield), s.active, s.threads[s.active].untilRelease)
  {
    UserCodeNotQueued(s);
    SameQueues(s, Yield(s), s.active);
    SettleSleeps(Yield(s), s.active);
  }

  lemma SameQueues(s: KState, r: KState, i: nat)
    requires Shape(s) && Shape(r) && r.locks == s.locks && r.defined == s.defined && !InSomeQueue(s, i)
    ensures !InSomeQueue(r, i)
  {
    forall x: nat ensures !Queued(r, x, i) { assert !Queued(s, x, i); }
  }

  lemma LiveIsActive(s: KState, i: nat)
    requires Shape(s) && AdmissionInv(s) && Live(s, i)
    ensures s.numActive > 0
  {
    assert IsLive(s.threads, s.n, i) && i in LiveSet(s.threads, s.n);
  }

  /** So does a tick that uses up the budget of a thread in its own code, unless it is also its release. */
  lemma ExhaustionSleeps(s: KState)
    requires Inv(s) && InUserCode(s) && s.threads[s.active].remaining == 1
    requires Dec(s.threads[s.active].untilRelease) != 0
    ensures Asleep(Next(s, DoTick), s.active, Dec(s.threads[s.active].untilRelease))
  {
    LiveIsActive(s, s.active);
    UserCodeNotQueued(s);
    TickQueues(s, s.active);
    DryTick(s);
    hide Inv, Shape, Tick, InSomeQueue;
  }

  lemma DryTick(s: KState)
    requires Shape(s) && s.active < s.n && s.numActive != 0 && s.threads[s.active].remaining == 1
    requires Dec(s.threads[s.active].untilRelease) != 0
    ensures var r := Tick(s);
            && r.n == s.n && r.active != s.active && r.threads[s.active].state == Waiting
            && r.threads[s.active].untilRelease == Dec(s.threads[s.active].untilRelease)
  {
    SelectMeaning(Charge(s.(preempt := true, pendsv := true)));
    hide Select;
  }

  /** A tick moves a sleeper's clock; the tick on which it runs out readies the sleeper for the next choice,
      not for the one being made. */
  lemma TickSleeps(s: KState, i: nat, d: Word)
    requires Inv(s) && Asleep(s, i, d)
    ensures Dec(d) != 0 ==> Asleep(Tick(s), i, Dec(d))
    ensures Dec(d) == 0 ==> Tick(s).threads[i].state == Ready && Tick(s).active != i
  {
    LiveIsActive(s, i);
    TickQueues(s, i);
    SelectMeaning(Charge(s.(preempt := true, pendsv := true)));
  }

  /** An unlock wakes queued threads only. */
  lemma UnlockSleeps(s: KState, m: nat, i: nat, d: Word)
    requires Shape(s) && LockInv(s) && CanUnlock(s, m) && Asleep(s, i, d)
    ensures Unlock(s, m).active == s.active && Asleep(Unlock(s, m), i, d)
  {
    UnlockQueues(s, m, i);
    UnlockShape(s, m);
    UnlockSpares(s, m);
    hide Unlock, LockInv, CanUnlock;
    assert Untouched(s.threads[i], Unlock(s, m).threads[i]);
  }

  lemma {:induction false} ReleaseFromSleeps(s: KState, k: nat, i: nat, d: Word)
    requires Shape(s) && k <= s.defined && Ending(s, k) && Asleep(s, i, d)
    ensures Asleep(ReleaseFrom(s, k), i, d)
    decreases s.defined - k
  {
    hide Unlock;
    hide LockInv;
    hide Asleep;
    if k == s.defined {
    } else {
      ReleaseOne(s, k);
      if s.locks[k].locker == Some(s.active) {
        UnlockSleeps(s, k, i, d);
      }
      ReleaseFromSleeps(if s.locks[k].locker == Some(s.active) then Unlock(s, k) else s, k + 1, i, d);
    }
  }

  lemma EndSleeps(s: KState, i: nat, d: Word)
    requires Inv(s) && InUserCode(s) && Asleep(s, i, d)
    ensures Asleep(Settle(End(s)), i, d)
  {
    ReleaseFromKeeps(s, 0);
    ReleaseFromSleeps(s, 0, i, d);
    var u := ReleaseFrom(s, 0);
    SameQueues(u, Retire(u), i);
    SettleSleeps(Retire(u), i);
  }

  lemma AttemptSleeps(s: KState, m: nat, i: nat, d: Word)
    requires Inv(s) && s.active < s.n && m < s.defined && Asleep(s, i, d)
    ensures Asleep(Settle(Attempt(s, m)), i, d)
  {
    AttemptOnlyBlocks(s, m, i);
    AttemptQueues(s, m, i);
    SettleSleeps(Attempt(s, m), i);
  }

  lemma DefineSleeps(s: KState, id: Word, noFn: bool, c: Word, t: Word, i: nat, d: Word)
    requires Inv(s) && Asleep(s, i, d)
    ensures Asleep(Define(s, id, noFn, c, t), i, d)
  {
    var r := Define(s, id, noFn, c, t);
    SameQueues(s, r, i);
    if DefineCode(s, id, noFn, c, t) == SUCCESS {
      var slot := FreeSlot(s.threads, s.n).value;
      var th := s.threads[slot := Defined(s.threads[slot], id, c, t)];
      assert r.threads[i] == Ranked(th, s.n, i);
    }
  }

  lemma LockInitSleeps(s: KState, prio: Word, i: nat, d: Word)
    requires Inv(s) && Asleep(s, i, d)
    ensures Asleep(LockInit(s, prio), i, d)
  {
    var r := LockInit(s, prio);
    forall x: nat ensures !Queued(r, x, i) { assert !Queued(s, x, i); }
  }

  lemma StartSleeps(s: KState, freq: Word, i: nat, d: Word)
    requires Inv(s) && s.active == s.n + 1 && Asleep(s, i, d)
    ensures Asleep(Settle(Start(s, freq)), i, d)
  {
    StartQueues(s, freq, i);
    var r := Start(s, freq);
    SettleSleeps(r, i);
  }

  /** No step but a tick touches a sleeper. */
  lemma StepSleeps(s: KState, act: Action, i: nat, d: Word)
    requires Inv(s) && Enabled(s, act) && !act.DoTick? && Asleep(s, i, d)
    ensures Asleep(Next(s, act), i, d)
  {
    match act
    case DoLock(m) =>
      if s.threads[s.active].staticPrio < s.locks[m].ceiling { EndSleeps(s, i, d); }
      else if s.locks[m].locker != Some(s.active) { AttemptSleeps(s, m, i, d); }
    case DoRetry =>
      assert PendingInRange(s.threads[s.active], s.defined);
      AttemptSleeps(s, s.threads[s.active].pending.value, i, d);
    case DoUnlock(m) =>
      if Locked(s.locks[m]) {
        UnlockSleeps(s, m, i, d);
        UnlockSpares(s, m);
        SettleSleeps(Unlock(s, m), i);
      }
    case DoYield => SameQueues(s, Yield(s), i); SettleSleeps(Yield(s), i);
    case DoEnd => if s.active < s.n { EndSleeps(s, i, d); } else { SettleSleeps(s, i); }
    case DoDefine(id, noFn, c, t) => DefineSleeps(s, id, noFn, c, t, i, d);
    case DoLockInit(prio) => LockInitSleeps(s, prio, i, d);
    case DoStart(freq) => StartSleeps(s, freq, i, d);
  }

  /** The number of ticks in a run. */
  function Ticks(acts: seq<Action>): (r: nat)
    ensures r <= |acts|
  {
    if acts == [] then 0 else Ticks(acts[..|acts|-1]) + if acts[|acts|-1].DoTick? then 1 else 0
  }

  lemma AnyStepSleeps(s: KState, act: Action, i: nat, d: Word)
    requires Inv(s) && Enabled(s, act) && Asleep(s, i, d) && (act.DoTick? ==> d > 1)
    ensures Asleep(Next(s, act), i, if act.DoTick? then d - 1 else d)
  {
    if act.DoTick? {
      TickSleeps(s, i, d);
      NextTick(s);
    } else {
      StepSleeps(s, act, i, d);
    }
  }

  /** A thread asleep with d ticks left on its clock stays asleep for the next d - 1 ticks, whatever the other
      threads do in between. */
  lemma {:induction false} SleepsUntilRelease(s: KState, acts: seq<Action>, i: nat, d: Word)
    requires Inv(s) && Legal(s, acts) && Asleep(s, i, d) && Ticks(acts) < d
    ensures Asleep(Reach(s, acts), i, d - Ticks(acts))
    decreases |acts|
  {
    if acts != [] {
      var front, act := acts[..|acts|-1], acts[|acts|-1];
      SleepsUntilRelease(s, front, i, d);
      RunKeeps(s, front);
      AnyStepSleeps(Reach(s, front), act, i, d - Ticks(front));
    }
  }
}
