/** Conservation of time: every slot the kernel counts was charged to exactly one thread. */
module Conservation {
  import opened Words
  import opened KernelState
  import opened Scheduling
  import opened Ceilings
  import opened Admission
  import opened UnlockSteps
  import opened Runs

  /** Active time summed over the first k control blocks (users, then idle, then main). */
  function TotalTime(threads: seq<Tcb>, k: nat): (r: nat)
    requires k <= |threads|
  {
    if k == 0 then 0 else TotalTime(threads, k - 1) + threads[k-1].activeTime
  }

  ghost predicate SameTimes(a: seq<Tcb>, b: seq<Tcb>) {
    |a| == |b| && forall i :: 0 <= i < |a| ==> b[i].activeTime == a[i].activeTime
  }

  /** All times equal except that thread p was charged one slot. */
  ghost predicate OneCharged(a: seq<Tcb>, b: seq<Tcb>, p: nat) {
    && |a| == |b| && p < |a|
    && forall i :: 0 <= i < |a| ==> b[i].activeTime == if i == p then Inc(a[i].activeTime) else a[i].activeTime
  }

  lemma {:induction false} SameTotal(a: seq<Tcb>, b: seq<Tcb>, k: nat)
    requires SameTimes(a, b) && k <= |a|
    ensures TotalTime(a, k) == TotalTime(b, k)
  {
    if k == 0 {
    } else {
      SameTotal(a, b, k - 1);
    }
  }

  lemma {:induction false} ChargedTotal(a: seq<Tcb>, b: seq<Tcb>, p: nat, k: nat)
    requires OneCharged(a, b, p) && k <= |a| && a[p].activeTime < MAX
    ensures TotalTime(b, k) == TotalTime(a, k) + if p < k then 1 else 0
  {
    if k == 0 {
    } else {
      ChargedTotal(a, b, p, k - 1);
    }
  }

  /** An action that neither redefines a thread nor restarts the clock. */
  predicate KeepsClock(s: KState, act: Action)
    requires Shape(s)
  {
    match act
    case DoDefine(id, noFn, c, t) => DefineCode(s, id, noFn, c, t) != SUCCESS
    case DoStart(_) => false
    case _ => true
  }

  lemma SettleTimes(s: KState)
    requires Shape(s) && !s.preempt
    ensures SameTimes(s.threads, Settle(s).threads) && Settle(s).timeslot == s.timeslot
  {
  }

  lemma TickTimes(s: KState)
    requires Shape(s)
    ensures OneCharged(s.threads, Tick(s).threads, s.active) && Tick(s).timeslot == Inc(s.timeslot)
  {
  }

  lemma AttemptTimes(s: KState, m: nat)
    requires Shape(s) && m < s.defined && s.active < s.n
    ensures var r := Attempt(s, m);
            SameTimes(s.threads, r.threads) && r.timeslot == s.timeslot && r.preempt == s.preempt
  {
  }

  lemma SparedTimes(s: KState, r: KState)
    requires Shape(s) && Shape(r) && Spared(s, r)
    ensures SameTimes(s.threads, r.threads)
  {
    forall i | 0 <= i < |s.threads| ensures r.threads[i].activeTime == s.threads[i].activeTime {
      assert Untouched(s.threads[i], r.threads[i]);
    }
  }

  lemma EndTimes(s: KState)
    requires Inv(s) && InUserCode(s)
    ensures SameTimes(s.threads, Settle(End(s)).threads) && Settle(End(s)).timeslot == s.timeslot
  {
    ReleaseFromKeeps(s, 0);
    SparedTimes(s, ReleaseFrom(s, 0));
    SettleTimes(Retire(ReleaseFrom(s, 0)));
  }

  lemma LockTimes(s: KState, m: nat)
    requires Inv(s) && InUserCode(s) && m < s.defined
    ensures SameTimes(s.threads, Settle(Lock(s, m)).threads) && Settle(Lock(s, m)).timeslot == s.timeslot
  {
    if s.threads[s.active].staticPrio < s.locks[m].ceiling {
      EndTimes(s);
    } else if s.locks[m].locker != Some(s.active) {
      AttemptTimes(s, m);
      SettleTimes(Attempt(s, m));
    }
  }

  lemma UnlockTimes(s: KState, m: nat)
    requires Inv(s) && Enabled(s, DoUnlock(m))
    ensures SameTimes(s.threads, Settle(Unlock(s, m)).threads) && Settle(Unlock(s, m)).timeslot == s.timeslot
  {
    if Locked(s.locks[m]) {
      UnlockSpares(s, m);
      SparedTimes(s, Unlock(s, m));
      SettleTimes(Unlock(s, m));
    }
  }

  /** Only ticks move time. */
  lemma StepTimes(s: KState, act: Action)
    requires Inv(s) && Enabled(s, act) && KeepsClock(s, act) && !act.DoTick?
    ensures SameTimes(s.threads, Next(s, act).threads) && Next(s, act).timeslot == s.timeslot
  {
    match act
    case DoLock(m) => LockTimes(s, m);
    case DoRetry =>
      assert PendingInRange(s.threads[s.active], s.defined);
      var m := s.threads[s.active].pending.value;
      AttemptTimes(s, m);
      SettleTimes(Attempt(s, m));
    case DoUnlock(m) => UnlockTimes(s, m);
    case DoYield => SettleTimes(Yield(s));
    case DoEnd => if s.active < s.n { EndTimes(s); }
    case DoDefine(id, noFn, c, t) =>
    case DoLockInit(prio) =>
  }

  /** The clock is kept over the whole run. */
  ghost predicate ClockKept(s: KState, acts: seq<Action>)
    requires Shape(s)
    decreases |acts|
  {
    acts == [] || (ClockKept(s, acts[..|acts|-1]) && KeepsClock(Reach(s, acts[..|acts|-1]), acts[|acts|-1]))
  }

  /** No counter can wrap within the given number of steps. */
  ghost predicate RoomFor(s: KState, steps: nat) {
    s.timeslot + steps <= MAX && forall i :: 0 <= i < |s.threads| ==> s.threads[i].activeTime + steps <= MAX
  }

  /** The active time gained by users, idle and main together is the time the kernel counted. */
  lemma {:induction false} TimeConserved(s: KState, acts: seq<Action>)
    requires Inv(s) && Legal(s, acts) && ClockKept(s, acts) && RoomFor(s, |acts|)
    ensures var r := Reach(s, acts);
            && |r.threads| == |s.threads|
            && TotalTime(r.threads, |r.threads|) - TotalTime(s.threads, |s.threads|) == r.timeslot - s.timeslot
            && r.timeslot <= s.timeslot + |acts|
            && (forall i :: 0 <= i < |s.threads| ==> r.threads[i].activeTime <= s.threads[i].activeTime + |acts|)
    decreases |acts|
  {
    if acts == [] {
    } else {
      var front := acts[..|acts|-1];
      var act := acts[|acts|-1];
      TimeConserved(s, front);
      RunKeeps(s, front);
      TimeStep(Reach(s, front), act);
    }
  }

  lemma TimeStep(u: KState, act: Action)
    requires Inv(u) && Enabled(u, act) && KeepsClock(u, act) && RoomFor(u, 1)
    ensures var r := Next(u, act);
            && |r.threads| == |u.threads|
            && TotalTime(r.threads, |r.threads|) - TotalTime(u.threads, |u.threads|) == r.timeslot - u.timeslot
            && r.timeslot <= u.timeslot + 1
            && (forall i :: 0 <= i < |u.threads| ==> r.threads[i].activeTime <= u.threads[i].activeTime + 1)
  {
    if act.DoTick? {
      TickTimes(u);
      ChargedTotal(u.threads, Tick(u).threads, u.active, |u.threads|);
    } else {
      StepTimes(u, act);
      SameTotal(u.threads, Next(u, act).threads, |u.threads|);
    }
  }
}
