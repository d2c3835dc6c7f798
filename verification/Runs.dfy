/** Runs of the kernel: every system call and every tick, in any order, keeps the global invariant. */
module Runs {
  import opened Words
  import opened KernelState
  import opened Scheduling
  import opened Ceilings
  import opened Priorities
  import opened Admission
  import opened LockInvariant
  import opened LockSteps
  import opened UnlockSteps

  datatype Action =
    | DoLock(m: nat)
    | DoRetry                // the thread resumes inside `syscall_lock`
    | DoUnlock(m: nat)
    | DoYield
    | DoEnd
    | DoTick
    | DoDefine(id: Word, noFn: bool, c: Word, t: Word)
    | DoLockInit(prio: Word)
    | DoStart(freq: Word)

  /** The active thread is a user thread executing its own code. */
  predicate InUserCode(s: KState)
    requires Shape(s)
  {
    s.active < s.n && s.threads[s.active].pending == None
  }

  /** Which actions can come next. A suspended thread can only resume its request; a lock is unlocked by
      its holder; main takes no locks and neither yields nor ends; no definition is accepted while a lock is
      held or asked for, or for the pair the priority search starts from. */
  ghost predicate Permitted(s: KState, act: Action)
    requires Shape(s)
  {
    match act
    case DoLock(m) => InUserCode(s) && m < s.defined
    case DoRetry => s.active < s.n && s.threads[s.active].pending.Some?
    case DoUnlock(m) => InUserCode(s) && m < s.defined && (!Locked(s.locks[m]) || s.locks[m].locker == Some(s.active))
    case DoYield => InUserCode(s) || s.active == s.n
    case DoEnd => InUserCode(s) || s.active == s.n
    case DoTick => true
    case DoDefine(id, noFn, c, t) =>
      DefineCode(s, id, noFn, c, t) == SUCCESS ==> Quiet(s) && !(id == MAX && t == MAX)
    case DoLockInit(_) => true
    case DoStart(_) => s.active == s.n + 1
  }

  /** The action is a request whose refusal would write past the end of a wait list. */
  predicate Overflows(s: KState, act: Action)
    requires Shape(s)
  {
    match act
    case DoLock(m) =>
      && InUserCode(s) && m < s.defined && s.locks[m].ceiling <= s.threads[s.active].staticPrio
      && s.locks[m].locker != Some(s.active) && Overruns(s, m)
    case DoRetry =>
      assert PendingInRange(s.threads[s.active], s.defined);
      s.active < s.n && s.threads[s.active].pending.Some? && Overruns(s, s.threads[s.active].pending.value)
    case _ => false
  }

  /** Which actions can come next and stay inside the wait lists. */
  ghost predicate Enabled(s: KState, act: Action)
    requires Shape(s)
  {
    Permitted(s, act) && !Overflows(s, act)
  }

  function Next(s: KState, act: Action): (r: KState)
    requires Shape(s)
    ensures Shape(r) && r.n == s.n
  {
    match act
    case DoLock(m) => if m < s.defined && s.active < s.n then Settle(Lock(s, m)) else s
    case DoRetry =>
      assert PendingInRange(s.threads[s.active], s.defined);
      if s.active < s.n && s.threads[s.active].pending.Some?
      then Settle(Attempt(s, s.threads[s.active].pending.value)) else s
    case DoUnlock(m) => if m < s.defined then Settle(Unlock(s, m)) else s
    case DoYield => Settle(Yield(s))
    case DoEnd => Settle(End(s))
    case DoTick => Tick(s)
    case DoDefine(id, noFn, c, t) => Define(s, id, noFn, c, t)
    case DoLockInit(prio) => LockInit(s, prio)
    case DoStart(freq) => Settle(Start(s, freq))
  }

  /** The state `syscall_multitask_request` leaves: free slots, an idle thread, main running. */
  ghost predicate Initial(s: KState) {
    && 1 <= s.n <= MAX_NUM_THREADS && |s.threads| == s.n + 2
    && |s.locks| == MAX_USER_LOCKS && s.defined == 0 && s.numLocks <= MAX_USER_LOCKS
    && (forall x :: 0 <= x < |s.locks| ==> s.locks[x].locker == None && s.locks[x].waiters == [])
    && (forall i :: 0 <= i < |s.threads| ==> s.threads[i].pending == None)
    && (forall i :: 0 <= i < s.n ==> s.threads[i].state == Defunct)
    && s.threads[s.n].state == Ready && s.threads[s.n].remaining == 1
    && s.active == s.n + 1 && s.numActive == 0 && s.utilization == 0.0
    && s.ceiling == MAX && s.top == None && !s.preempt && !s.pendsv && !s.started
  }

  ghost predicate Inv(s: KState) {
    && Shape(s)
    && LockInv(s)
    && AdmissionInv(s)
    && OneRunning(s)
    && (s.active == s.n + 1 ==> Quiet(s))
    && !s.pendsv && !s.preempt
  }

  // ----- runs

  /** The state after the given actions. */
  function Reach(s: KState, acts: seq<Action>): (r: KState)
    requires Shape(s)
    ensures Shape(r) && r.n == s.n
    decreases |acts|
  {
    if acts == [] then s else Next(Reach(s, acts[..|acts|-1]), acts[|acts|-1])
  }

  /** Each action is possible in the state it is taken in. */
  ghost predicate Legal(s: KState, acts: seq<Action>)
    requires Shape(s)
    decreases |acts|
  {
    acts == [] || (Legal(s, acts[..|acts|-1]) && Enabled(Reach(s, acts[..|acts|-1]), acts[|acts|-1]))
  }

  /** Each action is possible, but may have overflowed a wait list. */
  ghost predicate PermittedRun(s: KState, acts: seq<Action>)
    requires Shape(s)
    decreases |acts|
  {
    acts == [] || (PermittedRun(s, acts[..|acts|-1]) && Permitted(Reach(s, acts[..|acts|-1]), acts[|acts|-1]))
  }

  // ----- the scheduler's half of a step

  lemma PendSVSameLocking(s: KState)
    requires Shape(s) && (s.preempt && s.active < s.n ==> s.threads[s.active].state == Running)
    ensures SameLocking(s, PendSV(s))
    ensures SameTasks(s.threads, PendSV(s).threads, s.n)
    ensures PendSV(s).numActive == s.numActive && PendSV(s).utilization == s.utilization
  {
    PendSVGlobals(s);
    forall i | 0 <= i < s.n
      ensures SameTcb(s.threads[i], PendSV(s).threads[i]) && SameTask(s.threads[i], PendSV(s).threads[i])
    {
      PendSVThread(s, i);
    }
  }

  lemma PendSVGlobals(s: KState)
    requires Shape(s)
    ensures var r := PendSV(s);
            && r.n == s.n && r.defined == s.defined && r.locks == s.locks && r.ceiling == s.ceiling && r.top == s.top
            && r.numActive == s.numActive && r.utilization == s.utilization
  {
  }

  lemma PendSVThread(s: KState, i: nat)
    requires Shape(s) && (s.preempt && s.active < s.n ==> s.threads[s.active].state == Running) && i < s.n
    ensures SameTcb(s.threads[i], PendSV(s).threads[i]) && SameTask(s.threads[i], PendSV(s).threads[i])
  {
  }

  /** With no thread active there is nobody to hold a lock or to be suspended. */
  lemma NoneActiveQuiet(s: KState)
    requires Shape(s) && LockInv(s) && AdmissionInv(s) && s.numActive == 0
    ensures Quiet(s)
  {
    assert LiveSet(s.threads, s.n) == {};
    forall i | 0 <= i < s.n ensures s.threads[i].state == Defunct {
      assert i !in LiveSet(s.threads, s.n);
    }
    forall x | 0 <= x < s.defined ensures s.locks[x].s != 0 { assert OwnedLock(s, x); }
    assert forall i :: 0 <= i < s.n && s.threads[i].pending.Some? ==> s.threads[i].state != Defunct by {
      forall i | 0 <= i < s.n && s.threads[i].pending.Some? ensures s.threads[i].state != Defunct {
        SuspendedAt(s, i);
      }
    }
  }

  lemma SuspendedAt(s: KState, i: nat)
    requires Shape(s) && Suspended(s) && i < s.n && s.threads[i].pending.Some?
    ensures SuspendedOk(s, i)
  {
  }

  /** Nobody holds a lock that is not locked. */
  lemma QuietNoHolder(s: KState)
    requires Shape(s) && Owned(s) && forall x :: 0 <= x < s.defined ==> s.locks[x].s != 0
    ensures forall x: nat, i: nat :: !HeldBy(s, x, i)
  {
    forall x: nat, i: nat ensures !HeldBy(s, x, i) {
      if x < s.defined { OwnedAt(s, x); }
    }
  }

  /** What a syscall has to leave behind for the PendSV it pends. */
  ghost predicate Unsettled(s: KState)
    requires Shape(s)
  {
    && LockInv(s) && AdmissionInv(s) && !s.preempt
    && (forall i :: 0 <= i < s.n && s.threads[i].state == Running ==> i == s.active)
    && (s.active < s.n ==> (s.pendsv <==> s.threads[s.active].state != Running))
    && (!s.pendsv && s.active == s.n + 1 ==> Quiet(s))
  }

  lemma SettleKeeps(s: KState)
    requires Shape(s) && Unsettled(s)
    ensures Inv(Settle(s))
  {
    if s.pendsv { PendSVKeeps(s); }
  }

  lemma PendSVKeeps(s: KState)
    requires Shape(s) && LockInv(s) && AdmissionInv(s)
    requires forall i :: 0 <= i < s.n && s.threads[i].state == Running ==> i == s.active
    requires s.active < s.n ==> (s.preempt <==> s.threads[s.active].state == Running)
    ensures Inv(PendSV(s))
  {
    var r := PendSV(s);
    PendSVSameLocking(s);
    SameLockingKeeps(s, r);
    SameTasksKeep(s, r);
    PendSVRunsOne(s);
    if r.active == r.n + 1 {
      SelectMeaning(if s.preempt then Charge(s) else s);
      NoneActiveQuiet(r);
    }
  }

  // ----- each action

  /** Legal or illegal, a lock request leaves things in order; an illegal one ends the thread. */
  lemma LockKeeps(s: KState, m: nat)
    requires Inv(s) && InUserCode(s) && m < s.defined && !Overflows(s, DoLock(m))
    ensures Inv(Settle(Lock(s, m)))
  {
    if s.threads[s.active].staticPrio < s.locks[m].ceiling {
      EndKeepsInv(s);
    } else if s.locks[m].locker != Some(s.active) {
      AttemptKeeps(s, m);
    }
  }

  lemma AttemptKeeps(s: KState, m: nat)
    requires Inv(s) && s.active < s.n && m < s.defined
    requires s.locks[m].locker != Some(s.active) && s.locks[m].ceiling <= s.threads[s.active].staticPrio
    requires !Overruns(s, m)
    ensures Inv(Settle(Attempt(s, m)))
  {
    if Admits(s) && s.locks[m].s != 0 {
      AcquireKeeps(s, m);
      var r := Acquire(s, m);
      assert SameTasks(s.threads, r.threads, s.n);
      SameTasksKeep(s, r);
    } else {
      BlockKeepsIff(s, m);
      BlockIsRefused(s, m);
      BlockPends(s, m);
      RefusedUnsettled(s, m, Block(s, m));
      SettleKeeps(Block(s, m));
    }
  }

  lemma BlockPends(s: KState, m: nat)
    requires Shape(s) && s.active < s.n && m < s.defined
    ensures var r := Block(s, m);
            r.pendsv && r.preempt == s.preempt && r.numActive == s.numActive && r.utilization == s.utilization
  {
  }

  lemma RefusedUnsettled(s: KState, m: nat, r: KState)
    requires Inv(s) && s.active < s.n && CanBlock(s, m) && Refused(s, m, r) && LockInv(r)
    requires r.pendsv && !r.preempt && r.numActive == s.numActive && r.utilization == s.utilization
    ensures Unsettled(r)
  {
    forall i | 0 <= i < s.n
      ensures SameTask(s.threads[i], r.threads[i])
      ensures r.threads[i].state == Running ==> i != s.active && s.threads[i].state == Running
    {
      RefusedAt(s, m, r, i);
    }
    RefusedAt(s, m, r, s.active);
    SameTasksKeep(s, r);
  }

  lemma UnlockKeepsInv(s: KState, m: nat)
    requires Inv(s) && InUserCode(s) && m < s.defined
    requires !Locked(s.locks[m]) || s.locks[m].locker == Some(s.active)
    ensures Inv(Settle(Unlock(s, m)))
  {
    if Locked(s.locks[m]) {
      UnlockKeeps(s, m);
      UnlockSpares(s, m);
      var r := Unlock(s, m);
      SparedSameTasks(s, r);
      SettleKeeps(r);
    }
  }

  lemma SparedSameTasks(s: KState, r: KState)
    requires Shape(s) && Shape(r) && Spared(s, r)
    requires forall i :: 0 <= i < s.n && s.threads[i].state == Running ==> i == s.active
    ensures SameTasks(s.threads, r.threads, s.n)
    ensures AdmissionInv(s) ==> AdmissionInv(r)
    ensures forall i :: 0 <= i < r.n && r.threads[i].state == Running ==> i == r.active
  {
    forall i | 0 <= i < s.n
      ensures SameTask(s.threads[i], r.threads[i])
      ensures r.threads[i].state == Running ==> i == r.active
    {
      assert Untouched(s.threads[i], r.threads[i]);
    }
    if AdmissionInv(s) { SameTasksKeep(s, r); }
  }

  lemma EndKeepsInv(s: KState)
    requires Inv(s) && InUserCode(s)
    ensures Inv(Settle(End(s)))
  {
    var u := ReleaseFrom(s, 0);
    ReleaseFromKeeps(s, 0);
    SparedSameTasks(s, u);
    RetireKeeps(u);
    RetireKeepsAdmission(u);
    SettleKeeps(Retire(u));
  }

  lemma YieldKeeps(s: KState)
    requires Inv(s) && (InUserCode(s) || s.active == s.n)
    ensures Inv(Settle(Yield(s)))
  {
    var r := Yield(s);
    assert forall i :: 0 <= i < s.n ==> SameTcb(s.threads[i], r.threads[i]) && SameTask(s.threads[i], r.threads[i]);
    SameLockingKeeps(s, r);
    SameTasksKeep(s, r);
    SettleKeeps(r);
  }

  lemma TickKeeps(s: KState)
    requires Inv(s)
    ensures Inv(Tick(s))
  {
    var r := s.(preempt := true, pendsv := true);
    SameLockingKeeps(s, r);
    SameTasksKeep(s, r);
    PendSVKeeps(r);
  }

  /** Re-ordering every priority is safe while no lock is held or asked for. */
  lemma QuietReorderKeeps(s: KState, r: KState)
    requires Shape(s) && LockInv(s) && Quiet(s) && Shape(r)
    requires r.n == s.n && r.defined == s.defined && r.ceiling == s.ceiling && r.top == s.top
    requires forall x :: 0 <= x < s.defined ==> r.locks[x].(ceiling := 0) == s.locks[x].(ceiling := 0)
    requires forall i :: 0 <= i < r.n ==> r.threads[i].pending == None && r.threads[i].state != Blocked
    requires forall i :: 0 <= i < r.n && r.threads[i].state != Defunct ==>
               r.threads[i].staticPrio == r.threads[i].dynPrio < MAX
    ensures LockInv(r) && Quiet(r)
  {
    forall x | 0 <= x < r.defined
      ensures OwnedLock(r, x) && r.locks[x].s == s.locks[x].s == 1
      ensures r.locks[x].waiters == [] && r.locks[x].locker == None && ListFits(r.locks[x])
    {
      assert OwnedLock(s, x);
      assert r.locks[x].(ceiling := 0) == s.locks[x].(ceiling := 0);
    }
    forall i | 0 <= i < r.n && r.threads[i].state != Defunct ensures PriorityOk(r, i) {}
  }

  lemma DefineKeeps(s: KState, id: Word, noFn: bool, c: Word, t: Word)
    requires Inv(s)
    requires DefineCode(s, id, noFn, c, t) == SUCCESS ==> Quiet(s) && !(id == MAX && t == MAX)
    ensures Inv(Define(s, id, noFn, c, t))
  {
    if DefineCode(s, id, noFn, c, t) == SUCCESS {
      var r := Define(s, id, noFn, c, t);
      DefineKeepsAdmission(s, id, noFn, c, t);
      var slot := FreeSlot(s.threads, s.n).value;
      var th := s.threads[slot := Defined(s.threads[slot], id, c, t)];
      forall i | 0 <= i < s.n
        ensures r.threads[i].pending == None && r.threads[i].state == th[i].state && th[i].state != Blocked
        ensures r.threads[i].state != Defunct ==> r.threads[i].staticPrio == r.threads[i].dynPrio < MAX
      {
        assert r.threads[i] == Ranked(th, s.n, i);
        RankBound(th, s.n, i);
      }
      QuietReorderKeeps(s, r);
    }
  }

  lemma LockInitKeeps(s: KState, prio: Word)
    requires Inv(s)
    ensures Inv(LockInit(s, prio))
  {
    var r := LockInit(s, prio);
    if r != s {
      forall x | 0 <= x < r.defined
        ensures OwnedLock(r, x) && r.locks[x].locker == None && r.locks[x].waiters == [] && r.locks[x].s != 0
        ensures ListFits(r.locks[x])
      {
        if x < s.defined { assert OwnedLock(s, x); }
      }
      QuietNoHolder(s);
      forall i | 0 <= i < r.n && r.threads[i].state != Defunct ensures PriorityOk(r, i) { assert PriorityOk(s, i); }
    }
  }

  /** `validate_ceiling_id` changes nothing but ceilings. */
  lemma {:induction false} ValidateChangesCeilings(s: KState, k: nat)
    requires Shape(s) && k <= s.defined
    ensures var r := Validate(s, k);
            && r == s.(locks := r.locks) && |r.locks| == |s.locks|
            && (forall x :: 0 <= x < |s.locks| ==> r.locks[x].(ceiling := 0) == s.locks[x].(ceiling := 0))
    decreases s.defined - k
  {
    if k == s.defined {
    } else {
      var i := FindId(s.threads, s.n, 0, s.locks[k].lockerId);
      if i.Some? {
        assert LockInRange(s.locks[k], s.n);
        var u := s.(locks := s.locks[k := s.locks[k].(ceiling := s.threads[i.value].staticPrio)]);
        ValidateChangesCeilings(u, k + 1);
        forall x | 0 <= x < |s.locks| ensures Validate(u, k + 1).locks[x].(ceiling := 0) == s.locks[x].(ceiling := 0) {
          assert Validate(u, k + 1).locks[x].(ceiling := 0) == u.locks[x].(ceiling := 0);
        }
      }
    }
  }

  /** In a quiet state every live thread has its static priority. */
  lemma QuietPriorities(s: KState)
    requires Shape(s) && LockInv(s) && Quiet(s)
    ensures s.ceiling == MAX && s.top == None
    ensures forall i :: 0 <= i < s.n ==> s.threads[i].state != Blocked
    ensures forall i :: 0 <= i < s.n && s.threads[i].state != Defunct ==>
              s.threads[i].staticPrio == s.threads[i].dynPrio < MAX
  {
    QuietNoHolder(s);
    forall i | 0 <= i < s.n && s.threads[i].state != Defunct
      ensures s.threads[i].staticPrio == s.threads[i].dynPrio < MAX
    {
      assert PriorityOk(s, i);
    }
  }

  lemma StartKeeps(s: KState, freq: Word)
    requires Inv(s) && s.active == s.n + 1
    ensures Inv(Settle(Start(s, freq)))
  {
    var r := Start(s, freq);
    ValidateChangesCeilings(s, 0);
    QuietPriorities(s);
    QuietReorderKeeps(s, r);
    assert SameTasks(s.threads, r.threads, s.n);
    SameTasksKeep(s, r);
    SettleKeeps(r);
  }

  /** Every enabled action keeps the invariant. */
  lemma StepKeeps(s: KState, act: Action)
    requires Inv(s) && Enabled(s, act)
    ensures Inv(Next(s, act))
  {
    match act
    case DoLock(m) => LockKeeps(s, m);
    case DoRetry =>
      assert SuspendedOk(s, s.active);
      AttemptKeeps(s, s.threads[s.active].pending.value);
    case DoUnlock(m) => UnlockKeepsInv(s, m);
    case DoYield => YieldKeeps(s);
    case DoEnd => if s.active < s.n { EndKeepsInv(s); }
    case DoTick => TickKeeps(s);
    case DoDefine(id, noFn, c, t) => DefineKeeps(s, id, noFn, c, t);
    case DoLockInit(prio) => LockInitKeeps(s, prio);
    case DoStart(freq) => StartKeeps(s, freq);
  }

  lemma InitialInv(s: KState)
    requires Initial(s)
    ensures Inv(s)
  {
    assert LiveSet(s.threads, s.n) == {};
    NoneLive(s.threads, s.n, s.n);
  }

  /** The invariant holds after every run. */
  lemma {:induction false} RunKeeps(s: KState, acts: seq<Action>)
    requires Inv(s) && Legal(s, acts)
    ensures Inv(Reach(s, acts))
    decreases |acts|
  {
    if acts == [] {
    } else {
      RunKeeps(s, acts[..|acts|-1]);
      StepKeeps(Reach(s, acts[..|acts|-1]), acts[|acts|-1]);
    }
  }

  /** A permitted action keeps the invariant exactly when it overflows no wait list. */
  lemma StepKeepsIff(s: KState, act: Action)
    requires Inv(s) && Permitted(s, act)
    ensures Inv(Next(s, act)) <==> !Overflows(s, act)
  {
    if !Overflows(s, act) {
      StepKeeps(s, act);
    } else {
      assert PendingInRange(s.threads[s.active], s.defined);
      var m := if act.DoLock? then act.m else s.threads[s.active].pending.value;
      if act.DoRetry? { assert SuspendedOk(s, s.active); }
      OverflowShows(s, m);
    }
  }

  lemma OverflowShows(s: KState, m: nat)
    requires Inv(s) && s.active < s.n && m < s.defined && Overruns(s, m)
    requires s.locks[m].locker != Some(s.active) && s.locks[m].ceiling <= s.threads[s.active].staticPrio
    ensures !Fits(Settle(Attempt(s, m)))
  {
    BlockIsRefused(s, m);
    var b, q := Block(s, m), JoinedQueue(s, m);
    assert b.locks == Enqueue(s.locks, q, s.active) && Settle(b).locks == b.locks && Settle(b).defined == s.defined;
    assert !ListFits(Settle(b).locks[q]);
  }

  /** The invariant holds at the start, at the end and everywhere in between. */
  ghost predicate InvAlong(s: KState, acts: seq<Action>)
    requires Shape(s)
    decreases |acts|
  {
    Inv(Reach(s, acts)) && (acts != [] ==> InvAlong(s, acts[..|acts|-1]))
  }

  /** A run of permitted actions keeps the invariant all along exactly when it never overflows a wait list. */
  lemma {:induction false} RunKeepsIff(s: KState, acts: seq<Action>)
    requires Inv(s) && PermittedRun(s, acts)
    ensures Legal(s, acts) <==> InvAlong(s, acts)
    decreases |acts|
  {
    assert Shape(s);
    hide Inv, Next, Permitted, Overflows;
    if acts == [] {
    } else {
      var front := acts[..|acts|-1];
      RunKeepsIff(s, front);
      if Legal(s, front) {
        RunKeeps(s, front);
        StepKeepsIff(Reach(s, front), acts[|acts|-1]);
      }
    }
  }
}
