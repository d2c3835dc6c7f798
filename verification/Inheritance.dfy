/** Whose priority a thread runs at: over every run a dynamic priority is the thread's own static one or that of a
    thread queued for a lock it holds. */
module Inheritance {
  import opened Words
  import opened KernelState
  import opened Scheduling
  import opened Ceilings
  import opened Priorities
  import opened Admission
  import opened LockInvariant
  import opened LockSteps
  import opened UnlockSteps
  import opened Runs
  import opened RunTheorems

  /** The thread at place j of lock x's queue waits for thread i and has its dynamic priority. */
  predicate Donates(s: KState, i: nat, x: int, j: int)
    requires Shape(s) && i < s.n
  {
    && 0 <= x < s.defined && s.locks[x].locker == Some(i) && 0 <= j < |s.locks[x].waiters|
    && s.locks[x].waiters[j] < s.n && s.threads[s.locks[x].waiters[j]].dynPrio == s.threads[i].dynPrio
  }

  /** Thread w is queued for the lock it asked for. */
  predicate WaitsAsAsked(s: KState, x: nat, w: nat)
    requires Shape(s)
  {
    Queued(s, x, w) && w < s.n && s.threads[w].pending == Some(x)
  }

  ghost predicate Earned(s: KState, i: nat)
    requires Shape(s) && i < s.n
  {
    s.threads[i].dynPrio == s.threads[i].staticPrio || exists x, j :: Donates(s, i, x, j)
  }

  ghost predicate AllEarned(s: KState)
    requires Shape(s)
  {
    forall i :: 0 <= i < s.n && s.threads[i].state != Defunct ==> Earned(s, i)
  }

  // ----- donors

  /** A thread that has raised a holder above its static priority holds no lock itself, so nobody raises it. */
  lemma DonorHoldsNothing(s: KState, i: nat, x: nat, j: nat)
    requires Shape(s) && LockInv(s) && i < s.n && s.threads[i].dynPrio < s.threads[i].staticPrio && Donates(s, i, x, j)
    ensures var w := s.locks[x].waiters[j]; Live(s, w) && !Holder(s, w)
  {
    var w := s.locks[x].waiters[j];
    assert QueuedOk(s, x, w) && OwnedLock(s, x);
    forall z: nat | HeldBy(s, z, w) ensures s.threads[i].staticPrio < s.locks[z].ceiling {
      assert OwnedLock(s, z) && OrderedPair(s, x, z);
    }
    assert PriorityOk(s, w);
  }

  /** The locks of thread i and the threads queued on them are as they were. */
  ghost predicate SameDonors(s: KState, r: KState, i: nat)
    requires Shape(s) && Shape(r)
  {
    && r.n == s.n && s.defined <= r.defined
    && (forall x :: 0 <= x < s.defined && s.locks[x].locker == Some(i) ==>
          r.locks[x].locker == Some(i) && s.locks[x].waiters <= r.locks[x].waiters)
    && (forall w :: 0 <= w < s.n && !Holder(s, w) && s.threads[w].state != Defunct ==>
          r.threads[w].dynPrio == s.threads[w].dynPrio)
  }

  lemma EarnedKept(s: KState, r: KState, i: nat)
    requires Shape(s) && LockInv(s) && Shape(r) && i < s.n && s.threads[i].state != Defunct && Earned(s, i)
    requires SameDonors(s, r, i)
    requires r.threads[i].dynPrio == s.threads[i].dynPrio && r.threads[i].staticPrio == s.threads[i].staticPrio
    ensures Earned(r, i)
  {
    assert PriorityOk(s, i);
    if s.threads[i].dynPrio < s.threads[i].staticPrio {
      var x, j :| Donates(s, i, x, j);
      DonorHoldsNothing(s, i, x, j);
      assert Donates(r, i, x, j);
    }
  }

  // ----- each operation

  lemma SameLockingEarned(s: KState, r: KState)
    requires Shape(s) && Shape(r) && SameLocking(s, r) && AllEarned(s)
    ensures AllEarned(r)
  {
    forall i | 0 <= i < r.n && r.threads[i].state != Defunct ensures Earned(r, i) {
      assert forall w :: 0 <= w < s.n ==> SameTcb(s.threads[w], r.threads[w]);
      assert Earned(s, i);
      if x, j :| Donates(s, i, x, j) { assert Donates(r, i, x, j); }
    }
  }

  lemma SettleEarned(s: KState)
    requires Shape(s) && AllEarned(s) && !s.preempt
    ensures AllEarned(Settle(s))
  {
    if s.pendsv {
      PendSVSameLocking(s);
      hide PendSV, AllEarned;
      SameLockingEarned(s, PendSV(s));
    }
  }

  /** A grant changes no priority. */
  lemma AcquireEarned(s: KState, m: nat)
    requires Shape(s) && LockInv(s) && AllEarned(s) && s.active < s.n && m < s.defined && s.locks[m].s != 0
    ensures AllEarned(Acquire(s, m))
  {
    var r := Acquire(s, m);
    assert OwnedLock(s, m);
    forall i | 0 <= i < r.n && r.threads[i].state != Defunct ensures Earned(r, i) {
      assert SameDonors(s, r, i);
      hide LockInv, Earned, Acquire;
      EarnedKept(s, r, i);
    }
  }

  /** A refusal raises the holder of the lock asked for at most to the priority of the thread that now waits. */
  lemma RefusedEarned(s: KState, m: nat, r: KState)
    requires Shape(s) && LockInv(s) && AllEarned(s) && CanBlock(s, m) && Refused(s, m, r)
    ensures AllEarned(r)
  {
    JoinedQueueOk(s, m);
    forall i | 0 <= i < r.n && r.threads[i].state != Defunct ensures Earned(r, i) { RefusedEarnedAt(s, m, r, i); }
  }

  lemma RefusedEarnedAt(s: KState, m: nat, r: KState, i: nat)
    requires Shape(s) && LockInv(s) && AllEarned(s) && CanBlock(s, m) && Refused(s, m, r)
    requires i < r.n && r.threads[i].state != Defunct
    ensures Earned(r, i)
  {
    RefusedAt(s, m, r, i);
    if r.threads[i].dynPrio != s.threads[i].dynPrio {
      RefusedAt(s, m, r, s.active);
      assert Donates(r, i, m, |s.locks[m].waiters|);
    } else {
      RefusedSameDonors(s, m, r, i);
      EarnedKept(s, r, i);
    }
  }

  lemma RefusedSameDonors(s: KState, m: nat, r: KState, i: nat)
    requires Shape(s) && CanBlock(s, m) && Refused(s, m, r)
    ensures SameDonors(s, r, i)
  {
    forall w | 0 <= w < s.n && !Holder(s, w) ensures r.threads[w].dynPrio == s.threads[w].dynPrio {
      RefusedAt(s, m, r, w);
      assert !HeldBy(s, m, w);
    }
  }

  /** An unlock leaves the thread what the queues of its other locks give it. */
  lemma UnlockedEarned(s: KState, m: nat, r: KState)
    requires Shape(s) && LockInv(s) && AllEarned(s) && CanUnlock(s, m) && Unlocked(s, m, r)
    ensures AllEarned(r)
  {
    forall i | 0 <= i < r.n && r.threads[i].state != Defunct ensures Earned(r, i) {
      WokenWasLive(s, m, r, i);
      if i == s.active { UnlockerEarned(s, m, r); } else { OtherEarned(s, m, r, i); }
    }
  }

  lemma UnlockerEarned(s: KState, m: nat, r: KState)
    requires Shape(s) && LockInv(s) && CanUnlock(s, m) && Unlocked(s, m, r)
    ensures s.active < r.n && Earned(r, s.active)
  {
    var a, d := s.active, r.threads[s.active].dynPrio;
    assert UnlockedTcb(s.threads[a], r.threads[a], a in s.locks[m].waiters, true);
    if d != s.threads[a].staticPrio {
      var x, j :| StillWaited(s, m, x, j) && d == WaiterPrio(s, x, j);
      var w := s.locks[x].waiters[j];
      assert QueuedOk(s, x, w);
      assert UnlockedTcb(s.threads[w], r.threads[w], w in s.locks[m].waiters, w == a);
      assert Donates(r, a, x, j);
    }
  }

  lemma OtherEarned(s: KState, m: nat, r: KState, i: nat)
    requires Shape(s) && LockInv(s) && CanUnlock(s, m) && Unlocked(s, m, r)
    requires i < s.n && i != s.active && s.threads[i].state != Defunct && Earned(s, i)
    ensures Earned(r, i)
  {
    forall w | 0 <= w < s.n && w != s.active
      ensures r.threads[w].dynPrio == s.threads[w].dynPrio && r.threads[w].staticPrio == s.threads[w].staticPrio
    {
      assert UnlockedTcb(s.threads[w], r.threads[w], w in s.locks[m].waiters, w == s.active);
    }
    assert HeldBy(s, m, s.active);
    hide LockInv, Earned;
    EarnedKept(s, r, i);
  }

  lemma UnlockEarned(s: KState, m: nat)
    requires Shape(s) && LockInv(s) && AllEarned(s) && CanUnlock(s, m)
    ensures AllEarned(Unlock(s, m))
  {
    UnlockIsUnlocked(s, m);
    UnlockedEarned(s, m, Unlock(s, m));
  }

  lemma {:induction false} ReleaseEarned(s: KState, k: nat)
    requires Shape(s) && k <= s.defined && Ending(s, k) && AllEarned(s)
    ensures AllEarned(ReleaseFrom(s, k))
    decreases s.defined - k
  {
    hide Unlock, LockInv, AllEarned;
    if k < s.defined {
      ReleaseOne(s, k);
      if s.locks[k].locker == Some(s.active) {
        UnlockEarned(s, k);
        ReleaseEarned(Unlock(s, k), k + 1);
      } else {
        ReleaseEarned(s, k + 1);
      }
    }
  }

  lemma RetireEarned(s: KState)
    requires Shape(s) && LockInv(s) && AllEarned(s) && s.active < s.n
    ensures AllEarned(Retire(s))
  {
    var r := Retire(s);
    forall i | 0 <= i < r.n && r.threads[i].state != Defunct ensures Earned(r, i) {
      assert SameDonors(s, r, i);
      hide LockInv, Earned, Retire;
      EarnedKept(s, r, i);
    }
  }

  lemma EndEarned(s: KState)
    requires Inv(s) && InUserCode(s) && AllEarned(s)
    ensures AllEarned(Settle(End(s)))
  {
    ReleaseEarned(s, 0);
    ReleaseFromKeeps(s, 0);
    var u := ReleaseFrom(s, 0);
    RetireEarned(u);
    assert !Retire(u).preempt && End(s) == Retire(u);
    hide ReleaseFrom, Retire, LockInv, AllEarned;
    SettleEarned(Retire(u));
  }

  lemma AttemptEarned(s: KState, m: nat)
    requires Inv(s) && AllEarned(s) && s.active < s.n && m < s.defined
    requires s.locks[m].locker != Some(s.active) && s.locks[m].ceiling <= s.threads[s.active].staticPrio
    ensures AllEarned(Settle(Attempt(s, m)))
  {
    if Admits(s) && s.locks[m].s != 0 {
      AcquireEarned(s, m);
    } else {
      BlockIsRefused(s, m);
      RefusedEarned(s, m, Block(s, m));
      BlockPends(s, m);
      hide Block, LockInv, AllEarned, Settle;
      SettleEarned(Block(s, m));
    }
  }

  lemma LockEarned(s: KState, m: nat)
    requires Inv(s) && AllEarned(s) && InUserCode(s) && m < s.defined
    ensures AllEarned(Settle(Lock(s, m)))
  {
    if s.threads[s.active].staticPrio < s.locks[m].ceiling {
      EndEarned(s);
    } else if s.locks[m].locker != Some(s.active) {
      AttemptEarned(s, m);
    }
    hide Inv, AllEarned, Settle, End, Attempt;
  }

  lemma UnlockSettledEarned(s: KState, m: nat)
    requires Inv(s) && AllEarned(s) && Enabled(s, DoUnlock(m))
    ensures AllEarned(Settle(Unlock(s, m)))
  {
    if Locked(s.locks[m]) {
      UnlockEarned(s, m);
      UnlockSpares(s, m);
      hide Unlock, LockInv, AllEarned, Settle;
      SettleEarned(Unlock(s, m));
    }
  }

  lemma YieldEarned(s: KState)
    requires Inv(s) && AllEarned(s) && (InUserCode(s) || s.active == s.n)
    ensures AllEarned(Settle(Yield(s)))
  {
    var u := Yield(s);
    assert SameLocking(s, u) && !u.preempt;
    hide Yield, LockInv, AllEarned, Settle;
    SameLockingEarned(s, u);
    SettleEarned(u);
  }

  lemma TickEarned(s: KState)
    requires Inv(s) && AllEarned(s)
    ensures AllEarned(Tick(s))
  {
    var p := s.(preempt := true, pendsv := true);
    PendSVSameLocking(p);
    assert SameLocking(s, Tick(s));
    hide Tick, LockInv, AllEarned;
    SameLockingEarned(s, Tick(s));
  }

  lemma DefineEarned(s: KState, id: Word, noFn: bool, c: Word, t: Word)
    requires Inv(s) && AllEarned(s)
    ensures AllEarned(Define(s, id, noFn, c, t))
  {
    if DefineCode(s, id, noFn, c, t) == SUCCESS {
      var r := Define(s, id, noFn, c, t);
      var slot := FreeSlot(s.threads, s.n).value;
      var th := s.threads[slot := Defined(s.threads[slot], id, c, t)];
      assert r.n == s.n && r.threads == Order(th, s.n);
      hide Define, Order;
      forall i | 0 <= i < s.n && r.threads[i].state != Defunct ensures Earned(r, i) {
        assert r.threads[i] == Ranked(th, s.n, i);
      }
    }
  }

  lemma LockInitEarned(s: KState, prio: Word)
    requires Inv(s) && AllEarned(s)
    ensures AllEarned(LockInit(s, prio))
  {
    var r := LockInit(s, prio);
    forall i | 0 <= i < r.n && r.threads[i].state != Defunct ensures Earned(r, i) {
      assert SameDonors(s, r, i);
      hide LockInv, Earned, LockInit;
      EarnedKept(s, r, i);
    }
  }

  lemma StartEarned(s: KState, freq: Word)
    requires Inv(s) && AllEarned(s) && s.active == s.n + 1
    ensures AllEarned(Settle(Start(s, freq)))
  {
    StartKeepsDonors(s, freq);
    var u := Start(s, freq);
    hide Start;
    forall i | 0 <= i < u.n && u.threads[i].state != Defunct ensures Earned(u, i) {
      assert SameDonors(s, u, i);
      EarnedKept(s, u, i);
    }
    SettleEarned(u);
  }

  lemma StartKeepsDonors(s: KState, freq: Word)
    requires Shape(s) && !s.preempt
    ensures var u := Start(s, freq);
            && u.threads == s.threads && u.n == s.n && u.defined == s.defined && u.active == s.active && !u.preempt
            && (forall x :: 0 <= x < s.defined ==>
                  u.locks[x].locker == s.locks[x].locker && u.locks[x].waiters == s.locks[x].waiters)
  {
    ValidateChangesCeilings(s, 0);
    forall x | 0 <= x < s.defined
      ensures Start(s, freq).locks[x].locker == s.locks[x].locker
      ensures Start(s, freq).locks[x].waiters == s.locks[x].waiters
    {
      assert Validate(s, 0).locks[x].(ceiling := 0) == s.locks[x].(ceiling := 0);
    }
  }

  lemma StepEarned(s: KState, act: Action)
    requires Inv(s) && Enabled(s, act) && AllEarned(s)
    ensures AllEarned(Next(s, act))
  {
    match act
    case DoLock(m) => LockEarned(s, m);
    case DoRetry =>
      assert SuspendedOk(s, s.active);
      AttemptEarned(s, s.threads[s.active].pending.value);
    case DoUnlock(m) => UnlockSettledEarned(s, m);
    case DoYield => YieldEarned(s);
    case DoEnd => if s.active < s.n { EndEarned(s); }
    case DoTick => TickEarned(s);
    case DoDefine(id, noFn, c, t) => DefineEarned(s, id, noFn, c, t);
    case DoLockInit(prio) => LockInitEarned(s, prio);
    case DoStart(freq) => StartEarned(s, freq);
    hide Inv, AllEarned, Settle, Lock, Attempt, Unlock, Yield, Tick, Define, LockInit, Start;
  }

  // ----- whole runs

  lemma {:induction false} RunEarned(s: KState, acts: seq<Action>)
    requires Initial(s) && Legal(s, acts)
    ensures Inv(Reach(s, acts)) && AllEarned(Reach(s, acts))
    decreases |acts|
  {
    InitialInv(s);
    RunKeeps(s, acts);
    if acts != [] {
      var front := acts[..|acts|-1];
      RunEarned(s, front);
      StepEarned(Reach(s, front), acts[|acts|-1]);
    }
  }

  /** After any run from a fresh request a live thread has its static priority, or it is more urgent and has exactly
      the priority of some thread queued on a lock it holds; and it is at least as urgent as every thread that is
      queued for a lock of its that it asked for. A thread with nobody in its queues has its static priority. */
  lemma InheritanceIsExact(s: KState, acts: seq<Action>, i: nat)
    requires Initial(s) && Legal(s, acts) && Live(Reach(s, acts), i)
    ensures var r := Reach(s, acts);
            && r.threads[i].dynPrio <= r.threads[i].staticPrio
            && (r.threads[i].dynPrio < r.threads[i].staticPrio ==> exists x, j :: Donates(r, i, x, j))
            && (forall x: nat, w: nat :: HeldBy(r, x, i) && WaitsAsAsked(r, x, w) ==>
                  r.threads[i].dynPrio <= r.threads[w].dynPrio)
            && ((forall x: nat :: HeldBy(r, x, i) ==> r.locks[x].waiters == []) ==>
                  r.threads[i].dynPrio == r.threads[i].staticPrio)
  {
    RunEarned(s, acts);
    hide Legal, Reach, Initial;
    EarnedMeans(Reach(s, acts), i);
  }

  lemma EarnedMeans(r: KState, i: nat)
    requires Inv(r) && AllEarned(r) && Live(r, i)
    ensures r.threads[i].dynPrio <= r.threads[i].staticPrio
    ensures r.threads[i].dynPrio < r.threads[i].staticPrio ==> exists x, j :: Donates(r, i, x, j)
    ensures forall x: nat, w: nat :: HeldBy(r, x, i) && WaitsAsAsked(r, x, w) ==>
              r.threads[i].dynPrio <= r.threads[w].dynPrio
    ensures (forall x: nat :: HeldBy(r, x, i) ==> r.locks[x].waiters == []) ==>
              r.threads[i].dynPrio == r.threads[i].staticPrio
  {
    assert PriorityOk(r, i) && Earned(r, i);
    forall x: nat, w: nat | HeldBy(r, x, i) && WaitsAsAsked(r, x, w)
      ensures r.threads[i].dynPrio <= r.threads[w].dynPrio
    {
      assert QueuedOk(r, x, w);
    }
    if r.threads[i].dynPrio < r.threads[i].staticPrio {
      var x, j :| Donates(r, i, x, j);
      assert HeldBy(r, x, i);
    }
  }

  // ----- who changes a priority

  /** All that one step can do to a thread's dynamic priority: nothing; or the thread itself gives up locks; or the
      active thread asks for a lock it holds, is more urgent, and passes its priority on. */
  predicate PriorityStep(s: KState, act: Action, r: KState, i: nat)
    requires Shape(s) && Shape(r) && r.n == s.n && i < s.n
  {
    || r.threads[i].dynPrio == s.threads[i].dynPrio
    || (i == s.active && (act.DoUnlock? || act.DoEnd? || EndedForRequest(s, act)))
    || (&& Requested(s, act).Some? && HeldBy(s, Requested(s, act).value, i) && i != s.active
        && r.threads[i].dynPrio == s.threads[s.active].dynPrio < s.threads[i].dynPrio)
  }

  predicate EndedForRequest(s: KState, act: Action)
    requires Shape(s)
  {
    act.DoLock? && act.m < s.defined && s.threads[s.active].staticPrio < s.locks[act.m].ceiling
  }

  /** No priority changes in any other way; in particular a granted request changes none, its own included. */
  lemma PriorityChanges(s: KState, act: Action, i: nat)
    requires Inv(s) && Enabled(s, act) && Live(s, i)
    requires act.DoDefine? ==> DefineCode(s, act.id, act.noFn, act.c, act.t) != SUCCESS
    ensures PriorityStep(s, act, Next(s, act), i)
  {
    match act
    case DoLock(m) =>
      if s.threads[s.active].staticPrio < s.locks[m].ceiling {
        EndPriorities(s, i);
      } else if s.locks[m].locker != Some(s.active) {
        AttemptPriority(s, act, m, i);
      }
    case DoRetry =>
      assert SuspendedOk(s, s.active);
      AttemptPriority(s, act, s.threads[s.active].pending.value, i);
    case DoUnlock(m) => UnlockPriority(s, m, i);
    case DoYield => SettlePriority(Yield(s), i);
    case DoEnd => if s.active < s.n { EndPriorities(s, i); }
    case DoTick => TickPriority(s, i);
    case DoDefine(id, noFn, c, t) =>
    case DoLockInit(prio) =>
    case DoStart(freq) => StartKeepsDonors(s, freq); SettlePriority(Start(s, freq), i);
    hide Inv, Settle, Tick, Attempt, Unlock, End, Start, DefineCode;
  }

  lemma SettlePriority(u: KState, i: nat)
    requires Shape(u) && !u.preempt && i < u.n
    ensures Settle(u).threads[i].dynPrio == u.threads[i].dynPrio
  {
    if u.pendsv {
      PendSVSameLocking(u);
      assert SameTcb(u.threads[i], PendSV(u).threads[i]);
    }
  }

  lemma TickPriority(s: KState, i: nat)
    requires Inv(s) && i < s.n
    ensures Tick(s).threads[i].dynPrio == s.threads[i].dynPrio
  {
    PendSVSameLocking(s.(preempt := true, pendsv := true));
    assert SameTcb(s.threads[i], Tick(s).threads[i]);
  }

  lemma AttemptPriority(s: KState, act: Action, m: nat, i: nat)
    requires Inv(s) && s.active < s.n && m < s.defined && i < s.n && Requested(s, act) == Some(m)
    requires s.locks[m].locker != Some(s.active) && s.locks[m].ceiling <= s.threads[s.active].staticPrio
    ensures PriorityStep(s, act, Settle(Attempt(s, m)), i)
  {
    var u := Attempt(s, m);
    if Admits(s) && s.locks[m].s != 0 {
      GrantPriority(s, m, i);
    } else {
      BlockIsRefused(s, m);
      BlockPends(s, m);
      RefusedAt(s, m, Block(s, m), i);
    }
    hide Block, Acquire, Inv, Settle;
    SettlePriority(u, i);
  }

  lemma GrantPriority(s: KState, m: nat, i: nat)
    requires Shape(s) && s.active < s.n && m < s.defined && i < s.n
    ensures Acquire(s, m).threads[i].dynPrio == s.threads[i].dynPrio && Acquire(s, m).preempt == s.preempt
  {
  }

  lemma UnlockPriority(s: KState, m: nat, i: nat)
    requires Inv(s) && Enabled(s, DoUnlock(m)) && i < s.n
    ensures PriorityStep(s, DoUnlock(m), Settle(Unlock(s, m)), i)
  {
    if Locked(s.locks[m]) {
      UnlockIsUnlocked(s, m);
      UnlockSpares(s, m);
      var u := Unlock(s, m);
      assert UnlockedTcb(s.threads[i], u.threads[i], i in s.locks[m].waiters, i == s.active);
      hide Unlock, Inv, Settle;
      SettlePriority(u, i);
    }
  }

  lemma {:induction false} ReleasePriority(s: KState, k: nat, i: nat)
    requires Shape(s) && k <= s.defined && Ending(s, k) && i < s.n && i != s.active
    ensures ReleaseFrom(s, k).threads[i].dynPrio == s.threads[i].dynPrio
    decreases s.defined - k
  {
    hide Unlock, LockInv;
    if k < s.defined {
      ReleaseOne(s, k);
      if s.locks[k].locker == Some(s.active) {
        UnlockIsUnlocked(s, k);
        assert UnlockedTcb(s.threads[i], Unlock(s, k).threads[i], i in s.locks[k].waiters, false);
        ReleasePriority(Unlock(s, k), k + 1, i);
      } else {
        ReleasePriority(s, k + 1, i);
      }
    }
  }

  lemma EndPriorities(s: KState, i: nat)
    requires Inv(s) && InUserCode(s) && i < s.n
    ensures i != s.active ==> Settle(End(s)).threads[i].dynPrio == s.threads[i].dynPrio
  {
    if i != s.active {
      ReleasePriority(s, 0, i);
      ReleaseFromKeeps(s, 0);
      var u := Retire(ReleaseFrom(s, 0));
      assert u.threads[i].dynPrio == s.threads[i].dynPrio && !u.preempt && End(s) == u;
      hide ReleaseFrom, Retire, Settle;
      SettlePriority(u, i);
    }
  }
}
