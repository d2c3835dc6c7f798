/** The life of a thread: every way a step can move it from one state to another, and who runs after a switch. */
module ThreadStates {
  import opened Words
  import opened KernelState
  import opened Scheduling
  import opened Ceilings
  import opened Admission
  import opened LockInvariant
  import opened LockSteps
  import opened UnlockSteps
  import opened Runs
  import opened RunTheorems
  import opened Inheritance

  /** The step opens a lock on whose wait list thread i stands. */
  ghost predicate Wakes(s: KState, act: Action, i: nat)
    requires Shape(s)
  {
    exists x: nat :: HeldBy(s, x, s.active) && Queued(s, x, i) &&
      (act == DoUnlock(x) || act.DoEnd? || EndedForRequest(s, act))
  }

  /** The step is a tick that ends the period of thread i. */
  predicate Releases(s: KState, act: Action, i: nat)
    requires Shape(s) && i < s.n
  {
    act.DoTick? && Dec(s.threads[i].untilRelease) == 0
  }

  /** The active thread asked for a lock and does not hold it afterwards. */
  predicate Refuses(s: KState, act: Action, r: KState)
    requires Shape(s) && Shape(r) && r.defined == s.defined
  {
    Requested(s, act).Some? && Requested(s, act).value < s.defined &&
    r.locks[Requested(s, act).value].locker != Some(s.active) && !EndedForRequest(s, act)
  }

  /** How thread i can have come by its state. */
  ghost predicate StateStep(s: KState, act: Action, r: KState, i: nat)
    requires Shape(s) && Shape(r) && r.n == s.n && r.defined >= s.defined && i < s.n
  {
    var mine, was, state := i == s.active, s.threads[i].state, r.threads[i].state;
    && (Wakes(s, act, i) ==> state == Ready || state == Running)
    && match state
    case Running => r.active == i && (mine || was == Ready || Wakes(s, act, i))
    case Ready => was == Ready || Wakes(s, act, i) || Releases(s, act, i) || (mine && (act.DoTick? || act.DoUnlock?))
    case Waiting =>
      was == Waiting || (mine && (act.DoYield? || (act.DoTick? && Dec(s.threads[i].remaining) == 0)))
    case Blocked =>
      was == Blocked || (mine && r.defined == s.defined && Refuses(s, act, r))
    case Defunct => was == Defunct || (mine && (act.DoEnd? || EndedForRequest(s, act)))
  }

  // ----- the two halves of a step

  /** The pended PendSV moves at most the thread it chooses, from Ready to Running. */
  lemma SettleMoves(s: KState, act: Action, u: KState, i: nat)
    requires Shape(s) && Shape(u) && u.n == s.n && u.defined >= s.defined && i < s.n && !act.DoTick?
    requires StateStep(s, act, u, i) && !u.preempt && (u.pendsv ==> u.threads[i].state != Running)
    ensures Settle(u).defined == u.defined && StateStep(s, act, Settle(u), i)
  {
    SelectMeaning(u);
    hide Wakes;
  }

  /** No call but an unlock or an end moves a thread other than its caller. */
  lemma AttemptMoves(s: KState, act: Action, m: nat, i: nat)
    requires Inv(s) && s.active < s.n && m < s.defined && i < s.n && Requested(s, act) == Some(m)
    requires s.locks[m].locker != Some(s.active) && s.locks[m].ceiling <= s.threads[s.active].staticPrio
    ensures Settle(Attempt(s, m)).defined == s.defined && StateStep(s, act, Settle(Attempt(s, m)), i)
  {
    var u := Attempt(s, m);
    if Admits(s) && s.locks[m].s != 0 {
      GrantMoves(s, act, m, i);
    } else {
      BlockIsRefused(s, m);
      BlockPends(s, m);
      RefusalMoves(s, act, m, u, i);
    }
    hide Attempt, Inv, StateStep;
    SettleMoves(s, act, u, i);
  }

  lemma GrantMoves(s: KState, act: Action, m: nat, i: nat)
    requires Inv(s) && s.active < s.n && m < s.defined && i < s.n && Requested(s, act) == Some(m)
    requires s.locks[m].ceiling <= s.threads[s.active].staticPrio
    ensures var u := Acquire(s, m);
            u.defined == s.defined && StateStep(s, act, u, i) && !u.preempt && !u.pendsv
  {
    assert Acquire(s, m).threads[i].state == s.threads[i].state;
    hide Wakes, LockInv;
  }

  lemma RefusalMoves(s: KState, act: Action, m: nat, u: KState, i: nat)
    requires Inv(s) && s.active < s.n && CanBlock(s, m) && Refused(s, m, u) && i < s.n && Requested(s, act) == Some(m)
    ensures u.defined == s.defined && StateStep(s, act, u, i) && u.threads[i].state != Running
  {
    RefusedAt(s, m, u, i);
    RefusedLockers(s, m, u, m);
    assert s.threads[i].state == Running ==> i == s.active;
    hide Inv, Shape, LockInv, Refused;
    RefusedMoves(s, act, m, u, i);
  }

  lemma RefusedMoves(s: KState, act: Action, m: nat, u: KState, i: nat)
    requires Shape(s) && Shape(u) && u.n == s.n && u.defined == s.defined && s.active < s.n && i < s.n
    requires m < s.defined && Requested(s, act) == Some(m) && s.locks[m].ceiling <= s.threads[s.active].staticPrio
    requires s.locks[m].locker != Some(s.active) && u.locks[m].locker == s.locks[m].locker
    requires u.threads[i].state == if i == s.active then Blocked else s.threads[i].state
    requires s.threads[i].state == Running ==> i == s.active
    ensures StateStep(s, act, u, i) && u.threads[i].state != Running
  {
    hide Shape;
  }

  /** The active thread gives up a lock from k on that thread i is queued for. */
  ghost predicate WokenFrom(s: KState, k: nat, i: nat)
    requires Shape(s)
  {
    exists x: nat :: k <= x && HeldBy(s, x, s.active) && Queued(s, x, i)
  }

  lemma {:induction false} ReleaseMoves(s: KState, k: nat, i: nat)
    requires Shape(s) && k <= s.defined && Ending(s, k) && i < s.n && i != s.active
    ensures ReleaseFrom(s, k).threads[i].state == if WokenFrom(s, k, i) then Ready else s.threads[i].state
    decreases s.defined - k
  {
    hide Unlock, LockInv, WokenFrom;
    if k == s.defined {
      NobodyWoken(s, i);
    } else {
      ReleaseOne(s, k);
      if s.locks[k].locker == Some(s.active) {
        UnlockIsUnlocked(s, k);
        var u := Unlock(s, k);
        assert UnlockedTcb(s.threads[i], u.threads[i], i in s.locks[k].waiters, false);
        WokenHere(s, u, k, i);
        ReleaseMoves(u, k + 1, i);
      } else {
        WokenLater(s, k, i);
        ReleaseMoves(s, k + 1, i);
      }
    }
  }

  lemma NobodyWoken(s: KState, i: nat)
    requires Shape(s)
    ensures !WokenFrom(s, s.defined, i)
  {
  }

  lemma WokenLater(s: KState, k: nat, i: nat)
    requires Shape(s) && k < s.defined && s.locks[k].locker != Some(s.active)
    ensures WokenFrom(s, k, i) <==> WokenFrom(s, k + 1, i)
  {
    if WokenFrom(s, k, i) {
      var x: nat :| k <= x && HeldBy(s, x, s.active) && Queued(s, x, i);
      assert k + 1 <= x;
    }
  }

  lemma WokenHere(s: KState, u: KState, k: nat, i: nat)
    requires Shape(s) && Shape(u) && HeldBy(s, k, s.active)
    requires u.active == s.active && u.defined == s.defined && u.locks == s.locks[k := Opened(s.locks[k])]
    ensures WokenFrom(s, k, i) <==> i in s.locks[k].waiters || WokenFrom(u, k + 1, i)
  {
    assert forall x: nat :: k + 1 <= x ==> (HeldBy(s, x, s.active) <==> HeldBy(u, x, s.active));
    assert forall x: nat :: k + 1 <= x ==> (Queued(s, x, i) <==> Queued(u, x, i));
    if WokenFrom(u, k + 1, i) {
      var x: nat :| k + 1 <= x && HeldBy(u, x, s.active) && Queued(u, x, i);
      assert HeldBy(s, x, s.active) && Queued(s, x, i);
    }
    if i in s.locks[k].waiters { assert Queued(s, k, i); }
    if WokenFrom(s, k, i) && i !in s.locks[k].waiters {
      var x: nat :| k <= x && HeldBy(s, x, s.active) && Queued(s, x, i);
      assert k + 1 <= x && HeldBy(u, x, s.active) && Queued(u, x, i);
    }
  }

  lemma EndMoves(s: KState, act: Action, i: nat)
    requires Inv(s) && InUserCode(s) && i < s.n && (act.DoEnd? || EndedForRequest(s, act))
    ensures Settle(End(s)).defined == s.defined && StateStep(s, act, Settle(End(s)), i)
  {
    EndedMoves(s, act, i);
    hide End, Inv, StateStep, Wakes;
    SettleMoves(s, act, End(s), i);
  }

  lemma EndedMoves(s: KState, act: Action, i: nat)
    requires Inv(s) && InUserCode(s) && i < s.n && (act.DoEnd? || EndedForRequest(s, act))
    ensures var u := End(s);
            && u.n == s.n && u.defined == s.defined && !u.preempt && u.pendsv
            && StateStep(s, act, u, i) && u.threads[i].state != Running
  {
    ReleaseFromKeeps(s, 0);
    assert WokenFrom(s, 0, i) <==> Wakes(s, act, i);
    if i == s.active { NotQueuedByItself(s, i); } else { ReleaseMoves(s, 0, i); }
    hide ReleaseFrom, LockInv, Wakes, WokenFrom;
  }

  lemma NotQueuedByItself(s: KState, i: nat)
    requires Inv(s) && i == s.active && InUserCode(s)
    ensures forall x: nat :: !Queued(s, x, i)
  {
    forall x, j | 0 <= x < s.defined && 0 <= j < |s.locks[x].waiters| ensures s.locks[x].waiters[j] != i {
      assert QueuedOk(s, x, s.locks[x].waiters[j]);
    }
  }

  lemma UnlockMoves(s: KState, m: nat, i: nat)
    requires Inv(s) && Enabled(s, DoUnlock(m)) && i < s.n
    ensures Settle(Unlock(s, m)).defined == s.defined && StateStep(s, DoUnlock(m), Settle(Unlock(s, m)), i)
  {
    assert OwnedLock(s, m);
    if Locked(s.locks[m]) {
      var u := Unlock(s, m);
      UnlockedMoves(s, m, i);
      hide Unlock, Inv, StateStep, Wakes;
      SettleMoves(s, DoUnlock(m), u, i);
    }
  }

  lemma UnlockedMoves(s: KState, m: nat, i: nat)
    requires Inv(s) && CanUnlock(s, m) && i < s.n
    ensures var u := Unlock(s, m);
            && u.n == s.n && u.defined == s.defined && !u.preempt && u.pendsv
            && StateStep(s, DoUnlock(m), u, i) && u.threads[i].state != Running
  {
    UnlockIsUnlocked(s, m);
    UnlockSpares(s, m);
    assert UnlockedTcb(s.threads[i], Unlock(s, m).threads[i], i in s.locks[m].waiters, i == s.active);
    assert OwnedLock(s, m) && Unlock(s, m).pendsv;
    hide Unlock, Inv, LockInv, Untouched;
    OpenedMoves(s, m, Unlock(s, m), i);
  }

  lemma OpenedMoves(s: KState, m: nat, u: KState, i: nat)
    requires Shape(s) && Shape(u) && u.n == s.n && u.defined == s.defined && HeldBy(s, m, s.active) && i < s.n
    requires UnlockedTcb(s.threads[i], u.threads[i], i in s.locks[m].waiters, i == s.active)
    requires s.threads[i].state == Running ==> i == s.active
    ensures StateStep(s, DoUnlock(m), u, i) && u.threads[i].state != Running
  {
    if i in s.locks[m].waiters { assert Queued(s, m, i); }
  }

  lemma YieldMoves(s: KState, i: nat)
    requires Inv(s) && (InUserCode(s) || s.active == s.n) && i < s.n
    ensures Settle(Yield(s)).defined == s.defined && StateStep(s, DoYield, Settle(Yield(s)), i)
  {
    var u := Yield(s);
    assert StateStep(s, DoYield, u, i) && !u.preempt && u.threads[i].state != Running;
    hide Yield, Inv, StateStep;
    SettleMoves(s, DoYield, u, i);
  }

  lemma TickMoves(s: KState, i: nat)
    requires Inv(s) && i < s.n
    ensures Tick(s).defined == s.defined && StateStep(s, DoTick, Tick(s), i)
  {
    TickedState(s, i);
    assert s.threads[i].state == Running ==> i == s.active;
    hide Inv, Shape, Tick;
    SeenMoves(s, Tick(s), i);
  }

  /** The state a tick leaves a thread in. */
  lemma TickedState(s: KState, i: nat)
    requires Shape(s) && i < s.n
    ensures var r, seen := Tick(s), Seen(s, i);
            && r.defined == s.defined && r.n == s.n
            && (r.active == i ==> seen.state == Ready)
            && (r.threads[i].state == if r.active == i then Running
                                      else if s.numActive == 0 then seen.state else Advanced(seen).state)
  {
    var p := s.(preempt := true, pendsv := true);
    SelectMeaning(Charge(p));
    assert Charge(p).threads[i] == Seen(s, i);
    hide Select, Advanced, Charged;
  }

  lemma SeenMoves(s: KState, r: KState, i: nat)
    requires Shape(s) && Shape(r) && r.n == s.n && r.defined == s.defined && i < s.n
    requires s.threads[i].state == Running ==> i == s.active
    requires r.active == i ==> Seen(s, i).state == Ready
    requires r.threads[i].state == if r.active == i then Running
                                   else if s.numActive == 0 then Seen(s, i).state else Advanced(Seen(s, i)).state
    ensures StateStep(s, DoTick, r, i)
  {
    hide Shape;
  }

  lemma StandMoves(s: KState, act: Action, u: KState, i: nat)
    requires Inv(s) && Shape(u) && u.n == s.n && u.defined >= s.defined && i < s.n && !act.DoTick?
    requires u.threads == s.threads && u.active == s.active && !u.preempt && (u.pendsv ==> s.active >= s.n)
    requires !Wakes(s, act, i)
    ensures Settle(u).defined == u.defined && StateStep(s, act, Settle(u), i)
  {
    SettleMoves(s, act, u, i);
  }

  lemma LockMoves(s: KState, m: nat, i: nat)
    requires Inv(s) && Enabled(s, DoLock(m)) && i < s.n
    ensures Settle(Lock(s, m)).defined == s.defined && StateStep(s, DoLock(m), Settle(Lock(s, m)), i)
  {
    if s.threads[s.active].staticPrio < s.locks[m].ceiling {
      EndMoves(s, DoLock(m), i);
    } else if s.locks[m].locker != Some(s.active) {
      AttemptMoves(s, DoLock(m), m, i);
    } else {
      StandMoves(s, DoLock(m), s, i);
    }
    hide Inv, Settle, Attempt, End, StateStep, Wakes;
  }

  // ----- every step

  /** The state machine of a thread, for every step but an accepted definition: it runs only when chosen, having been
      ready or just woken; it becomes ready only by a release, by being woken from a wait list, or by losing the
      processor; it waits only after its own yield or its last slot; it blocks only on its own refused request; it is
      gone only by its own end. A woken thread is ready or runs. */
  lemma StateMachine(s: KState, act: Action, i: nat)
    requires Inv(s) && Enabled(s, act) && i < s.n
    requires act.DoDefine? ==> DefineCode(s, act.id, act.noFn, act.c, act.t) != SUCCESS
    ensures Next(s, act).defined >= s.defined && StateStep(s, act, Next(s, act), i)
  {
    match act
    case DoLock(m) => LockMoves(s, m, i);
    case DoRetry =>
      assert SuspendedOk(s, s.active);
      AttemptMoves(s, act, s.threads[s.active].pending.value, i);
    case DoUnlock(m) => UnlockMoves(s, m, i);
    case DoYield => YieldMoves(s, i);
    case DoEnd => if s.active < s.n { EndMoves(s, act, i); } else { StandMoves(s, act, s, i); }
    case DoTick => TickMoves(s, i);
    case DoDefine(id, noFn, c, t) => StandMoves(s, act, s, i);
    case DoLockInit(prio) => StandMoves(s, act, LockInit(s, prio), i);
    case DoStart(freq) => StartKeepsDonors(s, freq); StandMoves(s, act, Start(s, freq), i);
    hide Inv, Settle, Tick, Lock, Attempt, Unlock, End, Yield, LockInit, Start, DefineCode, StateStep, Wakes;
  }

  // ----- after a switch

  /** The steps that give the processor away: a yield, an end, an unlock, a refused request. */
  predicate Switches(s: KState, act: Action, r: KState)
    requires Shape(s) && Shape(r)
  {
    || act.DoYield? || (act.DoEnd? && s.active < s.n) || EndedForRequest(s, act)
    || (act.DoUnlock? && act.m < s.defined && Locked(s.locks[act.m]))
    || (r.defined == s.defined && Refuses(s, act, r))
  }

  /** Whoever has the processor is as urgent as any of the ready threads but those just released; idle has it only
      when there are none, main only when no thread is left. */
  ghost predicate MostUrgentRuns(s: KState, act: Action, r: KState)
    requires Shape(s) && Shape(r) && r.n == s.n
  {
    && (r.active == r.n + 1 <==> r.numActive == 0)
    && (forall k :: 0 <= k < r.n && r.threads[k].state == Ready && !Releases(s, act, k) && r.numActive != 0 ==>
          r.active < r.n && r.threads[r.active].dynPrio <= r.threads[k].dynPrio)
  }

  lemma SettleServes(s: KState, act: Action, u: KState)
    requires Shape(s) && Shape(u) && u.n == s.n && u.pendsv && !u.preempt && LockInv(u)
    ensures MostUrgentRuns(s, act, Settle(u))
  {
    SelectMeaning(u);
    forall k | 0 <= k < u.n && u.threads[k].state == Ready ensures Candidate(u.threads, k) {
      assert PriorityOk(u, k);
    }
  }

  lemma TickServes(s: KState)
    requires Inv(s)
    ensures MostUrgentRuns(s, DoTick, Tick(s))
  {
    var c := Charge(s.(preempt := true, pendsv := true));
    SelectMeaning(c);
    forall k | 0 <= k < c.n && c.threads[k].state == Ready ensures Candidate(c.threads, k) {
      assert PriorityOk(s, k);
    }
  }

  lemma EndServes(s: KState, act: Action)
    requires Inv(s) && InUserCode(s)
    ensures MostUrgentRuns(s, act, Settle(End(s)))
  {
    ReleaseFromKeeps(s, 0);
    var u := ReleaseFrom(s, 0);
    RetireKeeps(u);
    assert End(s) == Retire(u) && Retire(u).pendsv && !Retire(u).preempt;
    hide ReleaseFrom, Retire, LockInv, MostUrgentRuns;
    SettleServes(s, act, Retire(u));
  }

  lemma AttemptServes(s: KState, act: Action, m: nat)
    requires Inv(s) && s.active < s.n && CanBlock(s, m) && !Overruns(s, m)
    ensures Attempt(s, m) == Block(s, m) && MostUrgentRuns(s, act, Settle(Attempt(s, m)))
  {
    BlockKeepsIff(s, m);
    BlockIsRefused(s, m);
    BlockPends(s, m);
    hide Block, LockInv, MostUrgentRuns;
    SettleServes(s, act, Block(s, m));
  }

  lemma UnlockServes(s: KState, m: nat)
    requires Inv(s) && Enabled(s, DoUnlock(m)) && Locked(s.locks[m])
    ensures MostUrgentRuns(s, DoUnlock(m), Settle(Unlock(s, m)))
  {
    UnlockKeeps(s, m);
    UnlockSpares(s, m);
    assert Unlock(s, m).pendsv;
    hide Unlock, LockInv, MostUrgentRuns;
    SettleServes(s, DoUnlock(m), Unlock(s, m));
  }

  lemma YieldServes(s: KState)
    requires Inv(s) && (InUserCode(s) || s.active == s.n)
    ensures MostUrgentRuns(s, DoYield, Settle(Yield(s)))
  {
    var u := Yield(s);
    assert SameLocking(s, u) && u.pendsv && !u.preempt;
    hide Yield, LockInv, MostUrgentRuns;
    SameLockingKeeps(s, u);
    SettleServes(s, DoYield, u);
  }

  /** A request that does not leave the lock with the thread was refused. */
  lemma RefusedMeans(s: KState, act: Action, m: nat)
    requires Inv(s) && Enabled(s, act) && Requested(s, act) == Some(m) && s.active < s.n && !EndedForRequest(s, act)
    requires Next(s, act).locks[m].locker != Some(s.active)
    ensures CanBlock(s, m) && !Overruns(s, m) && Next(s, act) == Settle(Attempt(s, m))
  {
    if act.DoRetry? { assert SuspendedOk(s, s.active); }
  }

  /** After every step that switches, and after every tick, the most urgent thread runs. */
  lemma SwitchServesMostUrgent(s: KState, act: Action)
    requires Inv(s) && Enabled(s, act) && (act.DoTick? || Switches(s, act, Next(s, act)))
    ensures MostUrgentRuns(s, act, Next(s, act))
  {
    match act
    case DoLock(m) =>
      if s.threads[s.active].staticPrio < s.locks[m].ceiling {
        EndServes(s, act);
      } else {
        RefusedMeans(s, act, m);
        AttemptServes(s, act, m);
      }
    case DoRetry =>
      var m := s.threads[s.active].pending.value;
      RefusedMeans(s, act, m);
      AttemptServes(s, act, m);
    case DoUnlock(m) => UnlockServes(s, m);
    case DoYield => YieldServes(s);
    case DoEnd => EndServes(s, act);
    case DoTick => TickServes(s);
    case _ =>
    hide Inv, Settle, Tick, Attempt, Unlock, End, Yield, MostUrgentRuns;
  }
}
