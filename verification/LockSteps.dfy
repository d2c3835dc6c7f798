/** Every lock operation keeps the lock invariant. */
module LockSteps {
  import opened Words
  import opened KernelState
  import opened Ceilings
  import opened LockInvariant

  // ----- acquiring

  /** Granting an open lock to an admitted, entitled thread. */
  lemma AcquireKeeps(s: KState, m: nat)
    requires Shape(s) && LockInv(s) && Live(s, s.active)
    requires m < s.defined && s.locks[m].s != 0 && Admits(s)
    requires s.locks[m].ceiling <= s.threads[s.active].staticPrio
    requires s.threads[s.active].state != Blocked
    ensures LockInv(Acquire(s, m))
  {
    AcquireKeepsLocks(s, m);
    AcquireKeepsPriorities(s, m);
    AcquireKeepsQueues(s, m);
    AcquireKeepsSuspended(s, m);
  }

  lemma AcquireKeepsLocks(s: KState, m: nat)
    requires Shape(s) && LockInv(s) && Live(s, s.active)
    requires m < s.defined && s.locks[m].s != 0 && Admits(s)
    requires s.locks[m].ceiling <= s.threads[s.active].staticPrio
    ensures Owned(Acquire(s, m)) && Exact(Acquire(s, m)) && Ordered(Acquire(s, m))
  {
    var r := Acquire(s, m);
    AdmittedBeatsOthers(s);
    forall x | 0 <= x < r.defined ensures OwnedLock(r, x) { assert OwnedLock(s, x); }
    forall x, y | 0 <= x < r.defined && 0 <= y < r.defined ensures OrderedPair(r, x, y) {
      assert OrderedPair(s, x, y) && OwnedLock(s, x) && OwnedLock(s, y);
    }
  }

  lemma AcquireKeepsPriorities(s: KState, m: nat)
    requires Shape(s) && LockInv(s) && Live(s, s.active)
    requires m < s.defined && s.locks[m].s != 0 && Admits(s)
    requires s.locks[m].ceiling <= s.threads[s.active].staticPrio
    ensures Priorities(Acquire(s, m))
  {
    var r := Acquire(s, m);
    assert OwnedLock(s, m);
    forall i | 0 <= i < r.n && r.threads[i].state != Defunct ensures PriorityOk(r, i) {
      assert PriorityOk(s, i);
      if s.threads[i].dynPrio < s.threads[i].staticPrio {
        var x: nat :| HeldBy(s, x, i) && s.locks[x].ceiling <= s.threads[i].dynPrio;
        assert HeldBy(r, x, i);
      }
    }
  }

  lemma AcquireKeepsSuspended(s: KState, m: nat)
    requires Shape(s) && LockInv(s) && Live(s, s.active)
    requires m < s.defined && s.locks[m].s != 0 && Admits(s)
    requires s.locks[m].ceiling <= s.threads[s.active].staticPrio
    requires s.threads[s.active].state != Blocked
    ensures Suspended(Acquire(s, m)) && Parked(Acquire(s, m))
  {
    var r := Acquire(s, m);
    forall i | 0 <= i < r.n && r.threads[i].pending.Some? ensures SuspendedOk(r, i) { assert SuspendedOk(s, i); }
    forall i | 0 <= i < r.n && r.threads[i].state == Blocked
      ensures r.threads[i].pending.Some? && exists x: nat :: Queued(r, x, i)
    {
      var x: nat :| Queued(s, x, i);
      assert Queued(r, x, i);
    }
  }

  lemma AcquireKeepsQueues(s: KState, m: nat)
    requires Shape(s) && LockInv(s) && Live(s, s.active)
    requires m < s.defined && s.locks[m].s != 0 && Admits(s)
    ensures Queues(Acquire(s, m))
  {
    var r := Acquire(s, m);
    AdmittedBeatsOthers(s);
    assert OwnedLock(s, m);
    forall x, j | 0 <= x < r.defined && 0 <= j < |r.locks[x].waiters| ensures QueuedOk(r, x, r.locks[x].waiters[j]) {
      var w := s.locks[x].waiters[j];
      assert QueuedOk(s, x, w) && OwnedLock(s, x);
      if Holder(r, w) { var y: nat :| HeldBy(r, y, w); assert HeldBy(s, y, w); }
    }
  }

  // ----- blocking

  /** When the test fails, some lock is locked: the code's use of the cached lock pointer is safe. */
  lemma RefusalHasTop(s: KState)
    requires Shape(s) && LockInv(s) && Live(s, s.active) && !Admits(s)
    ensures s.top.Some?
  {
    assert PriorityOk(s, s.active);
  }

  /** A thread that holds locks and asks for a locked lock is older than that lock's holder. */
  lemma RefusedHolderIsOlder(s: KState, x: nat)
    requires Shape(s) && LockInv(s) && Live(s, s.active)
    requires x < s.defined && s.locks[x].locker.Some? && s.locks[x].locker != Some(s.active)
    requires s.locks[x].ceiling <= s.threads[s.active].staticPrio
    ensures Holder(s, s.active) ==> s.threads[s.locks[x].locker.value].staticPrio < s.threads[s.active].staticPrio
  {
    if Holder(s, s.active) {
      var y: nat :| HeldBy(s, y, s.active);
      assert OrderedPair(s, x, y) && OwnedLock(s, y);
    }
  }

  /** A donor's priority is no more urgent than the ceiling of the lock it waits for, or of one the
      receiver holds anyway. */
  lemma DonorNotAboveCeiling(s: KState, x: nat)
    requires Shape(s) && LockInv(s) && Live(s, s.active)
    requires x < s.defined && s.locks[x].locker.Some? && s.locks[x].locker != Some(s.active)
    requires s.locks[x].ceiling <= s.threads[s.active].staticPrio
    ensures s.locks[x].ceiling <= s.threads[s.active].dynPrio
  {
    var a := s.active;
    assert PriorityOk(s, a) && OwnedLock(s, x);
    if s.threads[a].dynPrio < s.threads[a].staticPrio {
      var z: nat :| HeldBy(s, z, a) && s.locks[z].ceiling <= s.threads[a].dynPrio;
      assert OwnedLock(s, z) && OrderedPair(s, z, x);
    }
  }

  /** What the joined queue has in common with the requested lock: a locker other than the requester, and
      a ceiling the requester does not beat. */
  lemma JoinedQueueOk(s: KState, m: nat)
    requires Shape(s) && LockInv(s) && Live(s, s.active)
    requires m < s.defined && s.locks[m].locker != Some(s.active)
    requires s.locks[m].ceiling <= s.threads[s.active].staticPrio
    requires !(Admits(s) && s.locks[m].s != 0)
    ensures s.top.Some?
    ensures var q := JoinedQueue(s, m);
            && s.locks[q].s == 0 && s.locks[q].locker.Some? && s.locks[q].locker != Some(s.active)
            && s.locks[q].ceiling <= s.threads[s.active].staticPrio
  {
    assert OwnedLock(s, m) && PriorityOk(s, s.active);
    if s.locks[m].s != 0 {
      RefusalHasTop(s);
      assert OwnedLock(s, s.top.value);
    }
  }

  predicate CanBlock(s: KState, m: nat)
    requires Shape(s)
  {
    && Live(s, s.active) && m < s.defined && s.locks[m].locker != Some(s.active)
    && s.locks[m].ceiling <= s.threads[s.active].staticPrio
    && !(Admits(s) && s.locks[m].s != 0)
  }

  /** What a refusal does to one control block; the receiver is the locker of the requested lock. */
  predicate RefusedTcb(th: Tcb, r: Tcb, m: nat, mine: bool, receiver: bool, prio: Word) {
    r == th.(state := if mine then Blocked else th.state,
             pending := if mine then Some(m) else th.pending,
             dynPrio := if receiver then Min(th.dynPrio, prio) else th.dynPrio)
  }

  /** r is the state after the active thread's request for m was refused in s. */
  ghost predicate Refused(s: KState, m: nat, r: KState)
    requires Shape(s) && m < s.defined
  {
    && s.top.Some?
    && Shape(r) && r.n == s.n && r.defined == s.defined && r.active == s.active
    && r.ceiling == s.ceiling && r.top == s.top
    && r.locks == Enqueue(s.locks, JoinedQueue(s, m), s.active)
    && (forall i :: 0 <= i < |s.threads| ==>
          RefusedTcb(s.threads[i], r.threads[i], m, i == s.active,
                     Locked(s.locks[m]) && s.locks[m].locker == Some(i), s.threads[s.active].dynPrio))
  }

  lemma BlockIsRefused(s: KState, m: nat)
    requires Shape(s) && LockInv(s) && CanBlock(s, m)
    ensures Refused(s, m, Block(s, m))
  {
    JoinedQueueOk(s, m);
  }

  /** Refusing a request, with queueing and inheritance, keeps the invariant exactly when the joined queue has
      a place left. */
  lemma BlockKeepsIff(s: KState, m: nat)
    requires Shape(s) && LockInv(s) && CanBlock(s, m)
    ensures LockInv(Block(s, m)) <==> !Overruns(s, m)
  {
    BlockIsRefused(s, m);
    JoinedQueueOk(s, m);
    var r := Block(s, m);
    var q := JoinedQueue(s, m);
    assert r.locks == Enqueue(s.locks, q, s.active);
    if Overruns(s, m) {
      assert !ListFits(r.locks[q]);
    } else {
      RefusedKeeps(s, m, r);
    }
  }

  lemma RefusedKeeps(s: KState, m: nat, r: KState)
    requires Shape(s) && LockInv(s) && CanBlock(s, m) && Refused(s, m, r) && !Overruns(s, m)
    ensures LockInv(r)
  {
    RefusedKeepsLocks(s, m, r);
    RefusedKeepsPriorities(s, m, r);
    RefusedKeepsQueues(s, m, r);
    RefusedKeepsSuspended(s, m, r);
    RefusedKeepsParked(s, m, r);
    RefusedKeepsFits(s, m, r);
  }

  lemma RefusedKeepsFits(s: KState, m: nat, r: KState)
    requires Shape(s) && LockInv(s) && CanBlock(s, m) && Refused(s, m, r) && !Overruns(s, m)
    ensures Fits(r)
  {
    JoinedQueueOk(s, m);
    forall x | 0 <= x < r.defined ensures ListFits(r.locks[x]) {
      assert ListFits(s.locks[x]);
    }
  }

  lemma RefusedAt(s: KState, m: nat, r: KState, i: nat)
    requires Shape(s) && CanBlock(s, m) && Refused(s, m, r)
    requires i < |s.threads|
    ensures RefusedTcb(s.threads[i], r.threads[i], m, i == s.active,
                       Locked(s.locks[m]) && s.locks[m].locker == Some(i), s.threads[s.active].dynPrio)
  {
  }

  lemma RefusedKeepsLocks(s: KState, m: nat, r: KState)
    requires Shape(s) && LockInv(s) && CanBlock(s, m) && Refused(s, m, r)
    ensures Owned(r) && Exact(r) && Ordered(r)
  {
    JoinedQueueOk(s, m);
    forall x | 0 <= x < r.defined ensures OwnedLock(r, x) {
      assert OwnedLock(s, x);
      if s.locks[x].locker.Some? { RefusedAt(s, m, r, s.locks[x].locker.value); }
    }
    forall x, y | 0 <= x < r.defined && 0 <= y < r.defined ensures OrderedPair(r, x, y) {
      assert OrderedPair(s, x, y) && OwnedLock(s, x) && OwnedLock(s, y);
      RefusedKeepsPair(s, m, r, x, y);
    }
    hide OwnedLock, OrderedPair, LockInv, Refused;
  }

  lemma RefusedKeepsPair(s: KState, m: nat, r: KState, x: nat, y: nat)
    requires Shape(s) && CanBlock(s, m) && Refused(s, m, r) && x < r.defined && y < r.defined && r.defined == s.defined
    requires OrderedPair(s, x, y) && OwnedLock(s, x) && OwnedLock(s, y)
    ensures OrderedPair(r, x, y)
  {
    assert LockInRange(s.locks[x], s.n) && LockInRange(s.locks[y], s.n);
    if s.locks[x].locker.Some? { RefusedAt(s, m, r, s.locks[x].locker.value); }
    if s.locks[y].locker.Some? { RefusedAt(s, m, r, s.locks[y].locker.value); }
  }

  lemma RefusedKeepsSuspended(s: KState, m: nat, r: KState)
    requires Shape(s) && LockInv(s) && CanBlock(s, m) && Refused(s, m, r)
    ensures Suspended(r)
  {
    forall i | 0 <= i < r.n && r.threads[i].pending.Some? ensures SuspendedOk(r, i) {
      RefusedAt(s, m, r, i);
      if i != s.active { assert SuspendedOk(s, i); }
    }
  }

  lemma RefusedKeepsParked(s: KState, m: nat, r: KState)
    requires Shape(s) && LockInv(s) && CanBlock(s, m) && Refused(s, m, r)
    ensures Parked(r)
  {
    var q := JoinedQueue(s, m);
    assert r.locks[q].waiters[|s.locks[q].waiters|] == s.active;
    assert Queued(r, q, s.active);
    RefusedAt(s, m, r, s.active);
    forall i | 0 <= i < r.n && r.threads[i].state == Blocked && i != s.active
      ensures r.threads[i].pending.Some? && exists x: nat :: Queued(r, x, i)
    {
      RefusedAt(s, m, r, i);
      var x: nat :| Queued(s, x, i);
      var j :| 0 <= j < |s.locks[x].waiters| && s.locks[x].waiters[j] == i;
      assert r.locks[x].waiters[j] == i;
      assert Queued(r, x, i);
    }
  }

  lemma RefusedKeepsPriorities(s: KState, m: nat, r: KState)
    requires Shape(s) && LockInv(s) && CanBlock(s, m) && Refused(s, m, r)
    ensures Priorities(r)
  {
    assert OwnedLock(s, m);
    forall i | 0 <= i < r.n && r.threads[i].state != Defunct ensures PriorityOk(r, i) {
      RefusedAt(s, m, r, i);
      assert PriorityOk(s, i);
      if r.threads[i].dynPrio < s.threads[i].dynPrio {
        DonorNotAboveCeiling(s, m);
        assert HeldBy(r, m, i);
      } else if s.threads[i].dynPrio < s.threads[i].staticPrio {
        var x: nat :| HeldBy(s, x, i) && s.locks[x].ceiling <= s.threads[i].dynPrio;
        assert HeldBy(r, x, i);
      }
    }
  }

  /** A queued receiver stays behind the locker it waits for even after its priority is raised. */
  lemma DonationBehindLocker(s: KState, m: nat, x: nat, j: nat)
    requires Shape(s) && LockInv(s) && Live(s, s.active)
    requires m < s.defined && Locked(s.locks[m]) && s.locks[m].locker != Some(s.active)
    requires s.locks[m].ceiling <= s.threads[s.active].staticPrio
    requires x < s.defined && j < |s.locks[x].waiters| && s.locks[m].locker == Some(s.locks[x].waiters[j])
    ensures s.locks[x].locker.Some?
    ensures s.threads[s.locks[x].locker.value].dynPrio <= s.threads[s.active].dynPrio
  {
    var w := s.locks[x].waiters[j];
    assert QueuedOk(s, x, w) && OwnedLock(s, x) && OwnedLock(s, m) && HeldBy(s, m, w);
    DonorNotAboveCeiling(s, m);
    assert OrderedPair(s, x, m);
    assert PriorityOk(s, s.locks[x].locker.value);
  }

  lemma RefusedKeepsQueues(s: KState, m: nat, r: KState)
    requires Shape(s) && LockInv(s) && CanBlock(s, m) && Refused(s, m, r)
    ensures Queues(r)
  {
    forall x, j | 0 <= x < r.defined && 0 <= j < |r.locks[x].waiters| ensures QueuedOk(r, x, r.locks[x].waiters[j]) {
      RefusedKeepsPlace(s, m, r, x, j);
    }
  }

  lemma RefusedKeepsPlace(s: KState, m: nat, r: KState, x: nat, j: nat)
    requires Shape(s) && LockInv(s) && CanBlock(s, m) && Refused(s, m, r)
    requires x < r.defined && j < |r.locks[x].waiters|
    ensures QueuedOk(r, x, r.locks[x].waiters[j])
  {
    if x == JoinedQueue(s, m) && j == |s.locks[x].waiters| {
      RefusedNewPlace(s, m, r);
    } else {
      RefusedOldPlace(s, m, r, x, j);
    }
  }

  /** The refused thread in its new place. */
  lemma RefusedNewPlace(s: KState, m: nat, r: KState)
    requires Shape(s) && LockInv(s) && CanBlock(s, m) && Refused(s, m, r)
    ensures QueuedOk(r, JoinedQueue(s, m), s.active)
  {
    JoinedQueueOk(s, m);
    var q := JoinedQueue(s, m);
    RefusedHolderIsOlder(s, q);
    if Holder(r, s.active) { var y: nat :| HeldBy(r, y, s.active); assert HeldBy(s, y, s.active); }
    assert OwnedLock(s, q);
    RefusedAt(s, m, r, s.active);
    RefusedAt(s, m, r, s.locks[q].locker.value);
  }

  /** The threads already queued, one of which may have been given a higher priority. */
  lemma RefusedOldPlace(s: KState, m: nat, r: KState, x: nat, j: nat)
    requires Shape(s) && LockInv(s) && CanBlock(s, m) && Refused(s, m, r)
    requires x < s.defined && j < |s.locks[x].waiters|
    ensures QueuedOk(r, x, s.locks[x].waiters[j])
  {
    var w := s.locks[x].waiters[j];
    assert QueuedOk(s, x, w) && OwnedLock(s, x);
    if Holder(r, w) { var y: nat :| HeldBy(r, y, w); assert HeldBy(s, y, w); }
    RefusedAt(s, m, r, w);
    RefusedAt(s, m, r, s.locks[x].locker.value);
    if Locked(s.locks[m]) && s.locks[m].locker == Some(w) { DonationBehindLocker(s, m, x, j); }
  }
}
