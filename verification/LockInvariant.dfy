/** The invariant of the priority-ceiling protocol, and that every operation keeps it. */
module LockInvariant {
  import opened Words
  import opened KernelState
  import opened Ceilings

  // ----- the invariant

  /** A lock is locked exactly when it has a locker: a live thread entitled to the lock. */
  ghost predicate Owned(s: KState)
    requires Shape(s)
  {
    forall x :: 0 <= x < s.defined ==> OwnedLock(s, x)
  }

  ghost predicate OwnedLock(s: KState, x: nat)
    requires Shape(s) && x < s.defined
  {
    var m := s.locks[x];
    && (m.s == 0 || m.s == 1)
    && (m.s == 0 <==> m.locker.Some?)
    && (m.s == 1 ==> m.waiters == [])
    && (m.locker.Some? ==> Live(s, m.locker.value) && m.ceiling <= s.threads[m.locker.value].staticPrio)
  }

  /** The cached ceiling is the least ceiling of a locked lock, and the cached lock has it. */
  ghost predicate Exact(s: KState)
    requires Shape(s)
  {
    && (forall x :: 0 <= x < s.defined && s.locks[x].s == 0 ==> s.ceiling <= s.locks[x].ceiling)
    && (s.top.Some? ==> s.locks[s.top.value].s == 0 && s.locks[s.top.value].ceiling == s.ceiling)
    && (s.top.None? ==> s.ceiling == MAX && forall x :: 0 <= x < s.defined ==> s.locks[x].s != 0)
  }

  /** Of two threads holding locks, one is strictly more urgent than every ceiling the other holds. */
  ghost predicate Ordered(s: KState)
    requires Shape(s)
  {
    forall x, y :: 0 <= x < s.defined && 0 <= y < s.defined ==> OrderedPair(s, x, y)
  }

  ghost predicate OrderedPair(s: KState, x: nat, y: nat)
    requires Shape(s) && x < s.defined && y < s.defined
  {
    s.locks[x].locker.Some? && s.locks[y].locker.Some? && s.locks[x].locker != s.locks[y].locker ==>
      || s.threads[s.locks[x].locker.value].staticPrio < s.locks[y].ceiling
      || s.threads[s.locks[y].locker.value].staticPrio < s.locks[x].ceiling
  }

  /** A dynamic priority is raised above the static one only on account of a lock held, and never
      above that lock's ceiling. */
  ghost predicate Priorities(s: KState)
    requires Shape(s)
  {
    forall i :: 0 <= i < s.n && s.threads[i].state != Defunct ==> PriorityOk(s, i)
  }

  ghost predicate PriorityOk(s: KState, i: nat)
    requires Shape(s) && i < s.n
  {
    && s.threads[i].staticPrio < MAX
    && s.threads[i].dynPrio <= s.threads[i].staticPrio
    && (s.threads[i].dynPrio < s.threads[i].staticPrio ==>
          exists x: nat :: HeldBy(s, x, i) && s.locks[x].ceiling <= s.threads[i].dynPrio)
  }

  /** Who stands in a queue: a live suspended thread, entitled by priority, which is not the locker and,
      if it holds locks itself, is less urgent than the locker. */
  ghost predicate Queues(s: KState)
    requires Shape(s)
  {
    forall x, j :: 0 <= x < s.defined && 0 <= j < |s.locks[x].waiters| ==> QueuedOk(s, x, s.locks[x].waiters[j])
  }

  ghost predicate QueuedOk(s: KState, x: nat, w: nat)
    requires Shape(s) && x < s.defined
  {
    && Live(s, w)
    && s.threads[w].pending.Some?
    && s.locks[x].locker.Some?
    && s.locks[x].locker != Some(w)
    && s.locks[x].ceiling <= s.threads[w].staticPrio
    && (Holder(s, w) ==> s.threads[s.locks[x].locker.value].staticPrio < s.threads[w].staticPrio)
    && (s.threads[w].pending == Some(x) ==> s.threads[s.locks[x].locker.value].dynPrio <= s.threads[w].dynPrio)
  }

  /** A suspended thread is live, entitled to the lock it asked for, and does not hold it. */
  ghost predicate Suspended(s: KState)
    requires Shape(s)
  {
    forall i :: 0 <= i < s.n && s.threads[i].pending.Some? ==> SuspendedOk(s, i)
  }

  ghost predicate SuspendedOk(s: KState, i: nat)
    requires Shape(s) && i < s.n && s.threads[i].pending.Some?
  {
    var m := s.threads[i].pending.value;
    && s.threads[i].state != Defunct
    && m < s.defined
    && s.locks[m].locker != Some(i)
    && s.locks[m].ceiling <= s.threads[i].staticPrio
  }

  predicate Queued(s: KState, x: nat, i: nat)
    requires Shape(s)
  {
    x < s.defined && i in s.locks[x].waiters
  }

  /** A Blocked thread stands in some queue, so an unlock will wake it. */
  ghost predicate Parked(s: KState)
    requires Shape(s)
  {
    forall i :: 0 <= i < s.n && s.threads[i].state == Blocked ==>
      s.threads[i].pending.Some? && exists x: nat :: Queued(s, x, i)
  }

  ghost predicate LockInv(s: KState)
    requires Shape(s)
  {
    && Owned(s) && Exact(s) && Ordered(s) && Priorities(s) && Queues(s) && Suspended(s) && Parked(s)
    && Fits(s)
  }

  // ----- consequences in one state

  lemma OwnedAt(s: KState, x: nat)
    requires Shape(s) && Owned(s) && x < s.defined
    ensures OwnedLock(s, x)
  {
  }

  /** A thread holding a lock has a dynamic priority no more urgent than the global ceiling. */
  lemma HolderNotAboveCeiling(s: KState, i: nat, x: nat)
    requires Shape(s) && LockInv(s) && HeldBy(s, x, i)
    ensures s.ceiling <= s.threads[i].dynPrio
    ensures exists y: nat :: HeldBy(s, y, i) && s.locks[y].ceiling <= s.threads[i].dynPrio
  {
    assert OwnedLock(s, x);
    assert PriorityOk(s, i);
    if s.threads[i].dynPrio < s.threads[i].staticPrio {
      var y: nat :| HeldBy(s, y, i) && s.locks[y].ceiling <= s.threads[i].dynPrio;
      assert OwnedLock(s, y);
    }
  }

  /** The locker of the cached lock is more urgent than every ceiling held by anyone else. */
  lemma TopLockerIsNewest(s: KState, a: nat, y: nat)
    requires Shape(s) && LockInv(s)
    requires s.top.Some? && s.locks[s.top.value].locker == Some(a)
    requires y < s.defined && s.locks[y].locker.Some? && s.locks[y].locker != Some(a)
    ensures s.threads[a].staticPrio < s.locks[y].ceiling
  {
    assert OwnedLock(s, y) && OwnedLock(s, s.top.value);
    assert OrderedPair(s, s.top.value, y);
  }

  /** A thread whose dynamic priority beats the global ceiling holds no lock. */
  lemma UrgentHoldsNothing(s: KState, a: nat)
    requires Shape(s) && LockInv(s) && Live(s, a) && s.threads[a].dynPrio < s.ceiling
    ensures !Holder(s, a) && s.threads[a].dynPrio == s.threads[a].staticPrio
  {
    forall x: nat ensures !HeldBy(s, x, a) {
      if HeldBy(s, x, a) { HolderNotAboveCeiling(s, a, x); }
    }
    assert PriorityOk(s, a);
  }

  /** The dynamic priority of a queued thread is no more urgent than the ceiling of the queue's lock. */
  lemma QueuedNotAboveCeiling(s: KState, y: nat, j: nat)
    requires Shape(s) && LockInv(s) && y < s.defined && j < |s.locks[y].waiters|
    ensures s.locks[y].ceiling <= s.threads[s.locks[y].waiters[j]].dynPrio
  {
    var w := s.locks[y].waiters[j];
    assert QueuedOk(s, y, w) && OwnedLock(s, y) && PriorityOk(s, w);
    if s.threads[w].dynPrio < s.threads[w].staticPrio {
      var z: nat :| HeldBy(s, z, w) && s.locks[z].ceiling <= s.threads[w].dynPrio;
      assert OwnedLock(s, z) && OrderedPair(s, z, y);
    }
  }

  /** No queued thread passes the admission test. */
  lemma QueuedNotAdmitted(s: KState, y: nat, j: nat)
    requires Shape(s) && LockInv(s) && y < s.defined && j < |s.locks[y].waiters|
    ensures s.ceiling <= s.threads[s.locks[y].waiters[j]].dynPrio
    ensures s.top.Some? ==> s.locks[s.top.value].locker != Some(s.locks[y].waiters[j])
  {
    var w := s.locks[y].waiters[j];
    assert QueuedOk(s, y, w) && OwnedLock(s, y);
    QueuedNotAboveCeiling(s, y, j);
    if s.top.Some? && s.locks[s.top.value].locker == Some(w) { TopLockerIsNewest(s, w, y); }
  }

  /** What the admission test means: the thread beats every ceiling held by others and stands in no queue. */
  lemma AdmittedBeatsOthers(s: KState)
    requires Shape(s) && LockInv(s) && Live(s, s.active) && Admits(s)
    ensures forall y :: 0 <= y < s.defined && s.locks[y].locker.Some? && s.locks[y].locker != Some(s.active) ==>
              s.threads[s.active].staticPrio < s.locks[y].ceiling
    ensures forall y, j :: 0 <= y < s.defined && 0 <= j < |s.locks[y].waiters| ==> s.locks[y].waiters[j] != s.active
  {
    var a := s.active;
    forall y | 0 <= y < s.defined && s.locks[y].locker.Some? && s.locks[y].locker != Some(a)
      ensures s.threads[a].staticPrio < s.locks[y].ceiling
    {
      assert OwnedLock(s, y);
      if s.threads[a].dynPrio < s.ceiling { UrgentHoldsNothing(s, a); } else { TopLockerIsNewest(s, a, y); }
    }
    forall y, j | 0 <= y < s.defined && 0 <= j < |s.locks[y].waiters| ensures s.locks[y].waiters[j] != a {
      QueuedNotAdmitted(s, y, j);
    }
  }

  // ----- steps that leave the locks alone

  /** Nothing the lock invariant reads has changed, except that threads may have left the Blocked state. */
  ghost predicate SameLocking(s: KState, r: KState)
    requires Shape(s) && Shape(r)
  {
    && r.n == s.n && r.defined == s.defined && r.locks == s.locks && r.ceiling == s.ceiling && r.top == s.top
    && (forall i :: 0 <= i < s.n ==> SameTcb(s.threads[i], r.threads[i]))
  }

  predicate SameTcb(th: Tcb, th': Tcb) {
    && th'.staticPrio == th.staticPrio && th'.dynPrio == th.dynPrio && th'.pending == th.pending
    && (th'.state == Defunct <==> th.state == Defunct)
    && (th'.state == Blocked ==> th.state == Blocked)
  }

  lemma SameLockingKeeps(s: KState, r: KState)
    requires Shape(s) && LockInv(s) && Shape(r) && SameLocking(s, r)
    ensures LockInv(r)
  {
    forall x | 0 <= x < r.defined ensures OwnedLock(r, x) { assert OwnedLock(s, x); }
    forall x | 0 <= x < r.defined ensures ListFits(r.locks[x]) { assert ListFits(s.locks[x]); }
    forall x, y | 0 <= x < r.defined && 0 <= y < r.defined ensures OrderedPair(r, x, y) {
      assert OrderedPair(s, x, y) && OwnedLock(s, x) && OwnedLock(s, y);
    }
    forall i | 0 <= i < r.n && r.threads[i].state != Defunct ensures PriorityOk(r, i) {
      assert SameTcb(s.threads[i], r.threads[i]) && PriorityOk(s, i);
      if r.threads[i].dynPrio < r.threads[i].staticPrio {
        var x: nat :| HeldBy(s, x, i) && s.locks[x].ceiling <= s.threads[i].dynPrio;
        assert HeldBy(r, x, i);
      }
    }
    forall x, j | 0 <= x < r.defined && 0 <= j < |r.locks[x].waiters| ensures QueuedOk(r, x, r.locks[x].waiters[j]) {
      var w := s.locks[x].waiters[j];
      assert QueuedOk(s, x, w) && OwnedLock(s, x);
      if Holder(r, w) { var y: nat :| HeldBy(r, y, w); assert HeldBy(s, y, w); }
    }
    forall i | 0 <= i < r.n && r.threads[i].pending.Some? ensures SuspendedOk(r, i) {
      assert SameTcb(s.threads[i], r.threads[i]) && SuspendedOk(s, i);
    }
    forall i | 0 <= i < r.n && r.threads[i].state == Blocked
      ensures r.threads[i].pending.Some? && exists x: nat :: Queued(r, x, i)
    {
      assert SameTcb(s.threads[i], r.threads[i]);
      var x: nat :| Queued(s, x, i);
      assert Queued(r, x, i);
    }
  }
}
