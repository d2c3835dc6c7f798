/** What the priority-ceiling protocol guarantees: mutual exclusion, exact caches, no deadlock. */
module Protocol {
  import opened Words
  import opened KernelState
  import opened Scheduling
  import opened Ceilings
  import opened LockInvariant
  import opened LockSteps
  import opened UnlockSteps
  import opened Runs

  // ----- caches and priorities

  /** The cached ceiling is the one computed from scratch, and the cached lock attains it. */
  lemma CacheIsExact(s: KState)
    requires Shape(s) && LockInv(s)
    ensures s.ceiling == MinCeiling(s.locks, s.defined)
    ensures s.top.None? <==> (forall x :: 0 <= x < s.defined ==> !Locked(s.locks[x]))
    ensures s.top.Some? ==> Locked(s.locks[s.top.value])
    ensures s.top.Some? ==> s.locks[s.top.value].ceiling == MinCeiling(s.locks, s.defined)
  {
    MinCeilingMeaning(s.locks, s.defined);
  }

  /** Without a lock a thread runs at its static priority; with locks, between its static priority and
      the most urgent ceiling it holds. */
  lemma PriorityBand(s: KState, i: nat)
    requires Shape(s) && LockInv(s) && Live(s, i)
    ensures s.threads[i].dynPrio <= s.threads[i].staticPrio
    ensures !Holder(s, i) ==> s.threads[i].dynPrio == s.threads[i].staticPrio
    ensures Holder(s, i) ==> exists x: nat :: HeldBy(s, x, i) && s.locks[x].ceiling <= s.threads[i].dynPrio
  {
    assert PriorityOk(s, i);
    if x: nat :| HeldBy(s, x, i) { HolderNotAboveCeiling(s, i, x); }
  }

  // ----- deadlock

  /** Thread a stands in the queue of lock x, or has asked for it and not got it. The two can differ: a thread
      stopped by the ceiling stands in the queue of the cached lock, and its own may have been taken meanwhile. */
  predicate Awaits(s: KState, x: nat, a: nat)
    requires Shape(s)
  {
    Queued(s, x, a) || (a < s.n && s.threads[a].pending == Some(x))
  }

  /** Thread a awaits a lock that b holds. */
  ghost predicate WaitsFor(s: KState, a: nat, b: nat)
    requires Shape(s)
  {
    exists x: nat :: Awaits(s, x, a) && HeldBy(s, x, b)
  }

  ghost predicate WaitPath(s: KState, p: seq<nat>)
    requires Shape(s)
  {
    forall k :: 0 < k < |p| ==> WaitsFor(s, p[k-1], p[k])
  }

  ghost predicate InSomeQueue(s: KState, a: nat)
    requires Shape(s)
  {
    exists x: nat :: Queued(s, x, a)
  }

  lemma QueuedFacts(s: KState, x: nat, a: nat)
    requires Shape(s) && LockInv(s) && Queued(s, x, a)
    ensures QueuedOk(s, x, a)
  {
    var j :| 0 <= j < |s.locks[x].waiters| && s.locks[x].waiters[j] == a;
    assert QueuedOk(s, x, s.locks[x].waiters[j]);
  }

  /** A holder waits only for strictly more urgent holders, never for itself. */
  lemma WaitsForMoreUrgent(s: KState, a: nat, b: nat)
    requires Shape(s) && LockInv(s) && WaitsFor(s, a, b)
    ensures a != b && Holder(s, b) && Live(s, b) && Live(s, a)
    ensures Holder(s, a) ==> s.threads[b].staticPrio < s.threads[a].staticPrio
  {
    var x: nat :| Awaits(s, x, a) && HeldBy(s, x, b);
    if Queued(s, x, a) { QueuedFacts(s, x, a); } else { assert SuspendedOk(s, a); }
    assert OwnedLock(s, x);
    if y: nat :| HeldBy(s, y, a) {
      assert OwnedLock(s, y) && OrderedPair(s, x, y);
    }
  }

  lemma {:induction false} PathDescends(s: KState, p: seq<nat>)
    requires Shape(s) && LockInv(s) && WaitPath(s, p) && |p| >= 2 && Holder(s, p[0])
    ensures Live(s, p[0]) && Live(s, p[|p|-1]) && Holder(s, p[|p|-1])
    ensures s.threads[p[|p|-1]].staticPrio < s.threads[p[0]].staticPrio
  {
    WaitsForMoreUrgent(s, p[|p|-2], p[|p|-1]);
    if |p| > 2 {
      var q := p[..|p|-1];
      assert forall k :: 0 < k < |q| ==> WaitsFor(s, q[k-1], q[k]);
      PathDescends(s, q);
    }
  }

  /** No deadlock: the waits-for relation, over queues and over locks asked for, has no cycle of any length. */
  lemma NoCycle(s: KState, p: seq<nat>)
    requires Shape(s) && LockInv(s) && WaitPath(s, p) && |p| >= 2
    ensures p[0] != p[|p|-1]
  {
    WaitsForMoreUrgent(s, p[|p|-2], p[|p|-1]);
    if p[0] == p[|p|-1] { PathDescends(s, p); }
  }

  /** If any lock is held, the locker of the cached lock is the most urgent holder, waits for nobody and
      is not Blocked. */
  lemma NewestHolderIsFree(s: KState)
    requires Inv(s) && s.top.Some?
    ensures s.locks[s.top.value].locker.Some?
    ensures var p := s.locks[s.top.value].locker.value;
            && Live(s, p) && !InSomeQueue(s, p) && s.threads[p].state != Blocked
            && (forall y: nat, q: nat :: HeldBy(s, y, q) && q != p ==> s.threads[p].staticPrio < s.locks[y].ceiling)
            && (forall q: nat :: Holder(s, q) && q != p ==>
                  Live(s, q) && s.threads[p].staticPrio < s.threads[q].staticPrio)
  {
    assert OwnedLock(s, s.top.value);
    var p := s.locks[s.top.value].locker.value;
    forall y: nat, q: nat | HeldBy(s, y, q) && q != p
      ensures s.threads[p].staticPrio < s.locks[y].ceiling && Live(s, q)
      ensures s.threads[p].staticPrio < s.threads[q].staticPrio
    {
      assert OwnedLock(s, y);
      TopLockerIsNewest(s, p, y);
    }
    forall x: nat ensures !Queued(s, x, p) {
      if Queued(s, x, p) {
        var j :| 0 <= j < |s.locks[x].waiters| && s.locks[x].waiters[j] == p;
        QueuedNotAdmitted(s, x, j);
      }
    }
  }

  /** A legal request by the most urgent holder is granted at once, on a first attempt or a later one. */
  lemma NewestHolderIsServed(s: KState, m: nat)
    requires Inv(s) && s.active < s.n && m < s.defined
    requires s.top.Some? && s.locks[s.top.value].locker == Some(s.active)
    requires s.locks[m].locker != Some(s.active) && s.locks[m].ceiling <= s.threads[s.active].staticPrio
    ensures Lock(s, m) == Attempt(s, m) == Acquire(s, m) == Settle(Lock(s, m))
    ensures Acquire(s, m).locks[m].locker == Some(s.active) && Acquire(s, m).threads[s.active].state == Running
  {
    assert OwnedLock(s, m);
    if s.locks[m].locker.Some? { TopLockerIsNewest(s, s.active, m); }
  }

  /** Following lockers from any waiting thread leads to a holder that waits for nobody. */
  lemma {:induction false} ChainEnds(s: KState, a: nat) returns (p: seq<nat>)
    requires Inv(s) && InSomeQueue(s, a)
    ensures |p| >= 2 && p[0] == a && WaitPath(s, p)
    ensures Live(s, p[|p|-1]) && Holder(s, p[|p|-1]) && !InSomeQueue(s, p[|p|-1])
    ensures s.threads[p[|p|-1]].state != Blocked
    decreases if Holder(s, a) then 0 else 1, if a < |s.threads| then s.threads[a].staticPrio else 0
  {
    var b := NextInChain(s, a);
    if InSomeQueue(s, b) {
      var q := ChainEnds(s, b);
      p := [a] + q;
      forall k | 0 < k < |p| ensures WaitsFor(s, p[k-1], p[k]) {
        if k > 1 { assert WaitsFor(s, q[k-2], q[k-1]); }
      }
    } else {
      p := [a, b];
    }
  }

  lemma NextInChain(s: KState, a: nat) returns (b: nat)
    requires Inv(s) && InSomeQueue(s, a)
    ensures WaitsFor(s, a, b) && Live(s, a) && Live(s, b) && Holder(s, b)
    ensures Holder(s, a) ==> s.threads[b].staticPrio < s.threads[a].staticPrio
    ensures !InSomeQueue(s, b) ==> s.threads[b].state != Blocked
  {
    var x: nat :| Queued(s, x, a);
    QueuedFacts(s, x, a);
    b := s.locks[x].locker.value;
    assert Awaits(s, x, a) && HeldBy(s, x, b);
    WaitsForMoreUrgent(s, a, b);
  }

  // ----- the admission rule

  /** The textbook rule: the thread is strictly more urgent than the ceiling of every lock that other
      threads hold. */
  ghost predicate BeatsOthers(s: KState, a: nat)
    requires Shape(s) && a < s.n
  {
    forall y :: 0 <= y < s.defined && s.locks[y].locker.Some? && s.locks[y].locker != Some(a) ==>
      s.threads[a].staticPrio < s.locks[y].ceiling
  }

  /** The test on cached ceiling, cached lock and inherited priority is the textbook rule. */
  lemma AdmitsIsTextbook(s: KState)
    requires Inv(s) && s.active < s.n
    ensures Admits(s) <==> BeatsOthers(s, s.active)
  {
    if Admits(s) { AdmittedBeatsOthers(s); } else { RefusedIsBeaten(s); }
  }

  lemma RefusedIsBeaten(s: KState)
    requires Inv(s) && s.active < s.n && !Admits(s)
    ensures s.top.Some? && s.locks[s.top.value].locker.Some? && s.locks[s.top.value].locker != Some(s.active)
    ensures s.locks[s.top.value].ceiling <= s.threads[s.active].staticPrio
  {
    RefusalHasTop(s);
    assert OwnedLock(s, s.top.value) && PriorityOk(s, s.active);
  }

  /** A legal request for a lock not already held is granted exactly under the textbook rule; when it is
      refused the thread stops running and stands in a queue. */
  lemma GrantIffTextbook(s: KState, m: nat)
    requires Inv(s) && s.active < s.n && m < s.defined
    requires s.locks[m].locker != Some(s.active) && s.locks[m].ceiling <= s.threads[s.active].staticPrio
    ensures var r := Attempt(s, m);
            && (BeatsOthers(s, s.active) <==> r.locks[m].locker == Some(s.active))
            && (BeatsOthers(s, s.active) ==> r.threads[s.active].state == Running && !r.pendsv)
            && (!BeatsOthers(s, s.active) ==>
                  r.threads[s.active].state == Blocked && r.pendsv && InSomeQueue(r, s.active))
  {
    AdmitsIsTextbook(s);
    assert OwnedLock(s, m);
    if !Admits(s) {
      BlockIsRefused(s, m);
      RefusedAt(s, m, Block(s, m), s.active);
      var q := JoinedQueue(s, m);
      assert Block(s, m).locks[q].waiters[|s.locks[q].waiters|] == s.active;
      assert Queued(Block(s, m), q, s.active);
    }
  }

  /** The classical bound behind "blocked at most once": at most one less urgent thread holds a lock whose
      ceiling can stop a given thread. */
  lemma OneBlocker(s: KState, i: nat, x: nat, y: nat)
    requires Shape(s) && LockInv(s) && Live(s, i)
    requires x < s.defined && y < s.defined && s.locks[x].locker.Some? && s.locks[y].locker.Some?
    requires s.threads[i].staticPrio < s.threads[s.locks[x].locker.value].staticPrio
    requires s.threads[i].staticPrio < s.threads[s.locks[y].locker.value].staticPrio
    requires s.locks[x].ceiling <= s.threads[i].staticPrio && s.locks[y].ceiling <= s.threads[i].staticPrio
    ensures s.locks[x].locker == s.locks[y].locker
  {
    assert OrderedPair(s, x, y);
  }

  // ----- inheritance

  /** After a refusal the queue's locker is at least as urgent as the refused thread exactly when the
      requested lock itself was locked, or the locker already was: a thread stopped only by the ceiling
      passes nothing on. */
  lemma InheritsIffLocked(s: KState, m: nat)
    requires Inv(s) && s.active < s.n && m < s.defined
    requires s.locks[m].locker != Some(s.active) && s.locks[m].ceiling <= s.threads[s.active].staticPrio
    requires !BeatsOthers(s, s.active)
    ensures s.top.Some? && s.locks[JoinedQueue(s, m)].locker.Some?
    ensures var p := s.locks[JoinedQueue(s, m)].locker.value;
            Block(s, m).threads[p].dynPrio <= s.threads[s.active].dynPrio <==>
              (Locked(s.locks[m]) || s.threads[p].dynPrio <= s.threads[s.active].dynPrio)
  {
    AdmitsIsTextbook(s);
    BlockIsRefused(s, m);
    JoinedQueueOk(s, m);
    RefusedAt(s, m, Block(s, m), s.locks[JoinedQueue(s, m)].locker.value);
  }

  /** Every thread queued for a lock it asked for has passed its priority to the lock's holder. */
  lemma DirectWaitersInherited(s: KState, x: nat, j: nat)
    requires Shape(s) && LockInv(s) && x < s.defined && j < |s.locks[x].waiters|
    requires s.threads[s.locks[x].waiters[j]].pending == Some(x)
    ensures s.locks[x].locker.Some?
    ensures s.threads[s.locks[x].locker.value].dynPrio <= s.threads[s.locks[x].waiters[j]].dynPrio
  {
    assert QueuedOk(s, x, s.locks[x].waiters[j]);
  }

  /** Thread a is queued for the lock it asked for, and b holds it. */
  ghost predicate WaitsDirectly(s: KState, a: nat, b: nat)
    requires Shape(s)
  {
    exists x: nat :: Queued(s, x, a) && HeldBy(s, x, b) && a < s.n && s.threads[a].pending == Some(x)
  }

  /** Inheritance is transitive: at the end of any chain of direct waits the last holder is at least as urgent as
      the first thread. */
  lemma {:induction false} InheritedAlongPath(s: KState, p: seq<nat>)
    requires Shape(s) && LockInv(s) && |p| >= 2
    requires forall k :: 0 < k < |p| ==> WaitsDirectly(s, p[k-1], p[k])
    ensures Live(s, p[0]) && Live(s, p[|p|-1]) && s.threads[p[|p|-1]].dynPrio <= s.threads[p[0]].dynPrio
  {
    var a, b := p[|p|-2], p[|p|-1];
    var x: nat :| Queued(s, x, a) && HeldBy(s, x, b) && a < s.n && s.threads[a].pending == Some(x);
    var j :| 0 <= j < |s.locks[x].waiters| && s.locks[x].waiters[j] == a;
    DirectWaitersInherited(s, x, j);
    QueuedFacts(s, x, a);
    assert OwnedLock(s, x);
    if |p| > 2 {
      var q := p[..|p|-1];
      assert forall k :: 0 < k < |q| ==> WaitsDirectly(s, q[k-1], q[k]);
      InheritedAlongPath(s, q);
    }
  }
}
