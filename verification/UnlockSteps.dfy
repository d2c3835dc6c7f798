/** Unlocking and ending a thread keep the lock invariant; what the recomputed priorities mean. */
module UnlockSteps {
  import opened Words
  import opened KernelState
  import opened Ceilings
  import opened LockInvariant

  // ----- what the recomputation computes

  /** The least ceiling over the locked locks, and a lock that attains it. */
  lemma {:induction false} MinCeilingMeaning(locks: seq<Mutex>, k: nat)
    requires k <= |locks|
    ensures forall x :: 0 <= x < k && Locked(locks[x]) ==> MinCeiling(locks, k) <= locks[x].ceiling
    ensures var h := MinCeilingLock(locks, k);
            h.Some? ==>
              && Locked(locks[h.value]) && locks[h.value].ceiling == MinCeiling(locks, k)
              && forall x :: 0 <= x < h.value && Locked(locks[x]) ==> MinCeiling(locks, k) < locks[x].ceiling
    ensures MinCeilingLock(locks, k).None? ==> MinCeiling(locks, k) == MAX
  {
    if k == 0 {
    } else {
      MinCeilingMeaning(locks, k - 1);
    }
  }

  /** Thread w, other than a, is queued on one of the first k locks and a holds that lock. */
  ghost predicate Donor(threads: seq<Tcb>, locks: seq<Mutex>, k: nat, a: nat, w: nat)
    requires k <= |locks|
  {
    w != a && exists x, j :: QueuedAt(locks, k, a, w, x, j)
  }

  predicate QueuedAt(locks: seq<Mutex>, k: nat, a: nat, w: nat, x: int, j: int)
    requires k <= |locks|
  {
    && 0 <= x < k && Locked(locks[x]) && locks[x].locker == Some(a)
    && 0 <= j < |locks[x].waiters| && locks[x].waiters[j] == w
  }

  lemma {:induction false} DonatedMeaning(threads: seq<Tcb>, waiters: seq<nat>, a: nat, acc: Word)
    requires Below(waiters, |threads|)
    ensures Donated(threads, waiters, a, acc) <= acc
    ensures forall j :: 0 <= j < |waiters| && waiters[j] != a ==>
              Donated(threads, waiters, a, acc) <= threads[waiters[j]].dynPrio
    ensures Donated(threads, waiters, a, acc) == acc ||
              exists j :: 0 <= j < |waiters| && waiters[j] != a &&
                Donated(threads, waiters, a, acc) == threads[waiters[j]].dynPrio
    decreases |waiters|
  {
    if waiters == [] {
    } else {
      DonatedMeaning(threads, waiters[..|waiters|-1], a, acc);
    }
  }

  /** The inherited priority is exactly the least of the static priority and the donors' dynamic ones. */
  lemma {:induction false} InheritedMeaning(threads: seq<Tcb>, locks: seq<Mutex>, k: nat, a: nat)
    requires k <= |locks| && a < |threads|
    requires forall x :: 0 <= x < |locks| ==> Below(locks[x].waiters, |threads|)
    ensures Inherited(threads, locks, k, a) <= threads[a].staticPrio
    ensures forall w: nat :: w < |threads| && Donor(threads, locks, k, a, w) ==>
              Inherited(threads, locks, k, a) <= threads[w].dynPrio
    ensures Inherited(threads, locks, k, a) == threads[a].staticPrio ||
              exists w: nat :: w < |threads| && Donor(threads, locks, k, a, w) &&
                Inherited(threads, locks, k, a) == threads[w].dynPrio
  {
    if k == 0 {
    } else {
      InheritedMeaning(threads, locks, k - 1, a);
      var d := Inherited(threads, locks, k - 1, a);
      var e := Inherited(threads, locks, k, a);
      var mine := Locked(locks[k-1]) && locks[k-1].locker == Some(a);
      if mine { DonatedMeaning(threads, locks[k-1].waiters, a, d); }
      forall w: nat | w < |threads| && Donor(threads, locks, k, a, w) ensures e <= threads[w].dynPrio {
        var x, j :| QueuedAt(locks, k, a, w, x, j);
        if x < k - 1 { assert QueuedAt(locks, k - 1, a, w, x, j); }
      }
      if e == d && d != threads[a].staticPrio {
        var w: nat :| w < |threads| && Donor(threads, locks, k - 1, a, w) && d == threads[w].dynPrio;
        var x, j :| QueuedAt(locks, k - 1, a, w, x, j);
        assert QueuedAt(locks, k, a, w, x, j);
      } else if e != d {
        var q := locks[k-1].waiters;
        var j :| 0 <= j < |q| && q[j] != a && e == threads[q[j]].dynPrio;
        assert QueuedAt(locks, k, a, locks[k-1].waiters[j], k - 1, j);
        assert Donor(threads, locks, k, a, locks[k-1].waiters[j]);
      }
    }
  }

  // ----- unlocking

  predicate CanUnlock(s: KState, m: nat)
    requires Shape(s)
  {
    && Live(s, s.active) && s.threads[s.active].state != Blocked && s.threads[s.active].pending == None
    && HeldBy(s, m, s.active)
  }

  /** The thread at place j of lock x's queue waits for a lock the active thread keeps when it unlocks m. */
  predicate StillWaited(s: KState, m: nat, x: int, j: int)
    requires Shape(s)
  {
    0 <= x < s.defined && x != m && s.locks[x].locker == Some(s.active) && 0 <= j < |s.locks[x].waiters|
  }

  /** Priority d is exactly the static priority of the active thread lowered to the dynamic priorities of
      the threads queued on the locks it keeps when it unlocks m. */
  ghost predicate Recomputed(s: KState, m: nat, d: Word)
    requires Shape(s)
  {
    && (forall x :: 0 <= x < s.defined ==> LockInRange(s.locks[x], s.n))
    && d <= s.threads[s.active].staticPrio
    && (forall x, j :: StillWaited(s, m, x, j) ==> d <= WaiterPrio(s, x, j))
    && (d == s.threads[s.active].staticPrio || exists x, j :: StillWaited(s, m, x, j) && d == WaiterPrio(s, x, j))
  }

  /** The dynamic priority of the thread at place j of lock x's queue. */
  function WaiterPrio(s: KState, x: int, j: int): (r: Word)
    requires Shape(s) && 0 <= x < s.defined && 0 <= j < |s.locks[x].waiters|
  {
    assert LockInRange(s.locks[x], s.n);
    s.threads[s.locks[x].waiters[j]].dynPrio
  }

  /** What an unlock by the holder does to one control block. */
  predicate UnlockedTcb(th: Tcb, r: Tcb, queued: bool, mine: bool) {
    && r == th.(state := if queued || mine then Ready else th.state, dynPrio := r.dynPrio)
    && (!mine ==> r.dynPrio == th.dynPrio)
  }

  /** r is the state after the holder unlocked m in s. */
  ghost predicate Unlocked(s: KState, m: nat, r: KState)
    requires Shape(s) && m < s.defined
  {
    && Shape(r) && r.n == s.n && r.defined == s.defined && r.active == s.active
    && r.locks == s.locks[m := Opened(s.locks[m])]
    && r.ceiling == MinCeiling(r.locks, r.defined) && r.top == MinCeilingLock(r.locks, r.defined)
    && (forall i :: 0 <= i < |s.threads| ==>
          UnlockedTcb(s.threads[i], r.threads[i], i in s.locks[m].waiters, i == s.active))
    && Recomputed(s, m, r.threads[s.active].dynPrio)
  }

  /** Priority d is the active thread's static one lowered to those of its donors. */
  ghost predicate LeastOfDonors(u: KState, d: Word)
    requires Shape(u)
  {
    && d <= u.threads[u.active].staticPrio
    && (forall w: nat :: w < |u.threads| && Donor(u.threads, u.locks, u.defined, u.active, w) ==>
          d <= u.threads[w].dynPrio)
    && (d == u.threads[u.active].staticPrio ||
        exists w: nat ::
          w < |u.threads| && Donor(u.threads, u.locks, u.defined, u.active, w) && d == u.threads[w].dynPrio)
  }

  lemma RecomputeIsLeast(u: KState)
    requires Shape(u)
    ensures LeastOfDonors(u, Recompute(u).threads[u.active].dynPrio)
  {
    assert forall x :: 0 <= x < |u.locks| ==> LockInRange(u.locks[x], u.n);
    InheritedMeaning(u.threads, u.locks, u.defined, u.active);
    hide Donor;
  }

  /** The active thread's new priority, said of the state before. */
  lemma UnlockRecomputes(s: KState, m: nat)
    requires Shape(s) && LockInv(s) && CanUnlock(s, m)
    ensures Recomputed(s, m, Unlock(s, m).threads[s.active].dynPrio)
  {
    assert OwnedLock(s, m);
    var u := Release(s, m);
    RecomputeIsLeast(u);
    assert Unlock(s, m) == Recompute(u) && u.active == s.active;
    hide Recompute, Release, Unlock, LeastOfDonors, LockInv, CanUnlock;
    LeastIsRecomputed(s, m, Recompute(u).threads[s.active].dynPrio);
  }

  lemma LeastIsRecomputed(s: KState, m: nat, d: Word)
    requires Shape(s) && LockInv(s) && CanUnlock(s, m) && LeastOfDonors(Release(s, m), d)
    ensures Recomputed(s, m, d)
  {
    assert forall x :: 0 <= x < s.defined ==> LockInRange(s.locks[x], s.n);
    forall x, j | StillWaited(s, m, x, j) ensures d <= WaiterPrio(s, x, j) { LeastOfWaiters(s, m, d, x, j); }
    if d != s.threads[s.active].staticPrio { SomeWaiterHasIt(s, m, d); }
    hide LockInv, CanUnlock, Release, LeastOfDonors, StillWaited;
  }

  lemma LeastOfWaiters(s: KState, m: nat, d: Word, x: int, j: int)
    requires Shape(s) && LockInv(s) && CanUnlock(s, m) && LeastOfDonors(Release(s, m), d) && StillWaited(s, m, x, j)
    ensures d <= WaiterPrio(s, x, j)
  {
    StillWaitedIsDonor(s, m, x, j);
    hide LockInv, CanUnlock, StillWaited, Donor;
  }

  lemma SomeWaiterHasIt(s: KState, m: nat, d: Word)
    requires Shape(s) && LockInv(s) && CanUnlock(s, m) && LeastOfDonors(Release(s, m), d)
    requires d != s.threads[s.active].staticPrio
    ensures exists x, j :: StillWaited(s, m, x, j) && d == WaiterPrio(s, x, j)
  {
    var u := Release(s, m);
    var w: nat :| w < |u.threads| && Donor(u.threads, u.locks, u.defined, u.active, w) && d == u.threads[w].dynPrio;
    hide LockInv, CanUnlock, Release, Donor;
    ReleasedPriority(s, m, w);
    var x, j := DonorStillWaits(s, m, w);
    assert d == WaiterPrio(s, x, j);
  }

  lemma UnlockIsUnlocked(s: KState, m: nat)
    requires Shape(s) && LockInv(s) && CanUnlock(s, m)
    ensures Unlocked(s, m, Unlock(s, m))
  {
    UnlockRecomputes(s, m);
    UnlockShape(s, m);
  }

  lemma UnlockShape(s: KState, m: nat)
    requires Shape(s) && LockInv(s) && CanUnlock(s, m)
    ensures var r := Unlock(s, m);
            && r.locks == s.locks[m := Opened(s.locks[m])]
            && r.n == s.n && r.defined == s.defined && r.active == s.active
            && r.ceiling == MinCeiling(r.locks, r.defined) && r.top == MinCeilingLock(r.locks, r.defined)
            && (forall i :: 0 <= i < |s.threads| ==>
                  UnlockedTcb(s.threads[i], r.threads[i], i in s.locks[m].waiters, i == s.active))
  {
    assert OwnedLock(s, m);
  }

  lemma ReleasedPriority(s: KState, m: nat, w: nat)
    requires Shape(s) && m < s.defined && w < |s.threads|
    ensures |Release(s, m).threads| == |s.threads| && Release(s, m).threads[w].dynPrio == s.threads[w].dynPrio
  {
    hide Shape;
  }

  lemma DonorStillWaits(s: KState, m: nat, w: nat) returns (x: int, j: int)
    requires Shape(s) && LockInv(s) && CanUnlock(s, m)
    requires var u := Release(s, m); Donor(u.threads, u.locks, s.defined, s.active, w)
    ensures StillWaited(s, m, x, j) && s.locks[x].waiters[j] == w
  {
    var u := Release(s, m);
    x, j :| QueuedAt(u.locks, s.defined, s.active, w, x, j);
    assert StillWaited(s, m, x, j);
  }

  lemma StillWaitedIsDonor(s: KState, m: nat, x: int, j: int)
    requires Shape(s) && LockInv(s) && CanUnlock(s, m) && StillWaited(s, m, x, j)
    ensures var u := Release(s, m); Donor(u.threads, u.locks, u.defined, u.active, s.locks[x].waiters[j])
    ensures Below(s.locks[x].waiters, |s.threads|)
  {
    var u := Release(s, m);
    var w := s.locks[x].waiters[j];
    assert QueuedOk(s, x, w) && OwnedLock(s, x) && LockInRange(s.locks[x], s.n);
    assert QueuedAt(u.locks, u.defined, u.active, w, x, j);
  }

  lemma UnlockKeeps(s: KState, m: nat)
    requires Shape(s) && LockInv(s) && CanUnlock(s, m)
    ensures LockInv(Unlock(s, m))
  {
    UnlockIsUnlocked(s, m);
    UnlockedKeeps(s, m, Unlock(s, m));
  }

  lemma UnlockedKeeps(s: KState, m: nat, r: KState)
    requires Shape(s) && LockInv(s) && CanUnlock(s, m) && Unlocked(s, m, r)
    ensures LockInv(r)
  {
    UnlockedKeepsOwned(s, m, r);
    UnlockedKeepsOrder(s, m, r);
    UnlockedKeepsExact(s, m, r);
    UnlockedKeepsPriorities(s, m, r);
    UnlockedKeepsQueues(s, m, r);
    UnlockedKeepsSuspended(s, m, r);
  }

  lemma UnlockedKeepsOwned(s: KState, m: nat, r: KState)
    requires Shape(s) && LockInv(s) && CanUnlock(s, m) && Unlocked(s, m, r)
    ensures Owned(r)
  {
    forall x | 0 <= x < r.defined ensures OwnedLock(r, x) { assert OwnedLock(s, x); }
  }

  lemma UnlockedKeepsOrder(s: KState, m: nat, r: KState)
    requires Shape(s) && LockInv(s) && CanUnlock(s, m) && Unlocked(s, m, r)
    ensures Ordered(r)
  {
    forall x, y | 0 <= x < r.defined && 0 <= y < r.defined ensures OrderedPair(r, x, y) {
      assert OrderedPair(s, x, y) && OwnedLock(s, x) && OwnedLock(s, y);
    }
  }

  lemma UnlockedKeepsExact(s: KState, m: nat, r: KState)
    requires Shape(s) && LockInv(s) && CanUnlock(s, m) && Unlocked(s, m, r)
    ensures Exact(r)
  {
    MinCeilingMeaning(r.locks, r.defined);
    forall x | 0 <= x < r.defined && r.locks[x].s == 0 ensures r.locks[x].ceiling < MAX {
      assert OwnedLock(s, x) && PriorityOk(s, r.locks[x].locker.value);
    }
  }

  lemma UnlockedKeepsPriorities(s: KState, m: nat, r: KState)
    requires Shape(s) && LockInv(s) && CanUnlock(s, m) && Unlocked(s, m, r)
    ensures Priorities(r)
  {
    UnlockerPriorityOk(s, m, r);
    forall i | 0 <= i < r.n && i != s.active && r.threads[i].state != Defunct ensures PriorityOk(r, i) {
      WokenWasLive(s, m, r, i);
      assert PriorityOk(s, i);
      if s.threads[i].dynPrio < s.threads[i].staticPrio {
        var x: nat :| HeldBy(s, x, i) && s.locks[x].ceiling <= s.threads[i].dynPrio;
        assert HeldBy(r, x, i);
      }
    }
  }

  lemma UnlockerPriorityOk(s: KState, m: nat, r: KState)
    requires Shape(s) && LockInv(s) && CanUnlock(s, m) && Unlocked(s, m, r)
    ensures PriorityOk(r, s.active)
  {
    var a := s.active;
    assert PriorityOk(s, a);
    assert UnlockedTcb(s.threads[a], r.threads[a], a in s.locks[m].waiters, true);
    if r.threads[a].dynPrio != s.threads[a].staticPrio {
      var x, j :| StillWaited(s, m, x, j) && r.threads[a].dynPrio == WaiterPrio(s, x, j);
      QueuedNotAboveCeiling(s, x, j);
      assert HeldBy(r, x, a);
    }
  }

  /** An unlock brings no defunct thread back: only live threads stand in queues. */
  lemma WokenWasLive(s: KState, m: nat, r: KState, i: nat)
    requires Shape(s) && LockInv(s) && CanUnlock(s, m) && Unlocked(s, m, r) && i < s.n
    ensures r.threads[i].state == Defunct <==> s.threads[i].state == Defunct
  {
    assert UnlockedTcb(s.threads[i], r.threads[i], i in s.locks[m].waiters, i == s.active);
    if j :| 0 <= j < |s.locks[m].waiters| && s.locks[m].waiters[j] == i {
      assert QueuedOk(s, m, s.locks[m].waiters[j]);
    }
  }

  lemma UnlockedKeepsQueues(s: KState, m: nat, r: KState)
    requires Shape(s) && LockInv(s) && CanUnlock(s, m) && Unlocked(s, m, r)
    ensures Queues(r)
  {
    forall x, j | 0 <= x < r.defined && 0 <= j < |r.locks[x].waiters| ensures QueuedOk(r, x, r.locks[x].waiters[j]) {
      UnlockedKeepsPlace(s, m, r, x, j);
    }
  }

  lemma UnlockedKeepsPlace(s: KState, m: nat, r: KState, x: nat, j: nat)
    requires Shape(s) && LockInv(s) && CanUnlock(s, m) && Unlocked(s, m, r)
    requires x < r.defined && j < |r.locks[x].waiters|
    ensures QueuedOk(r, x, r.locks[x].waiters[j])
  {
    var w := s.locks[x].waiters[j];
    assert QueuedOk(s, x, w) && OwnedLock(s, x);
    WokenWasLive(s, m, r, w);
    var p := s.locks[x].locker.value;
    assert UnlockedTcb(s.threads[w], r.threads[w], w in s.locks[m].waiters, w == s.active);
    assert UnlockedTcb(s.threads[p], r.threads[p], p in s.locks[m].waiters, p == s.active);
    if p == s.active { assert StillWaited(s, m, x, j) && WaiterPrio(s, x, j) == s.threads[w].dynPrio; }
    if Holder(r, w) { var y: nat :| HeldBy(r, y, w); assert HeldBy(s, y, w); }
  }

  lemma UnlockedKeepsSuspended(s: KState, m: nat, r: KState)
    requires Shape(s) && LockInv(s) && CanUnlock(s, m) && Unlocked(s, m, r)
    ensures Suspended(r) && Parked(r)
  {
    forall i | 0 <= i < r.n && r.threads[i].pending.Some? ensures SuspendedOk(r, i) {
      assert UnlockedTcb(s.threads[i], r.threads[i], i in s.locks[m].waiters, i == s.active);
      assert SuspendedOk(s, i);
      WokenWasLive(s, m, r, i);
    }
    forall i | 0 <= i < r.n && r.threads[i].state == Blocked
      ensures r.threads[i].pending.Some? && exists x: nat :: Queued(r, x, i)
    {
      assert UnlockedTcb(s.threads[i], r.threads[i], i in s.locks[m].waiters, i == s.active);
      var x: nat :| Queued(s, x, i);
      assert Queued(r, x, i);
    }
  }

  // ----- ending

  /** In the middle of thread end: the active thread runs on and holds no lock below k. */
  ghost predicate Ending(s: KState, k: nat)
    requires Shape(s)
  {
    && LockInv(s) && Live(s, s.active) && s.threads[s.active].state != Blocked && s.threads[s.active].pending == None
    && (forall x :: 0 <= x < k && x < s.defined ==> s.locks[x].locker != Some(s.active))
  }

  /** The release loop of thread end: the invariant holds throughout, and nothing stays held. */
  lemma {:induction false} ReleaseFromKeeps(s: KState, k: nat)
    requires Shape(s) && k <= s.defined && Ending(s, k)
    ensures var r := ReleaseFrom(s, k); Ending(r, r.defined) && Spared(s, r)
    decreases s.defined - k
  {
    hide Unlock;
    hide LockInv;
    if k == s.defined {
    } else {
      ReleaseOne(s, k);
      var u := if s.locks[k].locker == Some(s.active) then Unlock(s, k) else s;
      ReleaseFromKeeps(u, k + 1);
      SparedTransitive(s, u, ReleaseFrom(u, k + 1));
    }
  }

  lemma ReleaseOne(s: KState, k: nat)
    requires Shape(s) && k < s.defined && Ending(s, k)
    ensures var u := if s.locks[k].locker == Some(s.active) then Unlock(s, k) else s;
            Ending(u, k + 1) && Spared(s, u)
  {
    if s.locks[k].locker == Some(s.active) {
      UnlockKeeps(s, k);
      UnlockSpares(s, k);
      StillEnding(s, Unlock(s, k), k);
    }
  }

  lemma StillEnding(s: KState, u: KState, k: nat)
    requires Shape(s) && k < s.defined && Ending(s, k)
    requires Shape(u) && LockInv(u) && Spared(s, u) && u.threads[s.active].state == Ready
    requires u.locks == s.locks[k := Opened(s.locks[k])]
    ensures Ending(u, k + 1)
  {
    assert Untouched(s.threads[s.active], u.threads[s.active]);
  }

  lemma SparedTransitive(s: KState, u: KState, r: KState)
    requires Shape(s) && Shape(u) && Shape(r) && Spared(s, u) && Spared(u, r)
    ensures Spared(s, r)
  {
    forall i | 0 <= i < |s.threads| ensures Untouched(s.threads[i], r.threads[i]) {
      assert Untouched(s.threads[i], u.threads[i]) && Untouched(u.threads[i], r.threads[i]);
    }
  }

  /** r differs from s only by the active thread having given up locks. */
  ghost predicate Spared(s: KState, r: KState)
    requires Shape(s) && Shape(r)
  {
    && r.n == s.n && r.defined == s.defined && r.numLocks == s.numLocks && r.active == s.active
    && r.numActive == s.numActive && r.utilization == s.utilization && r.preempt == s.preempt
    && r.timeslot == s.timeslot && r.started == s.started
    && (forall x :: 0 <= x < s.defined && s.locks[x].locker != Some(s.active) ==> r.locks[x] == s.locks[x])
    && (forall i :: 0 <= i < |s.threads| ==> Untouched(s.threads[i], r.threads[i]))
  }

  lemma UnlockSpares(s: KState, m: nat)
    requires Shape(s) && LockInv(s) && CanUnlock(s, m)
    ensures var r := Unlock(s, m);
            && Spared(s, r) && r.threads[s.active].state == Ready
            && r.locks == s.locks[m := Opened(s.locks[m])]
  {
    UnlockIsUnlocked(s, m);
    UnlockedUntouched(s, m, Unlock(s, m));
    UnlockGlobals(s, m);
    hide Unlock, Untouched, LockInv;
    OpenedIsSpared(s, m, Unlock(s, m));
  }

  lemma OpenedIsSpared(s: KState, m: nat, r: KState)
    requires Shape(s) && Shape(r) && HeldBy(s, m, s.active) && r.locks == s.locks[m := Opened(s.locks[m])]
    requires r.n == s.n && r.defined == s.defined && r.active == s.active
    requires r.numLocks == s.numLocks && r.numActive == s.numActive && r.utilization == s.utilization
    requires r.preempt == s.preempt && r.timeslot == s.timeslot && r.started == s.started
    requires forall i :: 0 <= i < |s.threads| ==> Untouched(s.threads[i], r.threads[i])
    ensures Spared(s, r)
  {
    hide Untouched;
  }

  lemma UnlockGlobals(s: KState, m: nat)
    requires Shape(s) && m < s.defined
    ensures var r := Unlock(s, m);
            && r.numLocks == s.numLocks && r.numActive == s.numActive && r.utilization == s.utilization
            && r.preempt == s.preempt && r.timeslot == s.timeslot && r.started == s.started
  {
    hide Shape;
  }

  lemma UnlockedUntouched(s: KState, m: nat, r: KState)
    requires Shape(s) && LockInv(s) && CanUnlock(s, m) && Unlocked(s, m, r)
    ensures forall i :: 0 <= i < |s.threads| ==> Untouched(s.threads[i], r.threads[i])
    ensures r.threads[s.active].state == Ready
  {
    assert LockInRange(s.locks[m], s.n);
    forall i | 0 <= i < |s.threads| ensures Untouched(s.threads[i], r.threads[i]) {
      assert UnlockedTcb(s.threads[i], r.threads[i], i in s.locks[m].waiters, i == s.active);
      if i < s.n { WokenWasLive(s, m, r, i); }
    }
  }

  /** What releasing locks never changes of a control block. */
  predicate Untouched(th: Tcb, r: Tcb) {
    && r.id == th.id && r.c == th.c && r.t == th.t && r.staticPrio == th.staticPrio && r.pending == th.pending
    && r.activeTime == th.activeTime && r.remaining == th.remaining && r.untilRelease == th.untilRelease
    && (r.state == Defunct <==> th.state == Defunct)
    && (r.state == Running ==> th.state == Running)
  }

  /** A thread that holds nothing and waits for nothing can go. */
  lemma RetireKeeps(s: KState)
    requires Shape(s) && LockInv(s) && s.active < s.n && s.threads[s.active].pending == None
    requires forall x :: 0 <= x < s.defined ==> s.locks[x].locker != Some(s.active)
    ensures LockInv(Retire(s))
  {
    var r := Retire(s);
    forall x | 0 <= x < r.defined ensures OwnedLock(r, x) { assert OwnedLock(s, x); }
    forall x, y | 0 <= x < r.defined && 0 <= y < r.defined ensures OrderedPair(r, x, y) {
      assert OrderedPair(s, x, y) && OwnedLock(s, x) && OwnedLock(s, y);
    }
    forall i | 0 <= i < r.n && r.threads[i].state != Defunct ensures PriorityOk(r, i) {
      assert PriorityOk(s, i);
      if s.threads[i].dynPrio < s.threads[i].staticPrio {
        var x: nat :| HeldBy(s, x, i) && s.locks[x].ceiling <= s.threads[i].dynPrio;
        assert HeldBy(r, x, i);
      }
    }
    forall x, j | 0 <= x < r.defined && 0 <= j < |r.locks[x].waiters| ensures QueuedOk(r, x, r.locks[x].waiters[j]) {
      var w := s.locks[x].waiters[j];
      assert QueuedOk(s, x, w) && OwnedLock(s, x);
      if Holder(r, w) { var y: nat :| HeldBy(r, y, w); assert HeldBy(s, y, w); }
    }
    forall i | 0 <= i < r.n && r.threads[i].pending.Some? ensures SuspendedOk(r, i) { assert SuspendedOk(s, i); }
    forall i | 0 <= i < r.n && r.threads[i].state == Blocked
      ensures r.threads[i].pending.Some? && exists x: nat :: Queued(r, x, i)
    {
      var x: nat :| Queued(s, x, i);
      assert Queued(r, x, i);
    }
  }

  /** After `syscall_thread_end` the invariant holds and the ended thread holds nothing. */
  lemma EndKeeps(s: KState)
    requires Shape(s) && LockInv(s)
    requires Live(s, s.active) && s.threads[s.active].state != Blocked && s.threads[s.active].pending == None
    ensures var r := End(s);
            && LockInv(r) && r.active == s.active && r.defined == s.defined && r.n == s.n
            && r.threads[s.active].state == Defunct
            && !Holder(r, s.active)
            && (forall x :: 0 <= x < r.defined && s.locks[x].locker != Some(s.active) ==> r.locks[x] == s.locks[x])
            && (forall i :: 0 <= i < |s.threads| && i != s.active ==> Untouched(s.threads[i], r.threads[i]))
  {
    ReleaseFromKeeps(s, 0);
    RetireKeeps(ReleaseFrom(s, 0));
  }
}
