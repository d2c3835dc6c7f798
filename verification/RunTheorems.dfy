/** Whole-run theorems about the lock protocol. */
module RunTheorems {
  import opened Words
  import opened KernelState
  import opened Scheduling
  import opened Ceilings
  import opened Priorities
  import opened Admission
  import opened LockInvariant
  import opened LockSteps
  import opened UnlockSteps
  import opened Runs
  import opened Protocol
  import opened WaitLists

  /** Each lock is locked iff it has a live, entitled locker, the caches are exact, the books balance, every
      wait list is inside its array, and no chain of waiting closes on itself. */
  ghost predicate Safe(r: KState) {
    && Inv(r)
    && (forall x :: 0 <= x < r.defined ==> |r.locks[x].waiters| <= MAX_NUM_THREADS)
    && r.ceiling == MinCeiling(r.locks, r.defined)
    && (r.top.Some? ==> Locked(r.locks[r.top.value]) && r.locks[r.top.value].ceiling == r.ceiling)
    && (r.top.None? <==> forall x :: 0 <= x < r.defined ==> !Locked(r.locks[x]))
    && (forall p :: |p| >= 2 && WaitPath(r, p) ==> p[0] != p[|p|-1])
    && r.numActive == |LiveSet(r.threads, r.n)| && DistinctIds(r.threads, r.n)
    && r.utilization == TotalShare(r.threads, r.n, r.n) <= Bound(r.numActive)
  }

  /** Every run from a fresh request that overflows no wait list. */
  lemma EveryRunIsSafe(s: KState, acts: seq<Action>)
    requires Initial(s) && Legal(s, acts)
    ensures Safe(Reach(s, acts))
  {
    InitialInv(s);
    RunKeeps(s, acts);
    var r := Reach(s, acts);
    CacheIsExact(r);
    forall x | 0 <= x < r.defined ensures |r.locks[x].waiters| <= MAX_NUM_THREADS { assert ListFits(r.locks[x]); }
    forall p | |p| >= 2 && WaitPath(r, p) ensures p[0] != p[|p|-1] { NoCycle(r, p); }
  }

  /** Whether or not a run minds the wait lists, it does so, and is safe, if no blocked thread is released. */
  lemma UnbrokenWaitsAreSafe(s: KState, acts: seq<Action>)
    requires Initial(s) && PermittedRun(s, acts) && NoBlockedRelease(s, acts)
    ensures Legal(s, acts) && Safe(Reach(s, acts))
  {
    InitialInv(s);
    InitialOrderly(s);
    RoomWithoutBlockedReleases(s, acts);
    EveryRunIsSafe(s, acts);
  }

  // ----- who takes and who gives up a lock

  lemma SettleLocks(s: KState)
    requires Shape(s)
    ensures Settle(s).locks == s.locks && Settle(s).defined == s.defined && Settle(s).n == s.n
    ensures forall i :: 0 <= i < s.n ==> Settle(s).threads[i].staticPrio == s.threads[i].staticPrio
  {
  }

  /** The only ways a thread stops holding a lock: it unlocks it, ends, or is ended for an illegal request. */
  predicate GivesUp(s: KState, act: Action, x: nat)
    requires Shape(s)
  {
    match act
    case DoUnlock(m) => m == x
    case DoEnd => true
    case DoLock(m) => m < s.defined && s.threads[s.active].staticPrio < s.locks[m].ceiling
    case _ => false
  }

  /** The lock an action asks for, if any. */
  function Requested(s: KState, act: Action): (r: Option<nat>)
    requires Shape(s)
  {
    match act
    case DoLock(m) => Some(m)
    case DoRetry => s.threads[s.active].pending
    case _ => None
  }

  /** Everything a step can do to one lock's holder: keep it, take an open lock for the active thread under
      the textbook rule, or take it away from the active thread at its own doing. */
  ghost predicate HolderStep(s: KState, act: Action, r: KState, x: nat)
    requires Shape(s) && Shape(r) && x < |s.locks|
  {
    || r.locks[x].locker == s.locks[x].locker
    || (&& x < s.defined && s.locks[x].locker == None && r.locks[x].locker == Some(s.active)
        && Requested(s, act) == Some(x) && s.active < s.n && BeatsOthers(s, s.active))
    || (s.locks[x].locker == Some(s.active) && r.locks[x].locker == None && GivesUp(s, act, x))
  }

  /** Mutual exclusion, step by step: a lock passes from a thread only by that thread's own release, and to
      a thread only from being open. */
  lemma LockHandover(s: KState, act: Action, x: nat)
    requires Inv(s) && Enabled(s, act) && x < |s.locks|
    ensures HolderStep(s, act, Next(s, act), x)
  {
    match act
    case DoLock(m) => RequestHandover(s, m, x);
    case DoRetry => RetryHandover(s, x);
    case DoUnlock(m) => UnlockHandover(s, m, x);
    case DoYield => SettleLocks(Yield(s));
    case DoEnd => if s.active < s.n { EndHandover(s, x); }
    case DoTick => SettleLocks(s.(preempt := true, pendsv := true));
    case DoDefine(id, noFn, c, t) =>
    case DoLockInit(prio) => LockInitHandover(s, prio, x);
    case DoStart(freq) => StartHandover(s, freq, x);
  }

  lemma RequestHandover(s: KState, m: nat, x: nat)
    requires Inv(s) && Enabled(s, DoLock(m)) && x < |s.locks|
    ensures HolderStep(s, DoLock(m), Settle(Lock(s, m)), x)
  {
    if s.threads[s.active].staticPrio < s.locks[m].ceiling {
      EndHandover(s, x);
    } else if s.locks[m].locker != Some(s.active) {
      AttemptHandover(s, m, x);
    }
  }

  lemma RetryHandover(s: KState, x: nat)
    requires Inv(s) && Enabled(s, DoRetry) && x < |s.locks|
    ensures HolderStep(s, DoRetry, Next(s, DoRetry), x)
  {
    assert SuspendedOk(s, s.active);
    AttemptHandover(s, s.threads[s.active].pending.value, x);
  }

  lemma UnlockHandover(s: KState, m: nat, x: nat)
    requires Inv(s) && Enabled(s, DoUnlock(m)) && x < |s.locks|
    ensures HolderStep(s, DoUnlock(m), Settle(Unlock(s, m)), x)
  {
    if Locked(s.locks[m]) {
      UnlockSpares(s, m);
      SettleLocks(Unlock(s, m));
      hide Unlock, Settle, Inv, HolderStep;
      OpenedHandover(s, m, Settle(Unlock(s, m)), x);
    }
  }

  lemma OpenedHandover(s: KState, m: nat, r: KState, x: nat)
    requires Shape(s) && Shape(r) && m < s.defined && x < |s.locks| && s.locks[m].locker == Some(s.active)
    requires r.locks == s.locks[m := Opened(s.locks[m])]
    ensures HolderStep(s, DoUnlock(m), r, x)
  {
  }

  lemma StartHandover(s: KState, freq: Word, x: nat)
    requires Inv(s) && x < |s.locks|
    ensures Settle(Start(s, freq)).locks[x].locker == s.locks[x].locker
  {
    ValidateChangesCeilings(s, 0);
    SettleLocks(Start(s, freq));
    var v := Validate(s, 0);
    assert v.locks[x].(ceiling := 0) == s.locks[x].(ceiling := 0);
  }

  lemma LockInitHandover(s: KState, prio: Word, x: nat)
    requires Inv(s) && x < |s.locks|
    ensures LockInit(s, prio).locks[x].locker == s.locks[x].locker
  {
  }

  lemma EndHandover(s: KState, x: nat)
    requires Inv(s) && InUserCode(s) && x < |s.locks|
    ensures var r := Settle(End(s));
            r.locks[x].locker == s.locks[x].locker || (s.locks[x].locker == Some(s.active) && r.locks[x].locker == None)
  {
    EndKeeps(s);
    SettleLocks(End(s));
    var e := End(s);
    if x < s.defined && s.locks[x].locker == Some(s.active) {
      assert !HeldBy(e, x, s.active);
      ReleasedIsOpen(s, 0, x);
    }
  }

  /** The release loop leaves each of the thread's locks without a locker. */
  lemma {:induction false} ReleasedIsOpen(s: KState, k: nat, x: nat)
    requires Shape(s) && k <= s.defined && Ending(s, k) && x < s.defined
    requires s.locks[x].locker == Some(s.active) || s.locks[x].locker == None
    ensures ReleaseFrom(s, k).locks[x].locker == None
    decreases s.defined - k
  {
    hide Unlock;
    hide LockInv;
    if k == s.defined {
    } else {
      ReleaseOne(s, k);
      var u := if s.locks[k].locker == Some(s.active) then Unlock(s, k) else s;
      if s.locks[k].locker == Some(s.active) { UnlockSpares(s, k); }
      ReleasedIsOpen(u, k + 1, x);
    }
  }

  lemma AttemptHandover(s: KState, m: nat, x: nat)
    requires Inv(s) && s.active < s.n && m < s.defined && x < |s.locks|
    requires s.locks[m].locker != Some(s.active) && s.locks[m].ceiling <= s.threads[s.active].staticPrio
    ensures var r := Settle(Attempt(s, m));
            || r.locks[x].locker == s.locks[x].locker
            || (x == m && s.locks[x].locker == None && r.locks[x].locker == Some(s.active) && BeatsOthers(s, s.active))
  {
    SettleLocks(Attempt(s, m));
    AdmitsIsTextbook(s);
    assert OwnedLock(s, m);
    if !(Admits(s) && s.locks[m].s != 0) {
      BlockIsRefused(s, m);
      RefusedLockers(s, m, Block(s, m), x);
    }
    hide Inv, LockInv, Settle, BeatsOthers, Refused, Block;
  }

  lemma RefusedLockers(s: KState, m: nat, r: KState, x: nat)
    requires Shape(s) && CanBlock(s, m) && Refused(s, m, r) && x < |s.locks|
    ensures |r.locks| == |s.locks| && r.locks[x].locker == s.locks[x].locker
  {
  }

  // ----- the cached lock

  /** The cached lock is the first of those locked with the least ceiling. */
  ghost predicate FirstLeast(r: KState)
    requires Shape(r)
  {
    match r.top
    case None => forall x :: 0 <= x < r.defined ==> !Locked(r.locks[x])
    case Some(h) =>
      && Locked(r.locks[h])
      && (forall x :: 0 <= x < r.defined && Locked(r.locks[x]) ==> r.locks[h].ceiling <= r.locks[x].ceiling)
      && (forall x :: 0 <= x < h && Locked(r.locks[x]) ==> r.locks[h].ceiling < r.locks[x].ceiling)
  }

  /** All that one step can do to the cache: nothing; a grant that lowers the ceiling moves it to the lock granted; an
      unlock or an end moves it to the first lock with the least ceiling. */
  ghost predicate CacheStep(s: KState, act: Action, r: KState)
    requires Shape(s) && Shape(r)
  {
    || (r.top == s.top && r.ceiling == s.ceiling)
    || (r.ceiling < s.ceiling && r.top == Requested(s, act) && r.top.Some?
        && r.locks[r.top.value].locker == Some(s.active))
    || ((act.DoUnlock? || act.DoEnd? || (act.DoLock? && GivesUp(s, act, 0))) && FirstLeast(r))
  }

  lemma CacheMoves(s: KState, act: Action)
    requires Inv(s) && Enabled(s, act)
    ensures CacheStep(s, act, Next(s, act))
  {
    match act
    case DoLock(m) => LockCache(s, m);
    case DoRetry => RetryCache(s);
    case DoUnlock(m) => UnlockCache(s, m);
    case DoYield => SettleCache(Yield(s));
    case DoEnd => if s.active < s.n { EndCache(s, act); }
    case DoTick => SettleCache(s.(preempt := true, pendsv := true));
    case DoDefine(id, noFn, c, t) =>
    case DoLockInit(prio) =>
    case DoStart(freq) => StartCache(s, freq);
    hide Inv, Settle, Attempt, Unlock, End, Start, DefineCode, Accept, FirstLeast;
  }

  lemma SettleCache(s: KState)
    requires Shape(s)
    ensures Settle(s).top == s.top && Settle(s).ceiling == s.ceiling && Settle(s).locks == s.locks
    ensures Settle(s).defined == s.defined
  {
  }

  lemma AttemptCache(s: KState, act: Action, m: nat)
    requires Inv(s) && s.active < s.n && m < s.defined && Requested(s, act) == Some(m)
    requires s.locks[m].locker != Some(s.active) && s.locks[m].ceiling <= s.threads[s.active].staticPrio
    ensures CacheStep(s, act, Settle(Attempt(s, m)))
  {
    SettleCache(Attempt(s, m));
    if !(Admits(s) && s.locks[m].s != 0) { BlockIsRefused(s, m); }
    hide Inv, Settle, FirstLeast, Block;
  }

  lemma LockCache(s: KState, m: nat)
    requires Inv(s) && Enabled(s, DoLock(m))
    ensures CacheStep(s, DoLock(m), Settle(Lock(s, m)))
  {
    if s.threads[s.active].staticPrio < s.locks[m].ceiling {
      EndCache(s, DoLock(m));
    } else if s.locks[m].locker != Some(s.active) {
      AttemptCache(s, DoLock(m), m);
    }
    hide Settle, Attempt, End, FirstLeast;
  }

  lemma RetryCache(s: KState)
    requires Inv(s) && Enabled(s, DoRetry)
    ensures CacheStep(s, DoRetry, Next(s, DoRetry))
  {
    assert SuspendedOk(s, s.active);
    AttemptCache(s, DoRetry, s.threads[s.active].pending.value);
    hide Settle, Attempt, FirstLeast;
  }

  lemma RecomputedCache(r: KState)
    requires Shape(r) && LockInv(r)
    requires r.ceiling == MinCeiling(r.locks, r.defined) && r.top == MinCeilingLock(r.locks, r.defined)
    ensures FirstLeast(r)
  {
    CacheIsExact(r);
    MinCeilingMeaning(r.locks, r.defined);
  }

  lemma SettledFirstLeast(u: KState)
    requires Shape(u) && FirstLeast(u)
    ensures FirstLeast(Settle(u))
  {
    SettleCache(u);
    hide Settle;
  }

  lemma UnlockCache(s: KState, m: nat)
    requires Inv(s) && Enabled(s, DoUnlock(m))
    ensures CacheStep(s, DoUnlock(m), Settle(Unlock(s, m)))
  {
    if Locked(s.locks[m]) {
      UnlockShape(s, m);
      UnlockKeeps(s, m);
      hide Unlock, FirstLeast, Settle;
      RecomputedCache(Unlock(s, m));
      SettledFirstLeast(Unlock(s, m));
    }
  }

  lemma {:induction false} ReleaseCache(s: KState, k: nat)
    requires Shape(s) && k <= s.defined && Ending(s, k)
    ensures var r := ReleaseFrom(s, k);
            || (r.locks == s.locks && r.top == s.top && r.ceiling == s.ceiling)
            || FirstLeast(r)
    decreases s.defined - k
  {
    hide Unlock, LockInv, FirstLeast;
    if k < s.defined {
      ReleaseOne(s, k);
      if s.locks[k].locker == Some(s.active) {
        UnlockShape(s, k);
        UnlockKeeps(s, k);
        RecomputedCache(Unlock(s, k));
        ReleaseCache(Unlock(s, k), k + 1);
        ReleasedFirstLeast(Unlock(s, k), ReleaseFrom(Unlock(s, k), k + 1));
      } else {
        ReleaseCache(s, k + 1);
      }
    }
  }

  lemma ReleasedFirstLeast(u: KState, r: KState)
    requires Shape(u) && Shape(r) && FirstLeast(u) && r.defined == u.defined
    ensures r.locks == u.locks && r.top == u.top ==> FirstLeast(r)
  {
  }

  lemma EndCache(s: KState, act: Action)
    requires Inv(s) && InUserCode(s) && (act.DoEnd? || (act.DoLock? && GivesUp(s, act, 0)))
    ensures CacheStep(s, act, Settle(End(s)))
  {
    ReleaseCache(s, 0);
    var u := ReleaseFrom(s, 0);
    assert End(s) == Retire(u) && Retire(u).locks == u.locks && Retire(u).top == u.top && Retire(u).ceiling == u.ceiling;
    assert Retire(u).defined == u.defined;
    hide ReleaseFrom, Retire, FirstLeast, Settle;
    if FirstLeast(u) { ReleasedFirstLeast(u, Retire(u)); }
    SettleCache(Retire(u));
    if FirstLeast(Retire(u)) { SettledFirstLeast(Retire(u)); }
  }

  /** Main starts with every lock open, so the reset changes nothing. */
  lemma StartCache(s: KState, freq: Word)
    requires Inv(s) && s.active == s.n + 1
    ensures Settle(Start(s, freq)).top == s.top && Settle(Start(s, freq)).ceiling == s.ceiling
  {
    QuietPriorities(s);
    ValidateChangesCeilings(s, 0);
    SettleCache(Start(s, freq));
    hide Settle, LockInv;
  }

  /** Ending, freely or for an illegal request, leaves the thread without locks. */
  lemma EndedHoldsNothing(s: KState, act: Action)
    requires Inv(s) && Enabled(s, act) && s.active < s.n
    requires act == DoEnd || (act.DoLock? && s.threads[s.active].staticPrio < s.locks[act.m].ceiling)
    ensures var r := Next(s, act);
            r.threads[s.active].state == Defunct && forall x: nat :: !HeldBy(r, x, s.active)
  {
    assert Next(s, act) == Settle(End(s));
    EndSettledHoldsNothing(s);
  }

  lemma EndSettledHoldsNothing(s: KState)
    requires Inv(s) && InUserCode(s)
    ensures var r := Settle(End(s));
            r.threads[s.active].state == Defunct && forall x: nat :: !HeldBy(r, x, s.active)
  {
    EndKeeps(s);
    var e := End(s);
    SettleLocks(e);
    forall x: nat ensures !HeldBy(Settle(e), x, s.active) { assert !HeldBy(e, x, s.active); }
    EndUnpreempted(s);
    DefunctStays(e, s.active);
  }

  lemma EndUnpreempted(s: KState)
    requires Inv(s) && InUserCode(s)
    ensures !End(s).preempt
  {
    ReleaseFromKeeps(s, 0);
  }

  lemma DefunctStays(s: KState, i: nat)
    requires Shape(s) && i < s.n && s.threads[i].state == Defunct && !s.preempt
    ensures Settle(s).threads[i].state == Defunct
  {
    SelectMeaning(s);
  }

  // ----- an end in pieces

  /** Whenever thread i has the processor it does nothing but unlock. */
  ghost predicate OnlyUnlocks(s: KState, acts: seq<Action>, i: nat)
    requires Shape(s)
    decreases |acts|
  {
    acts != [] ==>
      && OnlyUnlocks(s, acts[..|acts|-1], i)
      && (Reach(s, acts[..|acts|-1]).active == i ==> acts[|acts|-1].DoUnlock? || acts[|acts|-1].DoTick?)
  }

  /** Thread i has unlocked x in the run. */
  ghost predicate HasUnlocked(s: KState, acts: seq<Action>, i: nat, x: nat)
    requires Shape(s)
    decreases |acts|
  {
    acts != [] &&
      (HasUnlocked(s, acts[..|acts|-1], i, x) ||
       (Reach(s, acts[..|acts|-1]).active == i && acts[|acts|-1] == DoUnlock(x)))
  }

  lemma UnlockedIsOpen(s: KState, x: nat)
    requires Inv(s) && Enabled(s, DoUnlock(x)) && HeldBy(s, x, s.active)
    ensures Next(s, DoUnlock(x)).locks[x].locker == None
  {
    assert OwnedLock(s, x);
    UnlockShape(s, x);
    SettleLocks(Unlock(s, x));
  }

  /** A thread that only unlocks holds what it held, without what it has unlocked. */
  lemma {:induction false} HoldsLess(s: KState, acts: seq<Action>, i: nat, x: nat)
    requires Inv(s) && Legal(s, acts) && OnlyUnlocks(s, acts, i) && HeldBy(Reach(s, acts), x, i)
    ensures HeldBy(s, x, i) && !HasUnlocked(s, acts, i, x)
    decreases |acts|
  {
    if acts != [] {
      var front, act := acts[..|acts|-1], acts[|acts|-1];
      var u := Reach(s, front);
      RunKeeps(s, front);
      LockHandover(u, act, x);
      if HeldBy(u, x, u.active) && act == DoUnlock(x) { UnlockedIsOpen(u, x); }
      HoldsLess(s, front, i, x);
    }
  }

  /** A thread that gives up its locks one by one, switched away from in between as often as may be, and then ends,
      has ended as if at once: it is gone, holds nothing, and its end touches no lock. */
  lemma InterleavedEnd(s: KState, acts: seq<Action>, i: nat)
    requires Inv(s) && Legal(s, acts) && OnlyUnlocks(s, acts, i)
    requires Reach(s, acts).active == i && InUserCode(Reach(s, acts))
    requires forall x: nat :: HeldBy(s, x, i) ==> HasUnlocked(s, acts, i, x)
    ensures Legal(s, acts + [DoEnd])
    ensures var r, e := Reach(s, acts), Reach(s, acts + [DoEnd]);
            && i < r.n && e.n == r.n && e.locks == r.locks && e.threads[i].state == Defunct
            && (forall x: nat :: !HeldBy(e, x, i))
  {
    var r := Reach(s, acts);
    RunKeeps(s, acts);
    forall x: nat ensures !HeldBy(r, x, i) {
      if HeldBy(r, x, i) { HoldsLess(s, acts, i, x); }
    }
    EndOfTheFree(r);
    EndedHoldsNothing(r, DoEnd);
    assert (acts + [DoEnd])[..|acts|] == acts;
  }

  /** With nothing held the end is the retirement alone. */
  lemma EndOfTheFree(s: KState)
    requires Inv(s) && InUserCode(s) && !Holder(s, s.active)
    ensures Enabled(s, DoEnd) && Next(s, DoEnd) == Settle(Retire(s)) && Next(s, DoEnd).locks == s.locks
  {
    forall y | 0 <= y < s.defined ensures s.locks[y].locker != Some(s.active) {
      assert !HeldBy(s, y, s.active);
    }
    NothingToRelease(s, 0);
    SettleLocks(Retire(s));
  }

  lemma {:induction false} NothingToRelease(s: KState, k: nat)
    requires Shape(s) && k <= s.defined
    requires forall y :: 0 <= y < s.defined ==> s.locks[y].locker != Some(s.active)
    ensures ReleaseFrom(s, k) == s
    decreases s.defined - k
  {
    if k < s.defined { NothingToRelease(s, k + 1); }
  }

  /** Why definitions wait for the locks. An accepted one gives everybody its place in the (period, id) order:
      a holder that has inherited the priority of a thread queued for its lock keeps up with it exactly if it
      comes first in that order, and otherwise the lock invariant is broken. */
  lemma DefineInheritanceIff(s: KState, id: Word, noFn: bool, c: Word, t: Word, x: nat, j: nat)
    requires Inv(s) && DefineCode(s, id, noFn, c, t) == SUCCESS
    requires x < s.defined && j < |s.locks[x].waiters| && s.locks[x].locker.Some?
    requires s.threads[s.locks[x].waiters[j]].pending == Some(x)
    ensures var r := Define(s, id, noFn, c, t); var p, w := s.locks[x].locker.value, s.locks[x].waiters[j];
            && r.locks[x] == s.locks[x]
            && (r.threads[p].dynPrio <= r.threads[w].dynPrio <==> KeyLess(s.threads[p], s.threads[w]))
            && (!KeyLess(s.threads[p], s.threads[w]) ==> !LockInv(r))
  {
    var p, w := s.locks[x].locker.value, s.locks[x].waiters[j];
    assert QueuedOk(s, x, w) && OwnedLock(s, x);
    assert IsLive(s.threads, s.n, p) && IsLive(s.threads, s.n, w);
    var slot := FreeSlot(s.threads, s.n).value;
    var th := s.threads[slot := Defined(s.threads[slot], id, c, t)];
    var r := Define(s, id, noFn, c, t);
    assert r.threads[p] == Ranked(th, s.n, p) && r.threads[w] == Ranked(th, s.n, w);
    if KeyLess(s.threads[p], s.threads[w]) {
      RankMonotone(th, s.n, p, w);
    } else {
      RankMonotone(th, s.n, w, p);
      assert !QueuedOk(r, x, r.locks[x].waiters[j]);
    }
  }

  // ----- holders in the order they began

  /** The number of the step at which thread i's present spell of holding locks began. */
  ghost function Began(s: KState, acts: seq<Action>, i: nat): (r: nat)
    requires Shape(s)
    ensures r <= |acts|
    decreases |acts|
  {
    if acts == [] then 0
    else if Holder(Reach(s, acts[..|acts|-1]), i) then Began(s, acts[..|acts|-1], i)
    else |acts|
  }

  /** A step by which thread i comes to hold its first lock is its own request, granted by the rule. */
  lemma FirstLock(s: KState, act: Action, i: nat)
    requires Inv(s) && Enabled(s, act) && Holder(Next(s, act), i) && !Holder(s, i)
    ensures i == s.active && s.active < s.n && BeatsOthers(s, i)
    ensures act.DoLock? || act.DoRetry?
  {
    var r := Next(s, act);
    var x: nat :| HeldBy(r, x, i);
    assert x < |s.locks|;
    LockHandover(s, act, x);
    hide Next, Inv, Enabled, BeatsOthers;
    assert !HeldBy(s, x, i);
    FirstHolder(s, act, r, x, i);
  }

  lemma FirstHolder(s: KState, act: Action, r: KState, x: nat, i: nat)
    requires Shape(s) && Shape(r) && x < |s.locks| && HolderStep(s, act, r, x)
    requires HeldBy(r, x, i) && !HeldBy(s, x, i)
    ensures i == s.active && s.active < s.n && BeatsOthers(s, i) && (act.DoLock? || act.DoRetry?)
  {
  }

  /** Nobody's static priority changes in a step taken while some lock is held. */
  lemma HeldFreezesPriorities(s: KState, act: Action, i: nat)
    requires Inv(s) && Enabled(s, act) && i < s.n && exists p: nat :: Holder(s, p)
    ensures Next(s, act).n == s.n && Next(s, act).threads[i].staticPrio == s.threads[i].staticPrio
  {
    HeldNotQuiet(s);
    match act
    case DoLock(m) => LockFreezes(s, m, i);
    case DoRetry =>
      assert PendingInRange(s.threads[s.active], s.defined);
      AttemptFreezes(s, s.threads[s.active].pending.value, i);
    case DoUnlock(m) => UnlockFreezes(s, m, i);
    case DoYield => SettleLocks(Yield(s));
    case DoEnd =>
      SettleLocks(End(s));
      if s.active < s.n { EndFreezes(s, i); }
    case DoTick => TickFreezes(s, i);
    case DoLockInit(prio) =>
    case DoDefine(id, noFn, c, t) =>
    case DoStart(_) =>
    hide Inv, Settle, Tick, Lock, Attempt, Unlock, DefineCode, Accept, Start;
  }

  lemma TickFreezes(s: KState, i: nat)
    requires Shape(s) && i < s.n
    ensures Tick(s).n == s.n && Tick(s).threads[i].staticPrio == s.threads[i].staticPrio
  {
    SettleLocks(s.(preempt := true, pendsv := true));
  }

  lemma HeldNotQuiet(s: KState)
    requires Inv(s) && exists p: nat :: Holder(s, p)
    ensures !Quiet(s) && s.active != s.n + 1
  {
    if forall x :: 0 <= x < s.defined ==> s.locks[x].s != 0 { QuietNoHolder(s); }
  }

  lemma LockFreezes(s: KState, m: nat, i: nat)
    requires Inv(s) && InUserCode(s) && m < s.defined && i < s.n
    ensures Settle(Lock(s, m)).n == s.n && Settle(Lock(s, m)).threads[i].staticPrio == s.threads[i].staticPrio
  {
    SettleLocks(Lock(s, m));
    if s.threads[s.active].staticPrio < s.locks[m].ceiling { EndFreezes(s, i); } else { AttemptFreezes(s, m, i); }
  }

  lemma AttemptFreezes(s: KState, m: nat, i: nat)
    requires Inv(s) && s.active < s.n && m < s.defined && i < s.n
    ensures Settle(Attempt(s, m)).n == s.n && Settle(Attempt(s, m)).threads[i].staticPrio == s.threads[i].staticPrio
  {
    AttemptStatic(s, m, i);
    SettleLocks(Attempt(s, m));
  }

  lemma AttemptStatic(s: KState, m: nat, i: nat)
    requires Shape(s) && s.active < s.n && m < s.defined && i < s.n
    ensures Attempt(s, m).threads[i].staticPrio == s.threads[i].staticPrio
  {
  }

  lemma UnlockFreezes(s: KState, m: nat, i: nat)
    requires Inv(s) && Enabled(s, DoUnlock(m)) && i < s.n
    ensures Settle(Unlock(s, m)).n == s.n && Settle(Unlock(s, m)).threads[i].staticPrio == s.threads[i].staticPrio
  {
    if Locked(s.locks[m]) { UnlockShape(s, m); }
    SettleLocks(Unlock(s, m));
  }

  lemma EndFreezes(s: KState, i: nat)
    requires Inv(s) && InUserCode(s) && i < s.n
    ensures End(s).n == s.n && End(s).threads[i].staticPrio == s.threads[i].staticPrio
  {
    ReleaseFromKeeps(s, 0);
    assert Untouched(s.threads[i], ReleaseFrom(s, 0).threads[i]);
  }

  /** Of two threads holding locks after any run, the one that began holding later is the more urgent, and
      beats every ceiling the earlier one holds. */
  lemma {:induction false} LaterHolderMoreUrgent(s: KState, acts: seq<Action>, p: nat, q: nat)
    requires Initial(s) && Legal(s, acts) && p != q
    requires Holder(Reach(s, acts), p) && Holder(Reach(s, acts), q)
    ensures var r := Reach(s, acts);
            && p < r.n && q < r.n
            && (Began(s, acts, p) < Began(s, acts, q) <==> r.threads[q].staticPrio < r.threads[p].staticPrio)
            && (Began(s, acts, p) < Began(s, acts, q) ==>
                  forall x: nat :: HeldBy(r, x, p) ==> r.threads[q].staticPrio < r.locks[x].ceiling)
    decreases |acts|
  {
    InitialInv(s);
    RunKeeps(s, acts);
    var r := Reach(s, acts);
    HoldersLive(r, p, q);
    if acts != [] {
      var front := acts[..|acts|-1];
      var act := acts[|acts|-1];
      var u := Reach(s, front);
      RunKeeps(s, front);
      if Holder(u, p) && Holder(u, q) {
        LaterHolderMoreUrgent(s, front, p, q);
        HoldersLive(u, p, q);
        HeldFreezesPriorities(u, act, p);
        HeldFreezesPriorities(u, act, q);
      } else if Holder(u, p) {
        NewHolderIsFirst(u, act, p, q);
      } else {
        if !Holder(u, q) { FirstLock(u, act, q); }
        FirstLock(u, act, p);
        NewHolderIsFirst(u, act, q, p);
      }
    }
  }

  lemma NewHolderIsFirst(s: KState, act: Action, p: nat, q: nat)
    requires Inv(s) && Enabled(s, act) && Holder(s, p) && !Holder(s, q) && Holder(Next(s, act), q)
    ensures p < s.n && q < s.n && Next(s, act).n == s.n
    ensures Next(s, act).threads[q].staticPrio < Next(s, act).threads[p].staticPrio
  {
    FirstLock(s, act, q);
    var y: nat :| HeldBy(s, y, p);
    assert OwnedLock(s, y);
    HeldFreezesPriorities(s, act, p);
    HeldFreezesPriorities(s, act, q);
  }

  lemma HoldersLive(s: KState, p: nat, q: nat)
    requires Shape(s) && LockInv(s) && p != q && Holder(s, p) && Holder(s, q)
    ensures Live(s, p) && Live(s, q) && s.threads[p].staticPrio != s.threads[q].staticPrio
    ensures s.threads[q].staticPrio < s.threads[p].staticPrio ==>
              forall x: nat :: HeldBy(s, x, p) ==> s.threads[q].staticPrio < s.locks[x].ceiling
  {
    var x: nat :| HeldBy(s, x, p);
    var y: nat :| HeldBy(s, y, q);
    assert OwnedLock(s, x) && OwnedLock(s, y) && OrderedPair(s, x, y);
    forall z: nat | HeldBy(s, z, p) && s.threads[q].staticPrio < s.threads[p].staticPrio
      ensures s.threads[q].staticPrio < s.locks[z].ceiling
    {
      assert OrderedPair(s, z, y);
    }
  }
}
