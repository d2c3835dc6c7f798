/** When the wait lists stay well formed: every entry is a Blocked thread, entered once. */
module WaitLists {
  import opened Words
  import opened KernelState
  import opened Scheduling
  import opened Ceilings
  import opened Priorities
  import opened Admission
  import opened LockInvariant
  import opened LockSteps
  import opened UnlockSteps
  import opened Runs

  /** Place j of lock x's wait list exists. */
  predicate Place(s: KState, x: int, j: int)
    requires Shape(s)
  {
    0 <= x < s.defined && 0 <= j < |s.locks[x].waiters|
  }

  ghost predicate Orderly(s: KState)
    requires Shape(s)
  {
    && (forall x, j :: Place(s, x, j) ==> StateOf(s, x, j) == Blocked)
    && (forall x, j, y, k :: Place(s, x, j) && Place(s, y, k) && s.locks[x].waiters[j] == s.locks[y].waiters[k] ==>
          x == y && j == k)
  }

  function StateOf(s: KState, x: int, j: int): (r: ThreadState)
    requires Shape(s) && Place(s, x, j)
  {
    assert LockInRange(s.locks[x], s.n);
    s.threads[s.locks[x].waiters[j]].state
  }

  /** The coming tick releases the next period of a thread that is blocked on a lock. */
  ghost predicate ReleasesBlocked(s: KState)
    requires Shape(s)
  {
    exists i: nat :: i < s.n && s.threads[i].state == Blocked && Dec(s.threads[i].untilRelease) == 0
  }

  /** The queues are unchanged and nobody in them left the Blocked state. */
  lemma StillOrderly(s: KState, r: KState)
    requires Shape(s) && Orderly(s) && Shape(r) && r.n == s.n && r.defined == s.defined
    requires forall x :: 0 <= x < s.defined ==> r.locks[x].waiters == s.locks[x].waiters
    requires forall i :: 0 <= i < s.n && s.threads[i].state == Blocked ==> r.threads[i].state == Blocked
    ensures Orderly(r)
  {
    forall x, j | Place(r, x, j) ensures StateOf(r, x, j) == Blocked {
      assert Place(s, x, j) && LockInRange(s.locks[x], s.n);
      assert StateOf(s, x, j) == Blocked;
    }
    forall x, j, y, k | Place(r, x, j) && Place(r, y, k) && r.locks[x].waiters[j] == r.locks[y].waiters[k]
      ensures x == y && j == k
    {
      assert Place(s, x, j) && Place(s, y, k);
    }
  }

  lemma SettleOrderly(s: KState)
    requires Shape(s) && Orderly(s) && !s.preempt
    ensures Orderly(Settle(s))
  {
    SelectMeaning(s);
    StillOrderly(s, Settle(s));
  }

  /** A thread that is not Blocked can join a queue. */
  lemma JoinOrderly(s: KState, r: KState, q: nat, a: nat)
    requires Shape(s) && Orderly(s) && Shape(r) && r.n == s.n && r.defined == s.defined
    requires a < s.n && s.threads[a].state != Blocked && q < s.defined
    requires r.locks == Enqueue(s.locks, q, a)
    requires forall i :: 0 <= i < s.n ==> r.threads[i].state == if i == a then Blocked else s.threads[i].state
    ensures Orderly(r)
  {
    forall x, j | Place(s, x, j) ensures s.locks[x].waiters[j] != a && s.locks[x].waiters[j] < s.n {
      assert StateOf(s, x, j) == Blocked && LockInRange(s.locks[x], s.n);
    }
    forall x, j | Place(r, x, j) ensures StateOf(r, x, j) == Blocked {
      if Place(s, x, j) { assert StateOf(s, x, j) == Blocked; }
    }
    forall x, j, y, k | Place(r, x, j) && Place(r, y, k) && r.locks[x].waiters[j] == r.locks[y].waiters[k]
      ensures x == y && j == k
    {
      assert Place(s, x, j) || (x == q && j == |s.locks[q].waiters|);
      assert Place(s, y, k) || (y == q && k == |s.locks[q].waiters|);
    }
  }

  lemma UnlockOrderly(s: KState, m: nat)
    requires Shape(s) && LockInv(s) && CanUnlock(s, m) && Orderly(s)
    ensures Orderly(Unlock(s, m))
  {
    var r := Unlock(s, m);
    UnlockShape(s, m);
    forall x, j | Place(r, x, j) ensures StateOf(r, x, j) == Blocked && x != m && Place(s, x, j) {
      assert Place(s, x, j) && LockInRange(s.locks[x], s.n);
      assert StateOf(s, x, j) == Blocked;
      var w := s.locks[x].waiters[j];
      WokenOnlyIfQueued(s, m, w);
    }
  }

  lemma WokenOnlyIfQueued(s: KState, m: nat, w: nat)
    requires Shape(s) && LockInv(s) && CanUnlock(s, m) && w < s.n && w != s.active && w !in s.locks[m].waiters
    ensures Unlock(s, m).threads[w].state == s.threads[w].state
  {
  }

  lemma {:induction false} ReleaseFromOrderly(s: KState, k: nat)
    requires Shape(s) && k <= s.defined && Ending(s, k) && Orderly(s)
    ensures Orderly(ReleaseFrom(s, k))
    decreases s.defined - k
  {
    hide Unlock;
    hide LockInv;
    hide Orderly;
    if k == s.defined {
    } else {
      ReleaseOne(s, k);
      if s.locks[k].locker == Some(s.active) { UnlockOrderly(s, k); }
      ReleaseFromOrderly(if s.locks[k].locker == Some(s.active) then Unlock(s, k) else s, k + 1);
    }
  }

  lemma EndOrderly(s: KState)
    requires Inv(s) && InUserCode(s) && Orderly(s)
    ensures Orderly(Settle(End(s)))
  {
    ReleaseFromKeeps(s, 0);
    ReleaseFromOrderly(s, 0);
    var u := ReleaseFrom(s, 0);
    StillOrderly(u, Retire(u));
    SettleOrderly(Retire(u));
  }

  lemma AttemptOrderly(s: KState, m: nat)
    requires Inv(s) && s.active < s.n && m < s.defined && Orderly(s)
    requires s.locks[m].locker != Some(s.active) && s.locks[m].ceiling <= s.threads[s.active].staticPrio
    ensures Orderly(Settle(Attempt(s, m)))
  {
    if Admits(s) && s.locks[m].s != 0 {
      StillOrderly(s, Acquire(s, m));
    } else {
      BlockIsRefused(s, m);
      assert forall i :: 0 <= i < s.n ==>
          RefusedTcb(s.threads[i], Block(s, m).threads[i], m, i == s.active,
                     Locked(s.locks[m]) && s.locks[m].locker == Some(i), s.threads[s.active].dynPrio);
      JoinOrderly(s, Block(s, m), JoinedQueue(s, m), s.active);
      SettleOrderly(Block(s, m));
    }
  }

  /** A tick keeps the wait lists well formed exactly when it releases no blocked thread. */
  lemma TickOrderlyIff(s: KState)
    requires Inv(s) && Orderly(s)
    ensures Orderly(Tick(s)) <==> !ReleasesBlocked(s)
  {
    var r := Tick(s);
    if !ReleasesBlocked(s) {
      forall i | 0 <= i < s.n && s.threads[i].state == Blocked ensures r.threads[i].state == Blocked {
        BlockedTick(s, i);
      }
      StillOrderly(s, r);
    } else {
      var i: nat :| i < s.n && s.threads[i].state == Blocked && Dec(s.threads[i].untilRelease) == 0;
      BlockedTick(s, i);
      var x: nat :| Queued(s, x, i);
      var j :| 0 <= j < |s.locks[x].waiters| && s.locks[x].waiters[j] == i;
      assert Place(r, x, j) && StateOf(r, x, j) == Ready;
    }
  }

  /** What a tick does to a Blocked thread. */
  lemma BlockedTick(s: KState, i: nat)
    requires Inv(s) && i < s.n && s.threads[i].state == Blocked
    ensures Tick(s).threads[i].state == if Dec(s.threads[i].untilRelease) == 0 then Ready else Blocked
  {
    var u := Charge(s.(preempt := true, pendsv := true));
    SelectMeaning(u);
    assert IsLive(s.threads, s.n, i) && i in LiveSet(s.threads, s.n);
  }

  /** Every other action keeps the wait lists well formed. */
  lemma StepOrderly(s: KState, act: Action)
    requires Inv(s) && Enabled(s, act) && Orderly(s)
    requires act.DoTick? ==> !ReleasesBlocked(s)
    ensures Orderly(Next(s, act))
  {
    match act
    case DoLock(m) =>
      if s.threads[s.active].staticPrio < s.locks[m].ceiling { EndOrderly(s); }
      else if s.locks[m].locker != Some(s.active) { AttemptOrderly(s, m); }
    case DoRetry =>
      assert SuspendedOk(s, s.active);
      AttemptOrderly(s, s.threads[s.active].pending.value);
    case DoUnlock(m) =>
      if Locked(s.locks[m]) {
        UnlockOrderly(s, m);
        UnlockSpares(s, m);
        SettleOrderly(Unlock(s, m));
      }
    case DoYield => StillOrderly(s, Yield(s)); SettleOrderly(Yield(s));
    case DoEnd => if s.active < s.n { EndOrderly(s); }
    case DoTick => TickOrderlyIff(s);
    case DoDefine(id, noFn, c, t) => DefineOrderly(s, id, noFn, c, t);
    case DoLockInit(prio) => LockInitOrderly(s, prio);
    case DoStart(freq) => StartOrderly(s, freq);
  }

  lemma DefineOrderly(s: KState, id: Word, noFn: bool, c: Word, t: Word)
    requires Inv(s) && Orderly(s) && (DefineCode(s, id, noFn, c, t) == SUCCESS ==> Quiet(s))
    ensures Orderly(Define(s, id, noFn, c, t))
  {
    if DefineCode(s, id, noFn, c, t) == SUCCESS { QuietPriorities(s); }
    StillOrderly(s, Define(s, id, noFn, c, t));
  }

  lemma LockInitOrderly(s: KState, prio: Word)
    requires Inv(s) && Orderly(s)
    ensures Orderly(LockInit(s, prio))
  {
    var r := LockInit(s, prio);
    forall x, j | Place(r, x, j) ensures Place(s, x, j) && StateOf(r, x, j) == StateOf(s, x, j) {}
  }

  lemma StartOrderly(s: KState, freq: Word)
    requires Inv(s) && Orderly(s)
    ensures Orderly(Settle(Start(s, freq)))
  {
    ValidateChangesCeilings(s, 0);
    var r := Start(s, freq);
    forall x | 0 <= x < s.defined ensures r.locks[x].waiters == s.locks[x].waiters {
      assert r.locks[x].(ceiling := 0) == s.locks[x].(ceiling := 0);
    }
    StillOrderly(s, r);
    SettleOrderly(r);
  }

  // ----- the list fits its array

  /** The threads in the first k places of a queue. */
  function FirstWaiters(s: KState, x: nat, k: nat): (r: set<int>)
    requires Shape(s) && x < s.defined && k <= |s.locks[x].waiters|
  {
    if k == 0 then {} else FirstWaiters(s, x, k - 1) + {s.locks[x].waiters[k-1]}
  }

  lemma {:induction false} FirstWaitersCount(s: KState, x: nat, k: nat)
    requires Shape(s) && Orderly(s) && x < s.defined && k <= |s.locks[x].waiters|
    ensures |FirstWaiters(s, x, k)| == k
    ensures forall w :: w in FirstWaiters(s, x, k) ==> exists j :: 0 <= j < k && s.locks[x].waiters[j] == w
  {
    if k == 0 {
    } else {
      FirstWaitersCount(s, x, k - 1);
      assert forall j :: 0 <= j < k ==> Place(s, x, j);
    }
  }

  /** A well-formed wait list has a place for every thread at most once, and none for the running thread. */
  lemma WaitListFits(s: KState, x: nat)
    requires Shape(s) && Orderly(s) && x < s.defined
    ensures |s.locks[x].waiters| <= s.n
    ensures s.active < s.n && s.threads[s.active].state == Running ==> |s.locks[x].waiters| < s.n
  {
    var k := |s.locks[x].waiters|;
    var queued := FirstWaiters(s, x, k);
    FirstWaitersCount(s, x, k);
    UptoSize(s.n);
    forall w | w in queued ensures w in Upto(s.n) && s.threads[w].state == Blocked {
      var j :| 0 <= j < k && s.locks[x].waiters[j] == w;
      assert LockInRange(s.locks[x], s.n) && Place(s, x, j) && StateOf(s, x, j) == Blocked;
    }
    SubsetSize(queued, Upto(s.n));
    if s.active < s.n && s.threads[s.active].state == Running {
      assert s.active in Upto(s.n) && s.active !in queued;
    }
  }

  /** With well-formed wait lists no permitted action overflows one. */
  lemma OrderlyHasRoom(s: KState, act: Action)
    requires Inv(s) && Orderly(s) && Permitted(s, act)
    ensures Enabled(s, act)
  {
    if s.active < s.n {
      forall x | 0 <= x < s.defined ensures |s.locks[x].waiters| < MAX_NUM_THREADS { WaitListFits(s, x); }
      assert PendingInRange(s.threads[s.active], s.defined);
    }
  }

  lemma InitialOrderly(s: KState)
    requires Initial(s)
    ensures Orderly(s)
  {
  }

  /** No tick of the run releases the period of a thread that is blocked on a lock. */
  ghost predicate NoBlockedRelease(s: KState, acts: seq<Action>)
    requires Shape(s)
    decreases |acts|
  {
    acts != [] ==>
      && NoBlockedRelease(s, acts[..|acts|-1])
      && (acts[|acts|-1].DoTick? ==> !ReleasesBlocked(Reach(s, acts[..|acts|-1])))
  }

  /** Over any run of permitted actions in which no blocked thread is released, the arrays always suffice and
      the wait lists stay well formed. */
  lemma {:induction false} RoomWithoutBlockedReleases(s: KState, acts: seq<Action>)
    requires Inv(s) && Orderly(s) && PermittedRun(s, acts) && NoBlockedRelease(s, acts)
    ensures Legal(s, acts) && Orderly(Reach(s, acts))
    decreases |acts|
  {
    if acts != [] {
      var front, act := acts[..|acts|-1], acts[|acts|-1];
      RoomWithoutBlockedReleases(s, front);
      RunKeeps(s, front);
      OrderlyHasRoom(Reach(s, front), act);
      StepOrderly(Reach(s, front), act);
    }
  }
}
