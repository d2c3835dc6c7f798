/** Periodic budgets over runs of any length. */
module Budgets {
  import opened Words
  import opened Arithmetic
  import opened KernelState
  import opened Scheduling
  import opened Ceilings
  import opened Priorities
  import opened Admission
  import opened LockInvariant
  import opened UnlockSteps
  import opened Runs
  import opened Protocol

  /** A thread as `syscall_thread_define` leaves it. */
  predicate Fresh(th: Tcb) {
    && th.state == Ready && th.pending == None && 1 <= th.c <= th.t
    && th.remaining == th.c && th.untilRelease == th.t - 1 && th.activeTime == 0
  }

  /** What the run did to one thread: ticks seen, slots charged to it, slots charged since its latest
      release. */
  datatype Ledger = Ledger(ticks: nat, charged: nat, since: nat)

  /** A tick charges the active thread first and releases after. */
  function Book(l: Ledger, s: KState, act: Action, i: nat): (r: Ledger)
    requires Shape(s) && i < s.n
  {
    if !act.DoTick? then l
    else
      var more := if s.active == i then 1 else 0;
      Ledger(l.ticks + 1, l.charged + more, if Dec(s.threads[i].untilRelease) == 0 then 0 else l.since + more)
  }

  function Booked(s: KState, acts: seq<Action>, i: nat): (r: Ledger)
    requires Shape(s) && i < s.n
    decreases |acts|
  {
    if acts == [] then Ledger(0, 0, 0)
    else Book(Booked(s, acts[..|acts|-1], i), Reach(s, acts[..|acts|-1]), acts[|acts|-1], i)
  }

  /** Thread i stands on the wait list of lock x while it waits for its period. */
  predicate WaitsAt(s: KState, x: nat, i: nat)
    requires Shape(s)
  {
    Queued(s, x, i) && i < s.n && s.threads[i].state == Waiting
  }

  /** The active thread's end opens such a lock; locks below k are past. */
  ghost predicate EndWakes(s: KState, k: nat, i: nat)
    requires Shape(s)
  {
    exists x: nat :: k <= x && HeldBy(s, x, s.active) && WaitsAt(s, x, i)
  }

  /** The action opens a lock on whose wait list thread i stands while it waits for its period, which readies it
      before its release. */
  ghost predicate WakesSpent(s: KState, act: Action, i: nat)
    requires Shape(s)
  {
    match act
    case DoUnlock(m) => m < s.defined && Locked(s.locks[m]) && WaitsAt(s, m, i)
    case DoEnd => s.active < s.n && EndWakes(s, 0, i)
    case DoLock(m) =>
      && s.active < s.n && m < s.defined && s.threads[s.active].staticPrio < s.locks[m].ceiling
      && EndWakes(s, 0, i)
    case _ => false
  }

  /** The tick charges thread i, which has no work left and is not released. */
  predicate Overcharges(s: KState, act: Action, i: nat)
    requires Shape(s) && i < s.n
  {
    act.DoTick? && s.active == i && s.threads[i].remaining == 0 && Dec(s.threads[i].untilRelease) != 0
  }

  /** Thread i is live all along. */
  ghost predicate LivesOn(s: KState, acts: seq<Action>, i: nat)
    requires Shape(s)
    decreases |acts|
  {
    Live(Reach(s, acts), i) && (acts != [] ==> LivesOn(s, acts[..|acts|-1], i))
  }

  /** No step of the run wakes thread i without work. */
  ghost predicate NeverWokenSpent(s: KState, acts: seq<Action>, i: nat)
    requires Shape(s)
    decreases |acts|
  {
    acts != [] ==>
      && NeverWokenSpent(s, acts[..|acts|-1], i)
      && !WakesSpent(Reach(s, acts[..|acts|-1]), acts[|acts|-1], i)
  }

  /** No tick of the run charges thread i without work. */
  ghost predicate NeverOvercharged(s: KState, acts: seq<Action>, i: nat)
    requires Shape(s) && i < s.n
    decreases |acts|
  {
    acts != [] ==>
      && NeverOvercharged(s, acts[..|acts|-1], i)
      && !Overcharges(Reach(s, acts[..|acts|-1]), acts[|acts|-1], i)
  }

  // ----- one step

  predicate SameBudget(th: Tcb, r: Tcb) {
    && r.c == th.c && r.t == th.t && r.remaining == th.remaining && r.untilRelease == th.untilRelease
    && r.activeTime == th.activeTime
  }

  /** Work is left for a thread that may run. */
  predicate HasWork(th: Tcb) {
    th.state == Running || th.state == Ready || th.state == Blocked ==> th.remaining > 0
  }

  /** A thread that waits for its period in a queue got there by using up its budget: it had asked for a lock, so
      it cannot have yielded. */
  ghost predicate Spent(s: KState, i: nat)
    requires Shape(s) && i < s.n
  {
    InSomeQueue(s, i) && s.threads[i].state == Waiting ==> s.threads[i].remaining == 0
  }

  /** The budget is untouched, and there is work left unless there was none or the thread was woken without. */
  ghost predicate Kept(s: KState, r: KState, i: nat, woken: bool)
    requires Shape(s) && Shape(r) && i < s.n && i < r.n
  {
    && SameBudget(s.threads[i], r.threads[i]) && Spent(r, i)
    && (HasWork(r.threads[i]) <==> HasWork(s.threads[i]) && !woken)
  }

  lemma KeptThen(s: KState, u: KState, r: KState, i: nat, woken: bool)
    requires Shape(s) && Shape(u) && Shape(r) && i < s.n && i < u.n && i < r.n
    requires Kept(s, u, i, woken) && Kept(u, r, i, false)
    ensures Kept(s, r, i, woken)
  {
  }

  lemma SettleBudget(s: KState, i: nat)
    requires Shape(s) && !s.preempt && i < s.n && Spent(s, i)
    ensures Kept(s, Settle(s), i, false)
  {
    SelectMeaning(s);
    SettleQueues(s, i);
  }

  lemma SettleQueues(s: KState, i: nat)
    requires Shape(s)
    ensures InSomeQueue(Settle(s), i) <==> InSomeQueue(s, i)
  {
    assert Settle(s).locks == s.locks && Settle(s).defined == s.defined;
    forall x: nat ensures Queued(Settle(s), x, i) <==> Queued(s, x, i) {}
  }

  /** An unlock only takes threads out of queues. */
  lemma UnlockQueues(s: KState, m: nat, i: nat)
    requires Shape(s) && LockInv(s) && CanUnlock(s, m)
    ensures InSomeQueue(Unlock(s, m), i) ==> InSomeQueue(s, i)
    ensures i in s.locks[m].waiters ==> InSomeQueue(s, i)
  {
    UnlockShape(s, m);
    hide Unlock;
    forall x: nat | Queued(Unlock(s, m), x, i) ensures Queued(s, x, i) {}
    if i in s.locks[m].waiters { assert Queued(s, m, i); }
  }

  lemma UnlockBudget(s: KState, m: nat, i: nat)
    requires Shape(s) && LockInv(s) && CanUnlock(s, m) && Live(s, i)
    requires Spent(s, i) && s.threads[s.active].state != Waiting
    ensures Kept(s, Unlock(s, m), i, WaitsAt(s, m, i))
    ensures Unlock(s, m).threads[s.active].state == Ready && Live(Unlock(s, m), i)
  {
    UnlockQueues(s, m, i);
    UnlockShape(s, m);
    var r := Unlock(s, m);
    assert s.locks[m].locker.Some? && s.threads[s.active].state != Defunct;
    hide Unlock, LockInv, CanUnlock, InSomeQueue, Opened, HasWork, SameBudget;
    assert UnlockedTcb(s.threads[s.active], r.threads[s.active], s.active in s.locks[m].waiters, true);
    WokenBudget(s.threads[i], r.threads[i], i in s.locks[m].waiters, i == s.active);
  }

  lemma WokenBudget(th: Tcb, r: Tcb, queued: bool, mine: bool)
    requires UnlockedTcb(th, r, queued, mine) && th.state != Defunct
    requires mine ==> th.state != Waiting
    requires queued && th.state == Waiting ==> th.remaining == 0
    ensures SameBudget(th, r) && (r.state == Waiting <==> th.state == Waiting && !queued) && r.state != Defunct
    ensures HasWork(r) <==> HasWork(th) && !(queued && th.state == Waiting)
  {
  }

  lemma {:induction false} ReleaseFromBudget(s: KState, k: nat, i: nat)
    requires Shape(s) && k <= s.defined && Ending(s, k) && Live(s, i)
    requires Spent(s, i) && s.threads[s.active].state != Waiting
    ensures Kept(s, ReleaseFrom(s, k), i, EndWakes(s, k, i))
    decreases s.defined - k
  {
    hide Unlock, LockInv, Kept, Spent;
    if k == s.defined {
      NothingReleased(s, i);
    } else {
      ReleaseOne(s, k);
      if s.locks[k].locker == Some(s.active) {
        var u := Unlock(s, k);
        UnlockBudget(s, k, i);
        KeptSpent(s, u, i, WaitsAt(s, k, i));
        ReleaseFromBudget(u, k + 1, i);
        OneReleased(s, k, i);
        KeptBoth(s, u, ReleaseFrom(u, k + 1), i, WaitsAt(s, k, i), EndWakes(u, k + 1, i), EndWakes(s, k, i));
      } else {
        ReleaseFromBudget(s, k + 1, i);
        EndWakesNext(s, k, i);
      }
    }
  }

  lemma NothingReleased(s: KState, i: nat)
    requires Shape(s) && i < s.n && Spent(s, i)
    ensures Kept(s, s, i, EndWakes(s, s.defined, i))
  {
  }

  lemma KeptSpent(s: KState, r: KState, i: nat, woken: bool)
    requires Shape(s) && Shape(r) && i < s.n && i < r.n && Kept(s, r, i, woken)
    ensures Spent(r, i)
  {
  }

  lemma KeptBoth(s: KState, u: KState, r: KState, i: nat, first: bool, later: bool, either: bool)
    requires Shape(s) && Shape(u) && Shape(r) && i < s.n && i < u.n && i < r.n
    requires Kept(s, u, i, first) && Kept(u, r, i, later) && (either <==> first || (!first && later))
    ensures Kept(s, r, i, either)
  {
  }

  lemma EndWakesNext(s: KState, k: nat, i: nat)
    requires Shape(s) && k < s.defined && s.locks[k].locker != Some(s.active)
    ensures EndWakes(s, k, i) <==> EndWakes(s, k + 1, i)
  {
    if x: nat :| k <= x && HeldBy(s, x, s.active) && WaitsAt(s, x, i) {
      assert k + 1 <= x;
    }
  }

  /** Which wake-ups are left after the first lock has been opened. */
  lemma OneReleased(s: KState, k: nat, i: nat)
    requires Shape(s) && LockInv(s) && CanUnlock(s, k) && Live(s, i) && s.threads[s.active].state != Waiting
    ensures Unlock(s, k).active == s.active
    ensures EndWakes(s, k, i) <==> WaitsAt(s, k, i) || (!WaitsAt(s, k, i) && EndWakes(Unlock(s, k), k + 1, i))
  {
    UnlockShape(s, k);
    var u := Unlock(s, k);
    assert UnlockedTcb(s.threads[i], u.threads[i], i in s.locks[k].waiters, i == s.active);
    hide Unlock, LockInv;
    if x: nat :| k <= x && HeldBy(s, x, s.active) && WaitsAt(s, x, i) {
      if x != k && !WaitsAt(s, k, i) { assert k + 1 <= x && HeldBy(u, x, u.active) && WaitsAt(u, x, i); }
    }
    if WaitsAt(s, k, i) { assert HeldBy(s, k, s.active); }
    if !WaitsAt(s, k, i) {
      if x: nat :| k + 1 <= x && HeldBy(u, x, u.active) && WaitsAt(u, x, i) {
        assert HeldBy(s, x, s.active) && WaitsAt(s, x, i);
      }
    }
  }

  /** What a step other than a tick does to a budget: nothing. It leaves a thread that had work left with work
      left, unless it wakes it without. */
  ghost predicate Quietly(s: KState, r: KState, i: nat, woken: bool)
    requires Shape(s) && Shape(r) && i < s.n && i < r.n
  {
    && SameBudget(s.threads[i], r.threads[i]) && Spent(r, i)
    && (HasWork(s.threads[i]) ==> (HasWork(r.threads[i]) <==> !woken))
  }

  lemma KeptQuietly(s: KState, r: KState, i: nat, woken: bool)
    requires Shape(s) && Shape(r) && i < s.n && i < r.n && Kept(s, r, i, woken)
    ensures Quietly(s, r, i, woken)
  {
  }

  /** Only ticks touch budgets, and the one way to be ready without work is to be woken from a wait list. */
  lemma QuietStepBudget(s: KState, act: Action, i: nat)
    requires Inv(s) && Enabled(s, act) && !act.DoTick? && Live(s, i) && Spent(s, i)
    requires Live(Next(s, act), i)
    ensures Quietly(s, Next(s, act), i, WakesSpent(s, act, i))
  {
    hide Spent, Kept, Quietly;
    match act
    case DoLock(m) => LockBudget(s, m, i);
    case DoRetry =>
      assert SuspendedOk(s, s.active);
      AttemptBudget(s, s.threads[s.active].pending.value, i);
    case DoUnlock(m) => UnlockSettledBudget(s, m, i);
    case DoYield => YieldBudget(s, i);
    case DoEnd => if s.active < s.n { EndBudget(s, i); } else { SameQuietly(s, i); }
    case DoDefine(id, noFn, c, t) => DefineBudget(s, id, noFn, c, t, i);
    case DoLockInit(prio) => LockInitBudget(s, prio, i);
    case DoStart(freq) => StartBudget(s, freq, i);
  }

  lemma SameQuietly(s: KState, i: nat)
    requires Shape(s) && i < s.n && Spent(s, i)
    ensures Quietly(s, s, i, false)
  {
  }

  lemma LockBudget(s: KState, m: nat, i: nat)
    requires Inv(s) && InUserCode(s) && m < s.defined && Live(s, i) && Spent(s, i)
    requires Live(Settle(Lock(s, m)), i)
    ensures Quietly(s, Settle(Lock(s, m)), i, WakesSpent(s, DoLock(m), i))
  {
    hide Spent, Kept, Quietly;
    if s.threads[s.active].staticPrio < s.locks[m].ceiling { EndBudget(s, i); }
    else if s.locks[m].locker != Some(s.active) { AttemptBudget(s, m, i); }
    else { SameQuietly(s, i); }
  }

  lemma UnlockSettledBudget(s: KState, m: nat, i: nat)
    requires Inv(s) && InUserCode(s) && m < s.defined && Live(s, i) && Spent(s, i)
    requires !Locked(s.locks[m]) || s.locks[m].locker == Some(s.active)
    ensures Quietly(s, Settle(Unlock(s, m)), i, Locked(s.locks[m]) && WaitsAt(s, m, i))
  {
    if Locked(s.locks[m]) {
      OpenedBudget(s, m, i);
    } else {
      SameQuietly(s, i);
    }
  }

  lemma OpenedBudget(s: KState, m: nat, i: nat)
    requires Inv(s) && CanUnlock(s, m) && Live(s, i) && Spent(s, i) && s.threads[s.active].state == Running
    ensures Quietly(s, Settle(Unlock(s, m)), i, WaitsAt(s, m, i))
  {
    var u, woken := Unlock(s, m), WaitsAt(s, m, i);
    UnlockBudget(s, m, i);
    UnlockSpares(s, m);
    hide Spent, Kept, Quietly, Unlock, Settle, Inv, CanUnlock;
    KeptSpent(s, u, i, woken);
    SettleBudget(u, i);
    KeptThen(s, u, Settle(u), i, woken);
    KeptQuietly(s, Settle(u), i, woken);
  }

  lemma QueuedIsPending(s: KState, x: nat, w: nat)
    requires Shape(s) && LockInv(s) && Queued(s, x, w)
    ensures w < s.n && s.threads[w].pending.Some?
  {
    var j :| 0 <= j < |s.locks[x].waiters| && s.locks[x].waiters[j] == w;
    assert QueuedOk(s, x, s.locks[x].waiters[j]);
  }

  /** A thread in its own code stands in no queue. */
  lemma UserCodeNotQueued(s: KState)
    requires Shape(s) && LockInv(s) && InUserCode(s)
    ensures !InSomeQueue(s, s.active)
  {
    if x: nat :| Queued(s, x, s.active) { QueuedIsPending(s, x, s.active); }
  }

  lemma YieldBudget(s: KState, i: nat)
    requires Inv(s) && (InUserCode(s) || s.active == s.n) && Live(s, i) && Spent(s, i)
    ensures Quietly(s, Settle(Yield(s)), i, false)
  {
    var r := Yield(s);
    if InUserCode(s) { UserCodeNotQueued(s); }
    forall x: nat ensures Queued(r, x, i) <==> Queued(s, x, i) {}
    SettleBudget(r, i);
  }

  lemma EndBudget(s: KState, i: nat)
    requires Inv(s) && InUserCode(s) && Live(s, i) && Spent(s, i) && Live(Settle(End(s)), i)
    ensures Quietly(s, Settle(End(s)), i, EndWakes(s, 0, i))
  {
    var u, woken := ReleaseFrom(s, 0), EndWakes(s, 0, i);
    var r := Retire(u);
    ReleaseFromKeeps(s, 0);
    OtherSurvives(u, i);
    ReleaseFromBudget(s, 0, i);
    hide Spent, Kept, Quietly, EndWakes, SameBudget, HasWork, ReleaseFrom, Inv, LockInv, Ending;
    KeptSpent(s, u, i, woken);
    RetireBudget(u, i);
    KeptThen(s, u, r, i, woken);
    KeptSpent(u, r, i, false);
    SettleBudget(r, i);
    KeptThen(s, r, Settle(r), i, woken);
    KeptQuietly(s, Settle(r), i, woken);
  }

  /** The ending thread is not live afterwards. */
  lemma OtherSurvives(u: KState, i: nat)
    requires Shape(u) && u.active < u.n && !u.preempt && Live(Settle(Retire(u)), i)
    ensures i != u.active
  {
    SelectMeaning(Retire(u));
  }

  lemma RetireBudget(s: KState, i: nat)
    requires Shape(s) && i < s.n && i != s.active && Spent(s, i)
    ensures Kept(s, Retire(s), i, false)
  {
    forall x: nat ensures Queued(Retire(s), x, i) <==> Queued(s, x, i) {}
  }

  lemma AttemptBudget(s: KState, m: nat, i: nat)
    requires Inv(s) && s.active < s.n && m < s.defined && Live(s, i) && Spent(s, i)
    ensures Quietly(s, Settle(Attempt(s, m)), i, false)
  {
    AttemptOnlyBlocks(s, m, i);
    AttemptQueues(s, m, i);
    hide Attempt;
    SettleBudget(Attempt(s, m), i);
  }

  lemma AttemptOnlyBlocks(s: KState, m: nat, i: nat)
    requires Shape(s) && s.active < s.n && m < s.defined && i < s.n
    ensures Attempt(s, m).preempt == s.preempt && SameBudget(s.threads[i], Attempt(s, m).threads[i])
    ensures Attempt(s, m).threads[i].state == s.threads[i].state ||
              (i == s.active && Attempt(s, m).threads[i].state == Blocked)
  {
  }

  /** Only the refused thread joins a queue, and it is Blocked then. */
  lemma AttemptQueues(s: KState, m: nat, i: nat)
    requires Shape(s) && s.active < s.n && m < s.defined && i < s.n
    ensures InSomeQueue(Attempt(s, m), i) ==>
              InSomeQueue(s, i) || (i == s.active && Attempt(s, m).threads[i].state == Blocked)
  {
    var r := Attempt(s, m);
    if x: nat :| Queued(r, x, i) {
      if i != s.active || r.threads[i].state != Blocked { assert Queued(s, x, i); }
    }
  }

  lemma DefineBudget(s: KState, id: Word, noFn: bool, c: Word, t: Word, i: nat)
    requires Inv(s) && Live(s, i) && Spent(s, i)
    ensures Quietly(s, Define(s, id, noFn, c, t), i, false)
  {
    var r := Define(s, id, noFn, c, t);
    forall x: nat ensures Queued(r, x, i) <==> Queued(s, x, i) {}
    if DefineCode(s, id, noFn, c, t) == SUCCESS {
      var slot := FreeSlot(s.threads, s.n).value;
      var th := s.threads[slot := Defined(s.threads[slot], id, c, t)];
      assert r.threads[i] == Ranked(th, s.n, i);
    }
  }

  lemma LockInitBudget(s: KState, prio: Word, i: nat)
    requires Inv(s) && Live(s, i) && Spent(s, i)
    ensures Quietly(s, LockInit(s, prio), i, false)
  {
    var r := LockInit(s, prio);
    forall x: nat | Queued(r, x, i) ensures Queued(s, x, i) {}
  }

  lemma StartBudget(s: KState, freq: Word, i: nat)
    requires Inv(s) && s.active == s.n + 1 && Live(s, i) && Spent(s, i)
    ensures Quietly(s, Settle(Start(s, freq)), i, false)
  {
    StartQueues(s, freq, i);
    SettleBudget(Start(s, freq), i);
  }

  lemma StartQueues(s: KState, freq: Word, i: nat)
    requires Inv(s) && i < s.n
    ensures InSomeQueue(Start(s, freq), i) ==> InSomeQueue(s, i)
    ensures Start(s, freq).threads == s.threads && Start(s, freq).preempt == s.preempt
    ensures Start(s, freq).active == s.active
  {
    ValidateChangesCeilings(s, 0);
    var r := Start(s, freq);
    forall x: nat | Queued(r, x, i) ensures Queued(s, x, i) {
      assert r.locks[x].(ceiling := 0) == s.locks[x].(ceiling := 0);
    }
  }

  /** A tick's effect on a budget: charge if the slot was the thread's, then release when the clock runs out. */
  predicate TickedTcb(th: Tcb, r: Tcb, mine: bool) {
    var d := Dec(th.untilRelease);
    && r.c == th.c && r.t == th.t
    && r.activeTime == (if mine then Inc(th.activeTime) else th.activeTime)
    && r.untilRelease == (if d == 0 then th.t else d)
    && r.remaining == (if d == 0 then th.c else if mine then Dec(th.remaining) else th.remaining)
    && (HasWork(th) ==> HasWork(r))
  }

  lemma TickCharges(s: KState, i: nat)
    requires Inv(s) && Live(s, i) && s.threads[i].c > 0
    ensures TickedTcb(s.threads[i], Tick(s).threads[i], s.active == i)
    ensures Tick(s).threads[i].state == Waiting ==>
              Tick(s).threads[i].remaining == 0 ||
                (s.threads[i].state == Waiting && Tick(s).threads[i].remaining == s.threads[i].remaining)
  {
    SelectMeaning(Charge(s.(preempt := true, pendsv := true)));
    assert IsLive(s.threads, s.n, i) && i in LiveSet(s.threads, s.n);
  }

  /** What a tick does to the budget of a live thread. */
  lemma TickBudget(s: KState, i: nat)
    requires Inv(s) && Live(s, i) && Spent(s, i) && s.threads[i].c > 0
    ensures TickedTcb(s.threads[i], Tick(s).threads[i], s.active == i) && Spent(Tick(s), i)
  {
    TickCharges(s, i);
    TickQueues(s, i);
    hide Tick, Inv, TickedTcb, InSomeQueue;
  }

  lemma TickQueues(s: KState, i: nat)
    requires Shape(s)
    ensures InSomeQueue(Tick(s), i) <==> InSomeQueue(s, i)
  {
    var p := s.(preempt := true, pendsv := true);
    forall x: nat ensures Queued(p, x, i) <==> Queued(s, x, i) {}
    SettleQueues(p, i);
  }

  // ----- whole runs

  /** Ticks left to the next release, n ticks after the definition. */
  function ClockAt(t: nat, n: nat): (r: nat)
    requires t > 0
  {
    t - (n + 1) % t
  }

  /** The most that may have been charged n ticks after the definition: one budget per period begun. */
  function Allowance(c: nat, t: nat, n: nat): (r: nat)
    requires t > 0
  {
    c * ((n + 1) / t + 1)
  }

  /** What a 32-bit counter shows after x increments. */
  function Wrapped(x: nat): (r: nat) {
    x % LIMIT
  }

  /** The control block agrees with the ledger: the release clock, the work done and left in this period, and
      the active time. */
  ghost predicate Books(th: Tcb, c: nat, t: nat, l: Ledger)
    requires t > 0
  {
    && th.c == c && th.t == t
    && th.untilRelease == ClockAt(t, l.ticks)
    && l.since + th.remaining == c
    && th.activeTime == Wrapped(l.charged)
  }

  /** What is known of a thread with budget c and period t that keeps to its budget. */
  ghost predicate Account(th: Tcb, c: nat, t: nat, l: Ledger)
    requires t > 0
  {
    && Books(th, c, t, l)
    && l.charged + c <= Allowance(c, t, l.ticks) + l.since
    && HasWork(th)
  }

  lemma FreshAccount(th: Tcb)
    requires Fresh(th) && th.t >= 2
    ensures Account(th, th.c, th.t, Ledger(0, 0, 0))
  {
    DivSmall(1, th.t);
  }

  function TickedLedger(th: Tcb, l: Ledger, mine: bool): Ledger {
    var more := if mine then 1 else 0;
    Ledger(l.ticks + 1, l.charged + more, if Dec(th.untilRelease) == 0 then 0 else l.since + more)
  }

  lemma BooksTick(th: Tcb, r: Tcb, c: nat, t: nat, l: Ledger, mine: bool)
    requires t >= 2 && Books(th, c, t, l) && TickedTcb(th, r, mine)
    ensures Books(r, c, t, TickedLedger(th, l, mine)) <==>
              !(mine && th.remaining == 0 && Dec(th.untilRelease) != 0)
  {
    DivStep(l.ticks + 1, t);
    ActiveTimeStep(l.charged);
  }

  lemma AccountTick(th: Tcb, r: Tcb, c: nat, t: nat, l: Ledger, mine: bool)
    requires t >= 2 && c >= 1 && Account(th, c, t, l) && TickedTcb(th, r, mine) && (mine ==> th.remaining > 0)
    ensures Account(r, c, t, TickedLedger(th, l, mine))
  {
    BooksTick(th, r, c, t, l, mine);
    DivStep(l.ticks + 1, t);
    Distribute(c, (l.ticks + 1) / t + 1);
  }

  lemma ActiveTimeStep(charged: nat)
    ensures Inc(Wrapped(charged)) == Wrapped(charged + 1)
  {
  }

  lemma NextTick(u: KState)
    requires Shape(u)
    ensures Next(u, DoTick) == Tick(u)
  {
  }

  lemma TickAccount(u: KState, i: nat, c: nat, t: nat, l: Ledger)
    requires Inv(u) && Live(u, i) && Spent(u, i) && t >= 2 && c >= 1 && Books(u.threads[i], c, t, l)
    ensures Live(Tick(u), i) && Spent(Tick(u), i)
    ensures Books(Tick(u).threads[i], c, t, Book(l, u, DoTick, i)) <==> !Overcharges(u, DoTick, i)
    ensures Account(u.threads[i], c, t, l) ==> Account(Tick(u).threads[i], c, t, Book(l, u, DoTick, i))
  {
    TickBudget(u, i);
    TickLives(u, i);
    assert u.active == i ==> u.threads[i].state == Running;
    hide Tick, Inv, Spent, Shape, Books, Account;
    TickedAccount(u, i, Tick(u).threads[i], c, t, l);
  }

  lemma TickedAccount(u: KState, i: nat, r: Tcb, c: nat, t: nat, l: Ledger)
    requires Shape(u) && i < u.n && t >= 2 && c >= 1 && Books(u.threads[i], c, t, l)
    requires TickedTcb(u.threads[i], r, u.active == i) && (u.active == i ==> u.threads[i].state == Running)
    ensures Books(r, c, t, Book(l, u, DoTick, i)) <==> !Overcharges(u, DoTick, i)
    ensures Account(u.threads[i], c, t, l) ==> Account(r, c, t, Book(l, u, DoTick, i))
  {
    var th, mine := u.threads[i], u.active == i;
    BooksTick(th, r, c, t, l, mine);
    if Account(th, c, t, l) { AccountTick(th, r, c, t, l, mine); }
  }

  lemma TickLives(u: KState, i: nat)
    requires Inv(u) && Live(u, i)
    ensures Live(Tick(u), i)
  {
    SelectMeaning(Charge(u.(preempt := true, pendsv := true)));
  }

  lemma QuietAccount(th: Tcb, r: Tcb, c: nat, t: nat, l: Ledger)
    requires t > 0 && SameBudget(th, r)
    ensures Books(r, c, t, l) <==> Books(th, c, t, l)
    ensures Account(th, c, t, l) ==> (Account(r, c, t, l) <==> HasWork(r))
  {
  }

  /** One step of any kind: the books stay right exactly if it does not overcharge, and the account stays in order
      exactly if it does not wake the thread without work. */
  lemma AccountStepIff(u: KState, act: Action, i: nat, c: nat, t: nat, l: Ledger)
    requires Inv(u) && Enabled(u, act) && t >= 2 && c >= 1
    requires Live(u, i) && Live(Next(u, act), i) && Spent(u, i) && Books(u.threads[i], c, t, l)
    ensures Spent(Next(u, act), i)
    ensures Books(Next(u, act).threads[i], c, t, Book(l, u, act, i)) <==> !Overcharges(u, act, i)
    ensures Account(u.threads[i], c, t, l) ==>
              (Account(Next(u, act).threads[i], c, t, Book(l, u, act, i)) <==> !WakesSpent(u, act, i))
  {
    if act.DoTick? {
      TickAccount(u, i, c, t, l);
      NextTick(u);
    } else {
      QuietStepBudget(u, act, i);
      hide Next, Enabled, Inv, Books, Account, WakesSpent;
      QuietAccount(u.threads[i], Next(u, act).threads[i], c, t, l);
      assert Account(u.threads[i], c, t, l) ==> HasWork(u.threads[i]) by { WorkInAccount(u.threads[i], c, t, l); }
    }
  }

  lemma WorkInAccount(th: Tcb, c: nat, t: nat, l: Ledger)
    requires t > 0
    ensures Account(th, c, t, l) ==> HasWork(th) && Books(th, c, t, l)
  {
  }

  /** The account is in order at the start, at the end and everywhere in between. */
  ghost predicate AccountAlong(s: KState, acts: seq<Action>, i: nat)
    requires Shape(s) && i < s.n && s.threads[i].t > 0
    decreases |acts|
  {
    && Account(Reach(s, acts).threads[i], s.threads[i].c, s.threads[i].t, Booked(s, acts, i))
    && (acts != [] ==> AccountAlong(s, acts[..|acts|-1], i))
  }

  ghost predicate BooksAlong(s: KState, acts: seq<Action>, i: nat)
    requires Shape(s) && i < s.n && s.threads[i].t > 0
    decreases |acts|
  {
    && Books(Reach(s, acts).threads[i], s.threads[i].c, s.threads[i].t, Booked(s, acts, i))
    && (acts != [] ==> BooksAlong(s, acts[..|acts|-1], i))
  }

  /** A thread that waits for its period in a queue has no work left, after any run. */
  lemma {:induction false} SpentKeeps(s: KState, acts: seq<Action>, i: nat)
    requires Inv(s) && Legal(s, acts) && i < s.n && Fresh(s.threads[i]) && LivesOn(s, acts, i)
    ensures Spent(Reach(s, acts), i)
    decreases |acts|
  {
    if acts != [] {
      var front := acts[..|acts|-1];
      SpentKeeps(s, front, i);
      RunKeeps(s, front);
      SpentStep(Reach(s, front), acts[|acts|-1], i);
    }
  }

  lemma SpentStep(u: KState, act: Action, i: nat)
    requires Inv(u) && Enabled(u, act) && Live(u, i) && Live(Next(u, act), i) && Spent(u, i)
    ensures Spent(Next(u, act), i)
  {
    if act.DoTick? {
      assert IsLive(u.threads, u.n, i);
      TickBudget(u, i);
      NextTick(u);
    } else {
      QuietStepBudget(u, act, i);
    }
  }

  /** The books over any run: release clock, work done and left, and active time agree with the ledger all along
      exactly if no tick charges the thread when it has no work left. */
  lemma {:induction false} BooksIff(s: KState, acts: seq<Action>, i: nat)
    requires Inv(s) && Legal(s, acts) && i < s.n && Fresh(s.threads[i]) && s.threads[i].t >= 2 && LivesOn(s, acts, i)
    ensures BooksAlong(s, acts, i) <==> NeverOvercharged(s, acts, i)
    decreases |acts|
  {
    if acts == [] {
      FreshAccount(s.threads[i]);
    } else {
      var front := acts[..|acts|-1];
      BooksIff(s, front, i);
      SpentKeeps(s, front, i);
      RunKeeps(s, front);
      if BooksAlong(s, front, i) {
        AccountStepIff(Reach(s, front), acts[|acts|-1], i, s.threads[i].c, s.threads[i].t, Booked(s, front, i));
      }
    }
  }

  /** Budget enforcement over any run: books in order, total charged within one budget per period begun, and work
      left whenever the thread may run, all along exactly if no step wakes the thread from a wait list while it
      waits for its period. */
  lemma {:induction false} BudgetEnforcedIff(s: KState, acts: seq<Action>, i: nat)
    requires Inv(s) && Legal(s, acts) && i < s.n && Fresh(s.threads[i]) && s.threads[i].t >= 2 && LivesOn(s, acts, i)
    ensures AccountAlong(s, acts, i) <==> NeverWokenSpent(s, acts, i)
    decreases |acts|
  {
    if acts == [] {
      FreshAccount(s.threads[i]);
    } else {
      var front := acts[..|acts|-1];
      BudgetEnforcedIff(s, front, i);
      SpentKeeps(s, front, i);
      RunKeeps(s, front);
      if AccountAlong(s, front, i) {
        AccountStepIff(Reach(s, front), acts[|acts|-1], i, s.threads[i].c, s.threads[i].t, Booked(s, front, i));
      }
    }
  }

  /** The headline form: at most c slots in each of the periods begun so far. */
  lemma BudgetBound(s: KState, acts: seq<Action>, i: nat)
    requires Inv(s) && Legal(s, acts) && i < s.n && Fresh(s.threads[i]) && s.threads[i].t >= 2
    requires LivesOn(s, acts, i) && NeverWokenSpent(s, acts, i)
    ensures var l := Booked(s, acts, i); var most := Allowance(s.threads[i].c, s.threads[i].t, l.ticks);
            l.charged <= most && Reach(s, acts).threads[i].activeTime <= most
  {
    BudgetEnforcedIff(s, acts, i);
    AccountBound(Reach(s, acts).threads[i], s.threads[i].c, s.threads[i].t, Booked(s, acts, i));
  }

  lemma AccountBound(th: Tcb, c: nat, t: nat, l: Ledger)
    requires t > 0 && Account(th, c, t, l)
    ensures l.charged <= Allowance(c, t, l.ticks) && th.activeTime <= Allowance(c, t, l.ticks)
  {
    ModSmaller(l.charged, LIMIT);
  }

  /** The release clock survives its first tick exactly when the period is at least two: with period one
      it wraps around. */
  lemma ClockNeedsPeriodTwo(s: KState, i: nat)
    requires Inv(s) && i < s.n && Fresh(s.threads[i])
    ensures Tick(s).threads[i].untilRelease == s.threads[i].t - 2 % s.threads[i].t <==> s.threads[i].t >= 2
    ensures s.threads[i].t == 1 ==> Tick(s).threads[i].untilRelease == MAX
  {
    TickBudget(s, i);
    TwoMod(s.threads[i].t);
  }

  lemma TwoMod(t: int)
    requires t >= 1
    ensures 2 % t == if t <= 2 then 0 else 2
  {
    if t > 2 { DivSmall(2, t); }
  }

  /** An accepted definition leaves its thread fresh. */
  lemma DefineMakesFresh(s: KState, id: Word, noFn: bool, c: Word, t: Word)
    requires Inv(s) && DefineCode(s, id, noFn, c, t) == SUCCESS
    ensures FreeSlot(s.threads, s.n).Some?
    ensures var r := Define(s, id, noFn, c, t); var slot := FreeSlot(s.threads, s.n).value;
            && slot < s.n && Fresh(r.threads[slot])
            && r.threads[slot].id == id && r.threads[slot].c == c && r.threads[slot].t == t
            && forall i :: slot < i < s.n ==> s.threads[i].state != Defunct
  {
    FreeSlotIsLast(s.threads, s.n);
    var slot := FreeSlot(s.threads, s.n).value;
    var th := s.threads[slot := Defined(s.threads[slot], id, c, t)];
    assert Define(s, id, noFn, c, t).threads[slot] == Ranked(th, s.n, slot);
    if s.threads[slot].pending.Some? { SuspendedAt(s, slot); }
  }
}
