/** Who may ask for a lock: ceilings follow the threads that locks name until the next accepted definition. */
module Entitlement {
  import opened Words
  import opened KernelState
  import opened Scheduling
  import opened Ceilings
  import opened Priorities
  import opened Admission
  import opened LockInvariant
  import opened UnlockSteps
  import opened Runs

  /** Every lock that names a live thread has that thread's static priority as its ceiling. */
  ghost predicate Named(s: KState)
    requires Shape(s)
  {
    forall x, i :: 0 <= x < s.defined && IsLive(s.threads, s.n, i) && s.threads[i].id == s.locks[x].lockerId ==>
      s.locks[x].ceiling == s.threads[i].staticPrio
  }

  /** Main runs only when nobody else is left. */
  predicate MainAlone(s: KState) {
    s.active == s.n + 1 ==> s.numActive == 0
  }

  predicate SameName(th: Tcb, r: Tcb) {
    r.id == th.id && r.staticPrio == th.staticPrio && (r.state != Defunct ==> th.state != Defunct)
  }

  predicate SameCeiling(m: Mutex, r: Mutex) { r.ceiling == m.ceiling && r.lockerId == m.lockerId }

  /** Ids, static priorities and ceilings are as they were; threads may have ended. */
  ghost predicate SameNames(s: KState, r: KState)
    requires Shape(s) && Shape(r)
  {
    && r.n == s.n && r.defined == s.defined
    && (forall i :: 0 <= i < s.n ==> SameName(s.threads[i], r.threads[i]))
    && (forall x :: 0 <= x < s.defined ==> SameCeiling(s.locks[x], r.locks[x]))
  }

  lemma SameNamesKeep(s: KState, r: KState)
    requires Shape(s) && Shape(r) && SameNames(s, r) && Named(s)
    ensures Named(r)
  {
    forall x, i | 0 <= x < r.defined && IsLive(r.threads, r.n, i) && r.threads[i].id == r.locks[x].lockerId
      ensures r.locks[x].ceiling == r.threads[i].staticPrio
    {
      assert SameName(s.threads[i], r.threads[i]) && SameCeiling(s.locks[x], r.locks[x]);
      assert IsLive(s.threads, s.n, i);
    }
  }

  lemma SameNamesThen(s: KState, u: KState, r: KState)
    requires Shape(s) && Shape(u) && Shape(r) && SameNames(s, u) && SameNames(u, r)
    ensures SameNames(s, r)
  {
    forall i | 0 <= i < s.n ensures SameName(s.threads[i], r.threads[i]) {
      assert SameName(s.threads[i], u.threads[i]) && SameName(u.threads[i], r.threads[i]);
    }
    forall x | 0 <= x < s.defined ensures SameCeiling(s.locks[x], r.locks[x]) {
      assert SameCeiling(s.locks[x], u.locks[x]) && SameCeiling(u.locks[x], r.locks[x]);
    }
  }

  lemma SettleNames(s: KState)
    requires Shape(s) && !s.preempt && (!s.pendsv ==> MainAlone(s))
    ensures SameNames(s, Settle(s)) && MainAlone(Settle(s))
  {
    SelectMeaning(s);
    var r := Settle(s);
    assert r.n == s.n && r.defined == s.defined && r.locks == s.locks;
    forall i | 0 <= i < s.n ensures SameName(s.threads[i], r.threads[i]) {}
    forall x | 0 <= x < s.defined ensures SameCeiling(s.locks[x], r.locks[x]) {}
  }

  lemma TickNames(s: KState)
    requires Inv(s)
    ensures SameNames(s, Tick(s)) && MainAlone(Tick(s))
  {
    var p := s.(preempt := true, pendsv := true);
    SelectMeaning(Charge(p));
    PendSVGlobals(p);
    forall i | 0 <= i < s.n ensures SameName(s.threads[i], Tick(s).threads[i]) {
      PendSVThread(p, i);
    }
  }

  lemma AttemptNames(s: KState, m: nat)
    requires Shape(s) && m < s.defined && s.active < s.n && s.threads[s.active].state != Defunct
    ensures SameNames(s, Attempt(s, m)) && Attempt(s, m).preempt == s.preempt && Attempt(s, m).active == s.active
    ensures Attempt(s, m).n == s.n
  {
    if Admits(s) && s.locks[m].s != 0 { AcquireNames(s, m); } else { BlockNames(s, m); }
    hide Shape, Acquire, Block, Admits, SameNames;
  }

  lemma AcquireNames(s: KState, m: nat)
    requires Shape(s) && m < s.defined && s.active < s.n
    ensures SameNames(s, Acquire(s, m)) && Acquire(s, m).preempt == s.preempt && Acquire(s, m).active == s.active
  {
  }

  lemma BlockNames(s: KState, m: nat)
    requires Shape(s) && m < s.defined && s.active < s.n && s.threads[s.active].state != Defunct
    ensures SameNames(s, Block(s, m)) && Block(s, m).preempt == s.preempt && Block(s, m).active == s.active
  {
    var r := Block(s, m);
    assert r.n == s.n && r.defined == s.defined && r.preempt == s.preempt && r.active == s.active;
    forall i | 0 <= i < s.n ensures SameName(s.threads[i], r.threads[i]) { hide Shape, Enqueue; }
    forall x | 0 <= x < s.defined ensures SameCeiling(s.locks[x], r.locks[x]) { hide Shape, Donate; }
    hide Block, SameName, SameCeiling;
  }

  lemma UnlockNames(s: KState, m: nat)
    requires Shape(s) && LockInv(s) && CanUnlock(s, m)
    ensures SameNames(s, Unlock(s, m))
  {
    UnlockSpares(s, m);
    hide Unlock, LockInv, CanUnlock;
    SparedNames(s, m, Unlock(s, m));
  }

  lemma SparedNames(s: KState, m: nat, r: KState)
    requires Shape(s) && Shape(r) && m < s.defined && Spared(s, r) && r.locks == s.locks[m := Opened(s.locks[m])]
    ensures SameNames(s, r)
  {
    forall i | 0 <= i < s.n ensures SameName(s.threads[i], r.threads[i]) {
      assert Untouched(s.threads[i], r.threads[i]);
    }
  }

  lemma {:induction false} ReleaseNames(s: KState, k: nat)
    requires Shape(s) && k <= s.defined && Ending(s, k)
    ensures SameNames(s, ReleaseFrom(s, k))
    decreases s.defined - k
  {
    hide Unlock, LockInv, SameNames;
    if k == s.defined {
      SameNamesSelf(s);
    } else {
      ReleaseOne(s, k);
      if s.locks[k].locker == Some(s.active) {
        UnlockNames(s, k);
        ReleaseNames(Unlock(s, k), k + 1);
        SameNamesThen(s, Unlock(s, k), ReleaseFrom(Unlock(s, k), k + 1));
      } else {
        ReleaseNames(s, k + 1);
      }
    }
  }

  lemma SameNamesSelf(s: KState)
    requires Shape(s)
    ensures SameNames(s, s)
  {
  }

  lemma EndNames(s: KState)
    requires Inv(s) && InUserCode(s)
    ensures SameNames(s, Settle(End(s))) && MainAlone(Settle(End(s)))
  {
    ReleaseFromKeeps(s, 0);
    ReleaseNames(s, 0);
    var u := ReleaseFrom(s, 0);
    var r := Retire(u);
    RetireNames(u);
    SettleNames(r);
    hide ReleaseFrom, Settle, SameNames, Inv, Ending, MainAlone;
    SameNamesThen(s, u, r);
    SameNamesThen(s, r, Settle(r));
  }

  lemma RetireNames(s: KState)
    requires Shape(s)
    ensures SameNames(s, Retire(s)) && Retire(s).pendsv && Retire(s).preempt == s.preempt
  {
  }

  /** With nobody live there is nothing to say about ceilings. */
  lemma NobodyNamed(s: KState, r: KState)
    requires Inv(s) && s.numActive == 0 && Shape(r) && r.n == s.n
    requires forall i :: 0 <= i < s.n ==> r.threads[i].state == s.threads[i].state
    ensures Named(r)
  {
    assert LiveSet(s.threads, s.n) == {};
    forall i: int ensures !IsLive(r.threads, r.n, i) {
      assert i !in LiveSet(s.threads, s.n);
    }
  }

  lemma StartIdle(s: KState, freq: Word)
    requires Inv(s) && s.active == s.n + 1 && s.numActive == 0
    ensures Named(Settle(Start(s, freq))) && MainAlone(Settle(Start(s, freq)))
  {
    ValidateChangesCeilings(s, 0);
    var u := Start(s, freq);
    SettleNames(u);
    NobodyNamed(s, u);
    SameNamesKeep(u, Settle(u));
  }

  /** Anything but an accepted definition. */
  predicate KeepsNames(s: KState, act: Action)
    requires Shape(s)
  {
    act.DoDefine? ==> DefineCode(s, act.id, act.noFn, act.c, act.t) != SUCCESS
  }

  lemma StepNames(s: KState, act: Action)
    requires Inv(s) && Enabled(s, act) && KeepsNames(s, act) && Named(s) && MainAlone(s)
    ensures Named(Next(s, act)) && MainAlone(Next(s, act))
  {
    match act
    case DoLock(m) => LockNames(s, m);
    case DoRetry =>
      assert PendingInRange(s.threads[s.active], s.defined);
      AttemptSettled(s, s.threads[s.active].pending.value);
    case DoUnlock(m) => if Locked(s.locks[m]) { UnlockSettled(s, m); } else { StandNames(s); }
    case DoYield => YieldNames(s);
    case DoEnd => if s.active < s.n { EndNames(s); SameNamesKeep(s, Settle(End(s))); } else { StandNames(s); }
    case DoTick => TickNames(s); SameNamesKeep(s, Tick(s));
    case DoDefine(id, noFn, c, t) =>
    case DoLockInit(prio) => LockInitNames(s, prio);
    case DoStart(freq) => StartIdle(s, freq);
    hide Inv, Settle, Lock, Attempt, Unlock, Yield, End, Tick, LockInit, Start, DefineCode, Named, MainAlone;
  }

  lemma LockNames(s: KState, m: nat)
    requires Inv(s) && InUserCode(s) && m < s.defined && Named(s)
    ensures Named(Settle(Lock(s, m))) && MainAlone(Settle(Lock(s, m)))
  {
    if s.threads[s.active].staticPrio < s.locks[m].ceiling {
      EndNames(s);
      SameNamesKeep(s, Settle(End(s)));
    } else if s.locks[m].locker != Some(s.active) {
      AttemptSettled(s, m);
    } else {
      StandNames(s);
    }
    hide Inv, Settle, Attempt, End, Named, MainAlone;
  }

  /** A call that does nothing. */
  lemma StandNames(s: KState)
    requires Inv(s) && Named(s) && MainAlone(s)
    ensures Named(Settle(s)) && MainAlone(Settle(s))
  {
    SettleNames(s);
    SameNamesKeep(s, Settle(s));
  }

  lemma LockInitNames(s: KState, prio: Word)
    requires Inv(s) && Named(s) && MainAlone(s)
    ensures Named(LockInit(s, prio)) && MainAlone(LockInit(s, prio))
  {
    if LockInit(s, prio) != s { NobodyNamed(s, LockInit(s, prio)); }
    hide Inv, Named;
  }

  lemma YieldNames(s: KState)
    requires Inv(s) && (InUserCode(s) || s.active == s.n) && Named(s)
    ensures Named(Settle(Yield(s))) && MainAlone(Settle(Yield(s)))
  {
    var u := Yield(s);
    assert SameNames(s, u);
    SettleNames(u);
    SameNamesThen(s, u, Settle(u));
    SameNamesKeep(s, Settle(u));
  }

  lemma AttemptSettled(s: KState, m: nat)
    requires Inv(s) && m < s.defined && s.active < s.n && Named(s)
    ensures Named(Settle(Attempt(s, m))) && MainAlone(Settle(Attempt(s, m)))
  {
    AttemptNames(s, m);
    var u := Attempt(s, m);
    hide Attempt;
    SettleNames(u);
    SameNamesThen(s, u, Settle(u));
    SameNamesKeep(s, Settle(u));
  }

  lemma UnlockSettled(s: KState, m: nat)
    requires Inv(s) && InUserCode(s) && m < s.defined && s.locks[m].locker == Some(s.active) && Named(s)
    ensures Named(Settle(Unlock(s, m))) && MainAlone(Settle(Unlock(s, m)))
  {
    UnlockNames(s, m);
    UnlockSpares(s, m);
    var u := Unlock(s, m);
    hide Unlock;
    SettleNames(u);
    SameNamesThen(s, u, Settle(u));
    SameNamesKeep(s, Settle(u));
  }

  ghost predicate NoNewThreads(s: KState, acts: seq<Action>)
    requires Shape(s)
    decreases |acts|
  {
    acts == [] || (NoNewThreads(s, acts[..|acts|-1]) && KeepsNames(Reach(s, acts[..|acts|-1]), acts[|acts|-1]))
  }

  lemma {:induction false} NamesKept(s: KState, acts: seq<Action>)
    requires Inv(s) && Legal(s, acts) && NoNewThreads(s, acts) && Named(s) && MainAlone(s)
    ensures Named(Reach(s, acts)) && MainAlone(Reach(s, acts))
    decreases |acts|
  {
    if acts != [] {
      var front := acts[..|acts|-1];
      NamesKept(s, front);
      RunKeeps(s, front);
      StepNames(Reach(s, front), acts[|acts|-1]);
    }
  }

  /** A successful start gives every lock the priority of the thread it names. */
  lemma StartNames(s: KState, freq: Word)
    requires Inv(s) && s.active == s.n + 1 && StartCode(s, freq) == SUCCESS
    ensures Named(Next(s, DoStart(freq))) && MainAlone(Next(s, DoStart(freq)))
  {
    StartedNames(s, freq);
    var u := Start(s, freq);
    hide Start, StartCode, Inv, Shape, Named, MainAlone, SameNames;
    SettleNames(u);
    SameNamesKeep(u, Settle(u));
    hide Settle;
  }

  lemma StartedNames(s: KState, freq: Word)
    requires Inv(s) && s.active == s.n + 1 && StartCode(s, freq) == SUCCESS
    ensures Named(Start(s, freq)) && Start(s, freq).pendsv && !Start(s, freq).preempt
  {
    ValidateChangesCeilings(s, 0);
    StartFillsCeilings(s, freq);
    var u := Start(s, freq);
    assert u.threads == s.threads && u.n == s.n && u.pendsv && !u.preempt && DistinctIds(u.threads, u.n);
    hide Start, StartCode, Inv, Shape;
    FilledNames(u);
  }

  lemma FilledNames(u: KState)
    requires Shape(u) && DistinctIds(u.threads, u.n) && forall x :: 0 <= x < u.defined ==> CeilingNamed(u, x)
    ensures Named(u)
  {
    forall x, i | 0 <= x < u.defined && IsLive(u.threads, u.n, i) && u.threads[i].id == u.locks[x].lockerId
      ensures u.locks[x].ceiling == u.threads[i].staticPrio
    {
      assert CeilingNamed(u, x);
    }
  }

  /** From a start on, until the next accepted definition: a request for a lock ends the thread that makes it exactly
      if that thread is more urgent than the live thread the lock names. So nobody entitled is ended. */
  lemma EndedIffNotEntitled(s: KState, freq: Word, acts: seq<Action>, x: nat, i: nat)
    requires Inv(s) && s.active == s.n + 1 && StartCode(s, freq) == SUCCESS
    requires var u := Next(s, DoStart(freq));
             && Legal(u, acts) && NoNewThreads(u, acts) && InUserCode(Reach(u, acts))
             && x < Reach(u, acts).defined && Live(Reach(u, acts), i)
             && Reach(u, acts).threads[i].id == Reach(u, acts).locks[x].lockerId
    ensures var r := Reach(Next(s, DoStart(freq)), acts);
            Next(r, DoLock(x)).threads[r.active].state == Defunct <==>
              r.threads[r.active].staticPrio < r.threads[i].staticPrio
  {
    StepKeeps(s, DoStart(freq));
    StartNames(s, freq);
    var u := Next(s, DoStart(freq));
    NamesKept(u, acts);
    RunKeeps(u, acts);
    var r := Reach(u, acts);
    assert IsLive(r.threads, r.n, i);
    hide Next, Reach, Legal, Start;
    EndedIffAboveCeiling(r, x);
  }

  lemma EndedIffAboveCeiling(r: KState, x: nat)
    requires Inv(r) && InUserCode(r) && x < r.defined
    ensures Next(r, DoLock(x)).threads[r.active].state == Defunct <==>
              r.threads[r.active].staticPrio < r.locks[x].ceiling
  {
    var a := r.active;
    if r.threads[a].staticPrio < r.locks[x].ceiling {
      EndIsDefunct(r);
      SettledDefunct(End(r), a);
    } else if r.locks[x].locker != Some(a) {
      AttemptKeepsLive(r, x);
      SettledDefunct(Attempt(r, x), a);
    } else {
      SettledDefunct(r, a);
    }
    hide Inv, Settle, Attempt, End;
  }

  lemma EndIsDefunct(r: KState)
    requires Inv(r) && InUserCode(r)
    ensures End(r).threads[r.active].state == Defunct && !End(r).preempt && End(r).n == r.n
  {
    EndKeeps(r);
    ReleaseFromKeeps(r, 0);
    hide ReleaseFrom, LockInv;
  }

  lemma SettledDefunct(u: KState, a: nat)
    requires Shape(u) && a < u.n && !u.preempt
    ensures Settle(u).n == u.n && (Settle(u).threads[a].state == Defunct <==> u.threads[a].state == Defunct)
  {
    SelectMeaning(u);
  }

  lemma AttemptKeepsLive(r: KState, x: nat)
    requires Inv(r) && x < r.defined && r.active < r.n
    ensures var u := Attempt(r, x); u.threads[r.active].state != Defunct && !u.preempt && u.n == r.n
  {
  }
}
