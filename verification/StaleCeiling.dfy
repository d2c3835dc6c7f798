/** A definition accepted while the threads run does not refresh ceilings: a legal run in which a thread is then
    ended for asking for the lock that names it. */
module StaleCeiling {
  import opened Words
  import opened KernelState
  import opened Scheduling
  import opened Ceilings
  import opened Priorities
  import opened Admission
  import opened Runs
  import opened RunTheorems
  import opened Scenes
  import opened TwoThreads

  /** The lock of thread 8. */
  function Own(ceiling: Word): Mutex { Mutex(1, None, [], ceiling, 8) }

  function Stage(a: Tcb, b: Tcb, numActive: nat, active: nat, ceiling: Word, utilization: real): KState {
    KState(2, [a, b, IDLE, MAIN], Locks(Own(ceiling), UNUSED), 2, 1, numActive, active, 0, utilization, MAX, None,
           false, false, true)
  }

  lemma StageShape(a: Tcb, b: Tcb, numActive: nat, active: nat, ceiling: Word, utilization: real)
    requires a.pending == b.pending == None && numActive < 256 && active < 4
    ensures Shape(Stage(a, b, numActive, active, ceiling, utilization))
    ensures Quiet(Stage(a, b, numActive, active, ceiling, utilization))
  {
    var s := Stage(a, b, numActive, active, ceiling, utilization);
    assert LockInRange(Own(ceiling), s.n) && LockInRange(UNUSED, s.n);
    forall i | 0 <= i < |s.threads| ensures s.threads[i].pending == None && PendingInRange(s.threads[i], 1) {}
    hide LockInRange, PendingInRange;
  }

  function Owner(state: ThreadState, prio: Word): Tcb { Tcb(8, state, 100, 1000, prio, prio, 0, 100, 999, None) }

  function Prepared(): KState { Stage(Urgent(Ready, 0, 1, 3, None), Owner(Ready, 1), 2, 3, MAX, 0.35) }
  function Begun(): KState { Stage(Urgent(Running, 0, 1, 3, None), Owner(Ready, 1), 2, 0, 1, 0.35) }
  function Left(): KState { Stage(Urgent(Defunct, 0, 1, 3, None), Owner(Running, 1), 1, 1, 1, 0.1) }

  /** Thread 9, less urgent than thread 8, has taken the free slot. */
  function Joined(): KState {
    Stage(Tcb(9, Ready, 1, 2000, 1, 1, 0, 1, 1999, None), Owner(Running, 0), 2, 1, 1, 0.1005)
  }

  lemma Prepare()
    ensures Shape(BothDefined(0)) && Enabled(BothDefined(0), DoLockInit(8))
    ensures Next(BothDefined(0), DoLockInit(8)) == Prepared()
  {
    ReplaceFirst(UNUSED, UNUSED, Own(MAX));
  }

  lemma Begin()
    ensures Shape(Prepared()) && Enabled(Prepared(), DoStart(0)) && Next(Prepared(), DoStart(0)) == Begun()
  {
    var s, r := Prepared(), Begun();
    StageShape(s.threads[0], s.threads[1], 2, 3, MAX, 0.35);
    hide Shape;
    assert FindId(s.threads, 2, 1, 8) == Some(1);
    assert FindId(s.threads, 2, 0, 8) == Some(1);
    assert IsLive(s.threads, 2, 1) && HasId(s.threads, 2, 8);
    ReplaceFirst(Own(MAX), UNUSED, Own(1));
    var v := s.(locks := Locks(Own(1), UNUSED));
    assert Validate(v, 1) == v;
    assert Validate(s, 0) == v;
    assert SetState(s.threads, 0, Running) == r.threads;
    SettleTwo(Start(s, 0), r);
  }

  lemma UrgentLeaves()
    ensures Shape(Begun()) && Enabled(Begun(), DoEnd) && Next(Begun(), DoEnd) == Left()
  {
    var s, r := Begun(), Left();
    StageShape(s.threads[0], s.threads[1], 2, 0, 1, 0.35);
    hide Shape;
    NothingToRelease(s, 0);
    var e := Retire(s);
    assert e.threads == [Urgent(Defunct, 0, 1, 3, None), Owner(Ready, 1), IDLE, MAIN];
    assert e == r.(threads := e.threads, active := 0, pendsv := true);
    assert SetState(e.threads, 1, Running) == r.threads;
    SettleTwo(e, r);
  }

  lemma NewcomerJoins()
    ensures Shape(Left()) && Enabled(Left(), DoDefine(9, false, 1, 2000))
    ensures Next(Left(), DoDefine(9, false, 1, 2000)) == Joined()
  {
    var s := Left();
    StageShape(s.threads[0], s.threads[1], 1, 1, 1, 0.1);
    NewcomerAccepted();
    NewcomerOrdered();
    hide Shape, Order, FreeSlot, DefineCode, Quiet, Next, Enabled;
    var th := [Defined(s.threads[0], 9, 1, 2000), s.threads[1], IDLE, MAIN];
    assert s.threads[0 := th[0]] == th;
    DefineStep(s, 9, 1, 2000, 0, th, Joined());
  }

  lemma NewcomerAccepted()
    ensures Shape(Left()) && FreeSlot(Left().threads, 2) == Some(0)
    ensures DefineCode(Left(), 9, false, 1, 2000) == SUCCESS
  {
    StageShape(Left().threads[0], Left().threads[1], 1, 1, 1, 0.1);
    hide Shape;
    assert FreeSlot(Left().threads, 1) == Some(0);
  }

  lemma NewcomerOrdered()
    ensures Order([Defined(Left().threads[0], 9, 1, 2000), Left().threads[1], IDLE, MAIN], 2) == Joined().threads
  {
    var th := [Defined(Left().threads[0], 9, 1, 2000), Left().threads[1], IDLE, MAIN];
    RankIsCount(th, 2, 0);
    RankIsCount(th, 2, 1);
    assert Count(th, 2, 0, 1) == 0 && Count(th, 2, 1, 1) == 0;
    hide Rank;
  }

  /** Thread 8 may take its lock before the definition. */
  lemma OwnerIsGranted()
    ensures Shape(Left()) && Enabled(Left(), DoLock(0)) && Next(Left(), DoLock(0)).locks[0].locker == Some(1)
  {
    StageShape(Left().threads[0], Left().threads[1], 1, 1, 1, 0.1);
    hide Shape;
  }

  /** After it the same request ends it. */
  lemma OwnerIsEnded()
    ensures Shape(Joined()) && Enabled(Joined(), DoLock(0)) && Next(Joined(), DoLock(0)).threads[1].state == Defunct
  {
    var s := Joined();
    StageShape(s.threads[0], s.threads[1], 2, 1, 1, 0.1005);
    hide Shape;
    NothingToRelease(s, 0);
    assert End(s) == Retire(s);
    SelectMeaning(End(s));
  }

  function Departure(): seq<Action> {
    [DoDefine(8, false, 100, 1000)] + [DoDefine(7, false, 1, 4)] + [DoLockInit(8)] + [DoStart(0)] + [DoEnd]
  }

  lemma DepartureLeads()
    ensures Initial(Fresh(2)) && Leads(Fresh(2), Departure(), Left())
  {
    FreshIsInitial(2);
    hide Initial, Fresh, OneDefined, BothDefined, Prepared, Begun, Left, Next, Enabled;
    var s := Fresh(2);
    DefineLesser();
    var none: seq<Action> := [];
    assert none + [DoDefine(8, false, 100, 1000)] == [DoDefine(8, false, 100, 1000)];
    Then(s, none, s, DoDefine(8, false, 100, 1000), OneDefined());
    hide Leads;
    DefineUrgent();
    var a := [DoDefine(8, false, 100, 1000)];
    Then(s, a, OneDefined(), DoDefine(7, false, 1, 4), BothDefined(0));
    Prepare();
    var b := a + [DoDefine(7, false, 1, 4)];
    Then(s, b, BothDefined(0), DoLockInit(8), Prepared());
    Begin();
    Then(s, b + [DoLockInit(8)], Prepared(), DoStart(0), Begun());
    UrgentLeaves();
    Then(s, b + [DoLockInit(8)] + [DoStart(0)], Begun(), DoEnd, Left());
  }

  /** A legal run from a fresh system at whose end thread 8 is live and named by lock 0, and its request for the
      lock ends it, although before the last definition the same request would have been granted. */
  lemma NamedThreadIsEnded()
    ensures Initial(Fresh(2)) && Legal(Fresh(2), Departure())
    ensures Legal(Fresh(2), Departure() + [DoDefine(9, false, 1, 2000)] + [DoLock(0)])
    ensures var s := Reach(Fresh(2), Departure());
            && s.active == 1 && s.defined > 0 && s.threads[1].id == s.locks[0].lockerId
            && Next(s, DoLock(0)).locks[0].locker == Some(1)
    ensures var r := Reach(Fresh(2), Departure() + [DoDefine(9, false, 1, 2000)]);
            && r.active == 1 && r.n == 2 && r.threads[1].id == r.locks[0].lockerId
            && Next(r, DoLock(0)).threads[1].state == Defunct
  {
    assert Left().active == 1 == Joined().active && Left().n == 2 == Joined().n && Left().defined == 1;
    assert Left().threads[1].id == Left().locks[0].lockerId && Joined().threads[1].id == Joined().locks[0].lockerId;
    OwnerIsGranted();
    OwnerIsEnded();
    DepartureLeads();
    NewcomerJoins();
    var s, a := Fresh(2), Departure();
    hide Initial, Fresh, Left, Joined, Next, Enabled, Departure, Leads;
    Then(s, a, Left(), DoDefine(9, false, 1, 2000), Joined());
    var b := a + [DoDefine(9, false, 1, 2000)];
    Then(s, b, Joined(), DoLock(0), Next(Joined(), DoLock(0)));
    Ends(s, a, Left());
    Ends(s, b, Joined());
    Ends(s, b + [DoLock(0)], Next(Joined(), DoLock(0)));
  }
}
