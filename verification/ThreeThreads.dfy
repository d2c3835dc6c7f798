/** Three threads: 7 in slot 0, the most urgent; 9 in slot 1; 8 in slot 2, the least urgent. */
module ThreeThreads {
  import opened Words
  import opened KernelState
  import opened Scheduling
  import opened Ceilings
  import opened Priorities
  import opened Admission
  import opened Runs
  import opened Scenes

  function Urgent(state: ThreadState, clock: Word, pending: Option<nat>): Tcb {
    Tcb(7, state, 1, 4, 0, 0, 0, 1, clock, pending)
  }

  function Middle(state: ThreadState, prio: Word, charged: nat, clock: Word): Tcb
    requires charged <= 2
  {
    Tcb(9, state, 2, 5, prio, prio, charged, 2 - charged, clock, None)
  }

  function Lesser(state: ThreadState, prio: Word, charged: nat, clock: Word): Tcb
    requires charged <= 100
  {
    Tcb(8, state, 100, 1000, prio, prio, charged, 100 - charged, clock, None)
  }

  const OPEN := Mutex(1, None, [], 0, 7)

  function Shut(waiters: seq<nat>): Mutex { Mutex(0, Some(2), waiters, 0, 7) }

  function World(a: Tcb, m: Tcb, b: Tcb, l: Mutex, active: nat, slot: Word, ceiling: Word, top: Option<nat>): KState {
    KState(3, [a, m, b, IDLE, MAIN], Locks(l, OPEN), 2, 2, if m.state == Defunct then 2 else 3, active, slot,
           if m.state == Defunct then 0.35 else 0.75, ceiling, top, false, false, true)
  }

  lemma WorldShape(a: Tcb, m: Tcb, b: Tcb, l: Mutex, active: nat, slot: Word, ceiling: Word, top: Option<nat>)
    requires active < 5 && LockInRange(l, 3) && (top.Some? ==> top.value < 2)
    requires PendingInRange(a, 2) && PendingInRange(m, 2) && PendingInRange(b, 2)
    ensures Shape(World(a, m, b, l, active, slot, ceiling, top))
  {
    var s := World(a, m, b, l, active, slot, ceiling, top);
    assert LockInRange(OPEN, s.n) && LockInRange(UNUSED, s.n);
    forall i | 0 <= i < |s.threads| ensures PendingInRange(s.threads[i], 2) {}
    hide LockInRange;
  }

  /** A control block after the accounting of a tick, and after the whole of it. */
  function Paid(th: Tcb, mine: bool): Tcb { if mine then Charged(th, false) else th }

  function Turn(th: Tcb, mine: bool, next: bool): Tcb {
    var d := Advanced(Paid(th, mine));
    if next then d.(state := Running) else d
  }

  lemma WorldTick(a: Tcb, m: Tcb, b: Tcb, l: Mutex, active: nat, slot: Word, ceiling: Word, top: Option<nat>, next: nat)
    requires active < 3 && LockInRange(l, 3) && (top.Some? ==> top.value < 2)
    requires PendingInRange(a, 2) && PendingInRange(m, 2) && PendingInRange(b, 2)
    requires active == 1 ==> m.state != Defunct
    requires next == PickOfThree(Paid(a, active == 0), Paid(m, active == 1), Paid(b, active == 2)) < 3
    ensures var s := World(a, m, b, l, active, slot, ceiling, top);
            && Shape(s) && Enabled(s, DoTick)
            && Next(s, DoTick) == World(Turn(a, active == 0, next == 0), Turn(m, active == 1, next == 1),
                                        Turn(b, active == 2, next == 2), l, next, Inc(slot), ceiling, top)
  {
    var s := World(a, m, b, l, active, slot, ceiling, top);
    WorldShape(a, m, b, l, active, slot, ceiling, top);
    hide Shape;
    var c := [Paid(a, active == 0), Paid(m, active == 1), Paid(b, active == 2), IDLE, MAIN];
    var r := World(Turn(a, active == 0, next == 0), Turn(m, active == 1, next == 1), Turn(b, active == 2, next == 2),
                   l, next, Inc(slot), ceiling, top);
    TurnTable(a, m, b, active, next);
    assert Turn(m, active == 1, next == 1).state == Defunct <==> m.state == Defunct;
    hide Advanced, Charged, Turn, Paid;
    TickThree(s, c, r);
  }

  lemma TurnTable(a: Tcb, m: Tcb, b: Tcb, active: nat, next: nat)
    requires active < 3 && next < 3
    ensures var c := [Paid(a, active == 0), Paid(m, active == 1), Paid(b, active == 2), IDLE, MAIN];
            && c == [a, m, b, IDLE, MAIN][active := Charged([a, m, b][active], false)]
            && SetState([Advanced(c[0]), Advanced(c[1]), Advanced(c[2])] + c[3..], next, Running)
                 == [Turn(a, active == 0, next == 0), Turn(m, active == 1, next == 1), Turn(b, active == 2, next == 2),
                     IDLE, MAIN]
  {
    hide Advanced, Charged;
  }

  function Setting(a: Tcb, m: Tcb, b: Tcb, defined: nat, numActive: nat, utilization: real): KState {
    KState(3, [a, m, b, IDLE, MAIN], Locks(if defined > 0 then NEW else UNUSED, if defined > 1 then NEW else UNUSED), 2,
           defined, numActive, 4, 0, utilization, MAX, None, false, false, numActive > 0)
  }

  lemma SettingShape(a: Tcb, m: Tcb, b: Tcb, defined: nat, numActive: nat, utilization: real)
    requires a.pending == m.pending == b.pending == None && defined <= 2 && numActive < 256
    ensures Shape(Setting(a, m, b, defined, numActive, utilization))
    ensures Quiet(Setting(a, m, b, defined, numActive, utilization))
  {
    var s := Setting(a, m, b, defined, numActive, utilization);
    assert LockInRange(NEW, s.n) && LockInRange(UNUSED, s.n);
    forall i | 0 <= i < |s.threads| ensures s.threads[i].pending == None && PendingInRange(s.threads[i], defined) {}
    hide LockInRange, PendingInRange;
  }

  function One(): KState { Setting(BLANK, BLANK, Lesser(Ready, 0, 0, 999), 0, 1, 0.1) }
  function Two(): KState { Setting(BLANK, Middle(Ready, 0, 0, 4), Lesser(Ready, 1, 0, 999), 0, 2, 0.5) }

  function All(defined: nat): KState {
    Setting(Urgent(Ready, 3, None), Middle(Ready, 1, 0, 4), Lesser(Ready, 2, 0, 999), defined, 3, 0.75)
  }

  lemma DefineLesser()
    ensures Shape(Fresh(3)) && Enabled(Fresh(3), DoDefine(8, false, 100, 1000))
    ensures Next(Fresh(3), DoDefine(8, false, 100, 1000)) == One()
  {
    var s := Fresh(3);
    assert s == Setting(BLANK, BLANK, BLANK, 0, 0, 0.0);
    SettingShape(BLANK, BLANK, BLANK, 0, 0, 0.0);
    LesserAccepted();
    LesserOrdered();
    hide Shape, Order, FreeSlot, DefineCode, Quiet, Next, Enabled;
    var th := [BLANK, BLANK, Defined(BLANK, 8, 100, 1000), IDLE, MAIN];
    assert s.threads[2 := th[2]] == th;
    DefineStep(s, 8, 100, 1000, 2, th, One());
  }

  lemma LesserAccepted()
    ensures var s := Setting(BLANK, BLANK, BLANK, 0, 0, 0.0);
            Shape(s) && FreeSlot(s.threads, 3) == Some(2) && DefineCode(s, 8, false, 100, 1000) == SUCCESS
  {
    SettingShape(BLANK, BLANK, BLANK, 0, 0, 0.0);
    hide Shape;
    assert FreeSlot([BLANK, BLANK, BLANK, IDLE, MAIN], 3) == Some(2);
  }

  lemma LesserOrdered()
    ensures Order([BLANK, BLANK, Defined(BLANK, 8, 100, 1000), IDLE, MAIN], 3) == One().threads
  {
    var th := [BLANK, BLANK, Defined(BLANK, 8, 100, 1000), IDLE, MAIN];
    RankIsCount(th, 3, 2);
    assert Count(th, 3, 2, 1) == 0;
    hide Rank;
  }

  lemma DefineMiddle()
    ensures Shape(One()) && Enabled(One(), DoDefine(9, false, 2, 5))
    ensures Next(One(), DoDefine(9, false, 2, 5)) == Two()
  {
    var s := One();
    SettingShape(BLANK, BLANK, Lesser(Ready, 0, 0, 999), 0, 1, 0.1);
    MiddleAccepted();
    MiddleOrdered();
    hide Shape, Order, FreeSlot, DefineCode, Quiet, Next, Enabled;
    var th := [BLANK, Defined(BLANK, 9, 2, 5), s.threads[2], IDLE, MAIN];
    assert s.threads[1 := th[1]] == th;
    DefineStep(s, 9, 2, 5, 1, th, Two());
  }

  lemma MiddleAccepted()
    ensures Shape(One()) && FreeSlot(One().threads, 3) == Some(1) && DefineCode(One(), 9, false, 2, 5) == SUCCESS
  {
    SettingShape(BLANK, BLANK, Lesser(Ready, 0, 0, 999), 0, 1, 0.1);
    hide Shape;
    assert FreeSlot(One().threads, 2) == Some(1);
  }

  lemma MiddleOrdered()
    ensures Order([BLANK, Defined(BLANK, 9, 2, 5), Lesser(Ready, 0, 0, 999), IDLE, MAIN], 3) == Two().threads
  {
    var th := [BLANK, Defined(BLANK, 9, 2, 5), Lesser(Ready, 0, 0, 999), IDLE, MAIN];
    RankIsCount(th, 3, 1);
    RankIsCount(th, 3, 2);
    assert Count(th, 3, 1, 1) == 0 && Count(th, 3, 2, 1) == 0;
    hide Rank;
  }

  lemma DefineUrgent()
    ensures Shape(Two()) && Enabled(Two(), DoDefine(7, false, 1, 4))
    ensures Next(Two(), DoDefine(7, false, 1, 4)) == All(0)
  {
    var s := Two();
    SettingShape(BLANK, Middle(Ready, 0, 0, 4), Lesser(Ready, 1, 0, 999), 0, 2, 0.5);
    UrgentAccepted();
    UrgentOrdered();
    hide Shape, Order, FreeSlot, DefineCode, Quiet, Next, Enabled;
    var th := [Defined(BLANK, 7, 1, 4), s.threads[1], s.threads[2], IDLE, MAIN];
    assert s.threads[0 := th[0]] == th;
    DefineStep(s, 7, 1, 4, 0, th, All(0));
  }

  lemma UrgentAccepted()
    ensures Shape(Two()) && FreeSlot(Two().threads, 3) == Some(0) && DefineCode(Two(), 7, false, 1, 4) == SUCCESS
  {
    SettingShape(BLANK, Middle(Ready, 0, 0, 4), Lesser(Ready, 1, 0, 999), 0, 2, 0.5);
    hide Shape;
    assert FreeSlot(Two().threads, 1) == Some(0);
    assert FreeSlot(Two().threads, 2) == Some(0);
  }

  lemma UrgentOrdered()
    ensures Order([Defined(BLANK, 7, 1, 4), Middle(Ready, 0, 0, 4), Lesser(Ready, 1, 0, 999), IDLE, MAIN], 3)
         == All(0).threads
  {
    var th := [Defined(BLANK, 7, 1, 4), Middle(Ready, 0, 0, 4), Lesser(Ready, 1, 0, 999), IDLE, MAIN];
    RankIsCount(th, 3, 0);
    RankIsCount(th, 3, 1);
    RankIsCount(th, 3, 2);
    assert Count(th, 3, 0, 1) == 0 && Count(th, 3, 1, 1) == 1 && Count(th, 3, 2, 1) == 1;
    hide Rank;
  }

  lemma InitLocks()
    ensures Shape(All(0)) && Enabled(All(0), DoLockInit(7)) && Next(All(0), DoLockInit(7)) == All(1)
    ensures Shape(All(1)) && Enabled(All(1), DoLockInit(7)) && Next(All(1), DoLockInit(7)) == All(2)
  {
    assert Locks(UNUSED, UNUSED)[0 := NEW] == Locks(NEW, UNUSED);
    assert Locks(NEW, UNUSED)[1 := NEW] == Locks(NEW, NEW);
  }

  function Definitions(): seq<Action> {
    [DoDefine(8, false, 100, 1000), DoDefine(9, false, 2, 5), DoDefine(7, false, 1, 4), DoLockInit(7), DoLockInit(7)]
  }

  lemma DefinitionsLead()
    ensures Leads(Fresh(3), Definitions(), All(2))
  {
    hide Fresh, One, Two, All, Next, Enabled;
    var s := Fresh(3);
    FreshIsInitial(3);
    var a: seq<Action> := [];
    DefineLesser();
    Then(s, a, s, DoDefine(8, false, 100, 1000), One());
    var b := a + [DoDefine(8, false, 100, 1000)];
    DefineMiddle();
    Then(s, b, One(), DoDefine(9, false, 2, 5), Two());
    var c := b + [DoDefine(9, false, 2, 5)];
    DefineUrgent();
    Then(s, c, Two(), DoDefine(7, false, 1, 4), All(0));
    var d := c + [DoDefine(7, false, 1, 4)];
    InitLocks();
    Then(s, d, All(0), DoLockInit(7), All(1));
    Then(s, d + [DoLockInit(7)], All(1), DoLockInit(7), All(2));
    assert d + [DoLockInit(7)] + [DoLockInit(7)] == Definitions();
  }

  /** Multitasking has started. */
  function S0(): KState {
    World(Urgent(Running, 3, None), Middle(Ready, 1, 0, 4), Lesser(Ready, 2, 0, 999), OPEN, 0, 0, MAX, None)
  }
  lemma CeilingsFilled()
    ensures Shape(All(2)) && ValidIds(All(2)) && Validate(All(2), 0) == All(2).(locks := Locks(OPEN, OPEN))
  {
    var s := All(2);
    SettingShape(s.threads[0], s.threads[1], s.threads[2], 2, 3, 0.75);
    hide Shape;
    assert FindId(s.threads, 3, 0, 7) == Some(0);
    assert IsLive(s.threads, 3, 0) && HasId(s.threads, 3, 7);
    var u := s.(locks := Locks(OPEN, NEW));
    assert s.locks[0 := OPEN] == u.locks && u.locks[1 := OPEN] == Locks(OPEN, OPEN);
    var v := s.(locks := Locks(OPEN, OPEN));
    assert Validate(v, 2) == v;
    assert Validate(u, 1) == v;
  }

  lemma StartSettles()
    ensures Shape(All(2)) && Settle(Start(All(2), 0)) == S0()
  {
    CeilingsFilled();
    hide Validate, ValidIds;
    var s := All(2);
    assert SetState(s.threads, 0, Running) == S0().threads;
    SettleThree(Start(s, 0), S0());
  }

  lemma StartAll()
    ensures Shape(All(2)) && Enabled(All(2), DoStart(0)) && Next(All(2), DoStart(0)) == S0()
  {
    StartSettles();
    hide Settle, Start, S0;
  }

  /** Thread 7 has yielded to thread 9. */
  function S1(): KState {
    World(Urgent(Waiting, 3, None), Middle(Running, 1, 0, 4), Lesser(Ready, 2, 0, 999), OPEN, 1, 0, MAX, None)
  }

  lemma UrgentYields()
    ensures Shape(S0()) && Enabled(S0(), DoYield) && Next(S0(), DoYield) == S1()
  {
    var y := Yield(S0());
    assert SetState(y.threads, 1, Running) == S1().threads;
    SettleThree(y, S1());
  }

  function Beginning(): seq<Action> { Definitions() + [DoStart(0)] + [DoYield] }

  lemma BeginningLeads()
    ensures Initial(Fresh(3)) && Leads(Fresh(3), Beginning(), S1())
  {
    FreshIsInitial(3);
    hide Initial, Leads, Fresh, All, S0, S1, Next, Enabled, Definitions;
    DefinitionsLead();
    StartAll();
    Then(Fresh(3), Definitions(), All(2), DoStart(0), S0());
    UrgentYields();
    Then(Fresh(3), Definitions() + [DoStart(0)], S0(), DoYield, S1());
  }
}
