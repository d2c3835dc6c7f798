/** An urgent thread 7 in slot 0 and a less urgent thread 8 in slot 1, and how they come to contend for a lock. */
module TwoThreads {
  import opened Words
  import opened KernelState
  import opened Scheduling
  import opened Ceilings
  import opened Priorities
  import opened Admission
  import opened Runs
  import opened Scenes

  function Urgent(state: ThreadState, charged: Word, remaining: Word, clock: Word, pending: Option<nat>): Tcb {
    Tcb(7, state, 1, 4, 0, 0, charged, remaining, clock, pending)
  }

  /** Thread 8 after it was charged n slots. */
  function Lesser(state: ThreadState, prio: Word, n: nat): Tcb
    requires n <= 100
  {
    Tcb(8, state, 100, 1000, 1, prio, n, 100 - n, 999 - n, None)
  }

  /** A lock that either thread may take: its ceiling is the priority of thread 7. */
  const OPEN := Mutex(1, None, [], 0, 7)

  function Taken(waiters: seq<nat>): Mutex { Mutex(0, Some(1), waiters, 0, 7) }

  function World(a: Tcb, b: Tcb, l: Mutex, active: nat, slot: Word, ceiling: Word, top: Option<nat>): KState {
    KState(2, [a, b, IDLE, MAIN], Locks(l, OPEN), 2, 2, 2, active, slot, 0.35, ceiling, top, false, false, true)
  }

  lemma WorldShape(a: Tcb, b: Tcb, l: Mutex, active: nat, slot: Word, ceiling: Word, top: Option<nat>)
    requires active < 4 && LockInRange(l, 2) && (top.Some? ==> top.value < 2)
    requires PendingInRange(a, 2) && PendingInRange(b, 2)
    ensures Shape(World(a, b, l, active, slot, ceiling, top))
  {
    var s := World(a, b, l, active, slot, ceiling, top);
    assert LockInRange(OPEN, s.n) && LockInRange(UNUSED, s.n);
    forall i | 0 <= i < |s.threads| ensures PendingInRange(s.threads[i], 2) {}
    hide LockInRange;
  }

  // ----- definitions

  function Setting(a: Tcb, b: Tcb, defined: nat, numActive: nat, utilization: real): KState {
    KState(2, [a, b, IDLE, MAIN], Locks(if defined > 0 then NEW else UNUSED, if defined > 1 then NEW else UNUSED), 2,
           defined, numActive, 3, 0, utilization, MAX, None, false, false, numActive > 0)
  }

  lemma SettingShape(a: Tcb, b: Tcb, defined: nat, numActive: nat, utilization: real)
    requires a.pending == b.pending == None && defined <= 2 && numActive < 256
    ensures Shape(Setting(a, b, defined, numActive, utilization))
    ensures Quiet(Setting(a, b, defined, numActive, utilization))
  {
    var s := Setting(a, b, defined, numActive, utilization);
    assert LockInRange(NEW, s.n) && LockInRange(UNUSED, s.n);
    forall i | 0 <= i < |s.threads| ensures s.threads[i].pending == None && PendingInRange(s.threads[i], defined) {}
    hide LockInRange, PendingInRange;
  }

  /** Thread 8 while it is the only one. */
  const FIRST := Tcb(8, Ready, 100, 1000, 0, 0, 0, 100, 999, None)

  function OneDefined(): KState { Setting(BLANK, FIRST, 0, 1, 0.1) }

  function BothDefined(defined: nat): KState {
    Setting(Urgent(Ready, 0, 1, 3, None), Lesser(Ready, 1, 0), defined, 2, 0.35)
  }

  lemma DefineLesser()
    ensures Shape(Fresh(2)) && Enabled(Fresh(2), DoDefine(8, false, 100, 1000))
    ensures Next(Fresh(2), DoDefine(8, false, 100, 1000)) == OneDefined()
  {
    var s := Fresh(2);
    assert s == Setting(BLANK, BLANK, 0, 0, 0.0);
    SettingShape(BLANK, BLANK, 0, 0, 0.0);
    LesserAccepted();
    LesserOrdered();
    hide Shape, Order, FreeSlot, DefineCode, Quiet, Next, Enabled;
    var th := [BLANK, Defined(BLANK, 8, 100, 1000), IDLE, MAIN];
    assert s.threads[1 := th[1]] == th;
    DefineStep(s, 8, 100, 1000, 1, th, OneDefined());
  }

  lemma LesserAccepted()
    ensures var s := Setting(BLANK, BLANK, 0, 0, 0.0);
            Shape(s) && FreeSlot(s.threads, 2) == Some(1) && DefineCode(s, 8, false, 100, 1000) == SUCCESS
  {
    SettingShape(BLANK, BLANK, 0, 0, 0.0);
    hide Shape;
    assert FreeSlot([BLANK, BLANK, IDLE, MAIN], 2) == Some(1);
  }

  lemma LesserOrdered()
    ensures Order([BLANK, Defined(BLANK, 8, 100, 1000), IDLE, MAIN], 2) == OneDefined().threads
  {
    var th := [BLANK, Defined(BLANK, 8, 100, 1000), IDLE, MAIN];
    RankIsCount(th, 2, 1);
    assert Count(th, 2, 1, 2) == 0;
    hide Rank;
  }

  lemma DefineUrgent()
    ensures Shape(OneDefined()) && Enabled(OneDefined(), DoDefine(7, false, 1, 4))
    ensures Next(OneDefined(), DoDefine(7, false, 1, 4)) == BothDefined(0)
  {
    var s := OneDefined();
    SettingShape(BLANK, FIRST, 0, 1, 0.1);
    UrgentAccepted();
    UrgentOrdered();
    hide Shape, Order, FreeSlot, DefineCode, Quiet, Next, Enabled;
    var th := [Defined(BLANK, 7, 1, 4), FIRST, IDLE, MAIN];
    assert s.threads[0 := th[0]] == th;
    DefineStep(s, 7, 1, 4, 0, th, BothDefined(0));
  }

  lemma UrgentAccepted()
    ensures var s := OneDefined();
            Shape(s) && FreeSlot(s.threads, 2) == Some(0) && DefineCode(s, 7, false, 1, 4) == SUCCESS
  {
    SettingShape(BLANK, FIRST, 0, 1, 0.1);
    hide Shape;
    assert FreeSlot(OneDefined().threads, 2) == Some(0);
  }

  lemma UrgentOrdered()
    ensures Order([Defined(BLANK, 7, 1, 4), FIRST, IDLE, MAIN], 2) == BothDefined(0).threads
  {
    var th := [Defined(BLANK, 7, 1, 4), FIRST, IDLE, MAIN];
    RankIsCount(th, 2, 0);
    RankIsCount(th, 2, 1);
    assert Count(th, 2, 0, 2) == 0 && Count(th, 2, 1, 1) == 1;
    hide Rank;
  }

  lemma InitLocks()
    ensures Shape(BothDefined(0)) && Enabled(BothDefined(0), DoLockInit(7))
    ensures Next(BothDefined(0), DoLockInit(7)) == BothDefined(1)
    ensures Shape(BothDefined(1)) && Enabled(BothDefined(1), DoLockInit(7))
    ensures Next(BothDefined(1), DoLockInit(7)) == BothDefined(2)
  {
    assert Locks(UNUSED, UNUSED)[0 := NEW] == Locks(NEW, UNUSED);
    assert Locks(NEW, UNUSED)[1 := NEW] == Locks(NEW, NEW);
  }

  lemma CeilingsFilled()
    ensures var s := BothDefined(2);
            Shape(s) && ValidIds(s) && Validate(s, 0) == s.(locks := Locks(OPEN, OPEN))
  {
    var s := BothDefined(2);
    SettingShape(s.threads[0], s.threads[1], 2, 2, 0.35);
    hide Shape;
    assert FindId(s.threads, 2, 0, 7) == Some(0);
    assert IsLive(s.threads, 2, 0) && HasId(s.threads, 2, 7);
    var u := s.(locks := Locks(OPEN, NEW));
    assert s.locks[0 := OPEN] == u.locks && u.locks[1 := OPEN] == Locks(OPEN, OPEN);
    var v := s.(locks := Locks(OPEN, OPEN));
    assert Validate(v, 2) == v;
    assert Validate(u, 1) == v;
  }

  lemma StartBoth()
    ensures Shape(BothDefined(2)) && Enabled(BothDefined(2), DoStart(0))
    ensures Next(BothDefined(2), DoStart(0)) ==
              World(Urgent(Running, 0, 1, 3, None), Lesser(Ready, 1, 0), OPEN, 0, 0, MAX, None)
  {
    CeilingsFilled();
    hide Validate, ValidIds;
    var s := BothDefined(2);
    var r := World(Urgent(Running, 0, 1, 3, None), Lesser(Ready, 1, 0), OPEN, 0, 0, MAX, None);
    assert SetState(s.threads, 0, Running) == r.threads;
    SettleTwo(Start(s, 0), r);
  }

  // ----- the lock is taken, and time passes

  lemma YieldToLesser()
    ensures var s := World(Urgent(Running, 0, 1, 3, None), Lesser(Ready, 1, 0), OPEN, 0, 0, MAX, None);
            && Shape(s) && Enabled(s, DoYield)
            && Next(s, DoYield) ==
                 World(Urgent(Waiting, 0, 1, 3, None), Lesser(Running, 1, 0), OPEN, 1, 0, MAX, None)
  {
    var s := World(Urgent(Running, 0, 1, 3, None), Lesser(Ready, 1, 0), OPEN, 0, 0, MAX, None);
    var r := World(Urgent(Waiting, 0, 1, 3, None), Lesser(Running, 1, 0), OPEN, 1, 0, MAX, None);
    var y := Yield(s);
    assert y.threads == [r.threads[0], s.threads[1], IDLE, MAIN];
    assert SetState(y.threads, 1, Running) == r.threads;
    SettleTwo(y, r);
  }

  lemma LesserTakes()
    ensures var s := World(Urgent(Waiting, 0, 1, 3, None), Lesser(Running, 1, 0), OPEN, 1, 0, MAX, None);
            && Shape(s) && Enabled(s, DoLock(0))
            && Next(s, DoLock(0)) ==
                 World(Urgent(Waiting, 0, 1, 3, None), Lesser(Running, 1, 0), Taken([]), 1, 0, 0, Some(0))
  {
    assert Locks(OPEN, OPEN)[0 := Taken([])] == Locks(Taken([]), OPEN);
  }

  /** Thread 8 is charged n slots and the next slot is also its own, for thread 7 is not ready. */
  lemma TickWhileAway(a: ThreadState, rem: Word, clock: Word, p: Option<nat>, prio: Word, w: seq<nat>,
                      charged: Word, n: nat)
    requires a == Waiting || a == Blocked
    requires clock > 0 && n < 99 && Below(w, 2) && (p.Some? ==> p.value < 2) && prio <= 1
    ensures var s := World(Urgent(a, charged, rem, clock, p), Lesser(Running, prio, n), Taken(w), 1, n, 0, Some(0));
            && Shape(s) && Enabled(s, DoTick)
            && Next(s, DoTick) ==
                 World(if clock == 1 then Urgent(Ready, charged, 1, 4, p) else Urgent(a, charged, rem, clock - 1, p),
                       Lesser(Running, prio, n + 1), Taken(w), 1, n + 1, 0, Some(0))
  {
    var s := World(Urgent(a, charged, rem, clock, p), Lesser(Running, prio, n), Taken(w), 1, n, 0, Some(0));
    var x := if clock == 1 then Urgent(Ready, charged, 1, 4, p) else Urgent(a, charged, rem, clock - 1, p);
    var r := World(x, Lesser(Running, prio, n + 1), Taken(w), 1, n + 1, 0, Some(0));
    WorldShape(s.threads[0], s.threads[1], Taken(w), 1, n, 0, Some(0));
    hide Shape;
    var c := [s.threads[0], Charged(s.threads[1], false), IDLE, MAIN];
    assert c == s.threads[1 := c[1]];
    assert SetState([Advanced(c[0]), Advanced(c[1])] + c[2..], 1, Running) == r.threads;
    TickTwo(s, c, r);
  }

  /** A tick that finds thread 7 ready gives it the slot. */
  lemma TickGivesUrgent(p: Option<nat>, prio: Word, w: seq<nat>, n: nat)
    requires n < 99 && Below(w, 2) && (p.Some? ==> p.value < 2) && prio <= 1
    ensures var s := World(Urgent(Ready, 0, 1, 4, p), Lesser(Running, prio, n), Taken(w), 1, n, 0, Some(0));
            && Shape(s) && Enabled(s, DoTick)
            && Next(s, DoTick) ==
                 World(Urgent(Running, 0, 1, 3, p), Lesser(Ready, prio, n + 1), Taken(w), 0, n + 1, 0, Some(0))
  {
    var s := World(Urgent(Ready, 0, 1, 4, p), Lesser(Running, prio, n), Taken(w), 1, n, 0, Some(0));
    var r := World(Urgent(Running, 0, 1, 3, p), Lesser(Ready, prio, n + 1), Taken(w), 0, n + 1, 0, Some(0));
    var c := [s.threads[0], Charged(s.threads[1], false), IDLE, MAIN];
    assert c == s.threads[1 := c[1]];
    assert SetState([Advanced(c[0]), Advanced(c[1])] + c[2..], 0, Running) == r.threads;
    TickTwo(s, c, r);
  }

  /** Thread 7 has just been given its second period's slot; thread 8 holds lock 0. */
  function Contention(): KState {
    World(Urgent(Running, 0, 1, 3, None), Lesser(Ready, 1, 4), Taken([]), 0, 4, 0, Some(0))
  }

  function Definitions(): seq<Action> {
    [DoDefine(8, false, 100, 1000), DoDefine(7, false, 1, 4), DoLockInit(7), DoLockInit(7)]
  }

  function Handover(): seq<Action> { [DoStart(0), DoYield, DoLock(0)] }

  function Opening(): seq<Action> { Definitions() + Handover() + [DoTick, DoTick, DoTick, DoTick] }

  lemma DefinitionsLead()
    ensures Leads(Fresh(2), Definitions(), BothDefined(2))
  {
    hide Fresh, OneDefined, BothDefined, Next, Enabled;
    var s := Fresh(2);
    FreshIsInitial(2);
    DefineLesser();
    var a: seq<Action> := [];
    Then(s, a, s, DoDefine(8, false, 100, 1000), OneDefined());
    DefineUrgent();
    var b := a + [DoDefine(8, false, 100, 1000)];
    Then(s, b, OneDefined(), DoDefine(7, false, 1, 4), BothDefined(0));
    InitLocks();
    var c := b + [DoDefine(7, false, 1, 4)];
    Then(s, c, BothDefined(0), DoLockInit(7), BothDefined(1));
    Then(s, c + [DoLockInit(7)], BothDefined(1), DoLockInit(7), BothDefined(2));
    assert c + [DoLockInit(7)] + [DoLockInit(7)] == Definitions();
  }

  lemma HandoverLeads()
    ensures Leads(Fresh(2), Definitions() + Handover(),
                  World(Urgent(Waiting, 0, 1, 3, None), Lesser(Running, 1, 0), Taken([]), 1, 0, 0, Some(0)))
  {
    hide Fresh, BothDefined, World, Next, Enabled, Definitions;
    var s, d := Fresh(2), Definitions();
    DefinitionsLead();
    StartBoth();
    var u := World(Urgent(Running, 0, 1, 3, None), Lesser(Ready, 1, 0), OPEN, 0, 0, MAX, None);
    Then(s, d, BothDefined(2), DoStart(0), u);
    YieldToLesser();
    var v := World(Urgent(Waiting, 0, 1, 3, None), Lesser(Running, 1, 0), OPEN, 1, 0, MAX, None);
    Then(s, d + [DoStart(0)], u, DoYield, v);
    LesserTakes();
    var w := World(Urgent(Waiting, 0, 1, 3, None), Lesser(Running, 1, 0), Taken([]), 1, 0, 0, Some(0));
    Then(s, d + [DoStart(0)] + [DoYield], v, DoLock(0), w);
    assert d + [DoStart(0)] + [DoYield] + [DoLock(0)] == d + Handover();
  }

  /** The opening is a legal run of a fresh system. */
  lemma OpeningLeads()
    ensures Initial(Fresh(2)) && Leads(Fresh(2), Opening(), Contention())
  {
    FreshIsInitial(2);
    HandoverLeads();
    WaitOut(Fresh(2), Definitions() + Handover());
  }

  lemma WaitOut(s: KState, acts: seq<Action>)
    requires Leads(s, acts, World(Urgent(Waiting, 0, 1, 3, None), Lesser(Running, 1, 0), Taken([]), 1, 0, 0, Some(0)))
    ensures Leads(s, acts + [DoTick, DoTick, DoTick, DoTick], Contention())
  {
    hide Next, Enabled;
    var w0 := World(Urgent(Waiting, 0, 1, 3, None), Lesser(Running, 1, 0), Taken([]), 1, 0, 0, Some(0));
    var w1 := World(Urgent(Waiting, 0, 1, 2, None), Lesser(Running, 1, 1), Taken([]), 1, 1, 0, Some(0));
    var w2 := World(Urgent(Waiting, 0, 1, 1, None), Lesser(Running, 1, 2), Taken([]), 1, 2, 0, Some(0));
    var w3 := World(Urgent(Ready, 0, 1, 4, None), Lesser(Running, 1, 3), Taken([]), 1, 3, 0, Some(0));
    TickWhileAway(Waiting, 1, 3, None, 1, [], 0, 0);
    Then(s, acts, w0, DoTick, w1);
    TickWhileAway(Waiting, 1, 2, None, 1, [], 0, 1);
    Then(s, acts + [DoTick], w1, DoTick, w2);
    TickWhileAway(Waiting, 1, 1, None, 1, [], 0, 2);
    Then(s, acts + [DoTick] + [DoTick], w2, DoTick, w3);
    TickGivesUrgent(None, 1, [], 3);
    Then(s, acts + [DoTick] + [DoTick] + [DoTick], w3, DoTick, Contention());
    assert acts + [DoTick] + [DoTick] + [DoTick] + [DoTick] == acts + [DoTick, DoTick, DoTick, DoTick];
  }
}
