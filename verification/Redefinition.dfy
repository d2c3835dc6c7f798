/** Accepting a definition while locks are in use: a run to a state where it takes back an inherited priority. */
module Redefinition {
  import opened Words
  import opened KernelState
  import opened Ceilings
  import opened Priorities
  import opened Admission
  import opened LockInvariant
  import opened Runs
  import opened RunTheorems
  import opened Scenes
  import opened ThreeThreads

  /** The slot of thread 9 after its end. */
  const GONE := Tcb(9, Defunct, 2, 5, 1, 1, 0, 2, 4, None)

  function Pair(a: Tcb, b: Tcb, l: Mutex, active: nat, slot: Word, ceiling: Word, top: Option<nat>): KState {
    World(a, GONE, b, l, active, slot, ceiling, top)
  }

  function Alone(): KState { Pair(Urgent(Waiting, 3, None), Lesser(Running, 2, 0, 999), OPEN, 2, 0, MAX, None) }

  /** Thread 8 has taken lock 0, and k slots have passed. */
  function Holding(k: nat): KState
    requires k <= 4
  {
    if k < 3 then Pair(Urgent(Waiting, 3 - k, None), Lesser(Running, 2, k, 999 - k), Shut([]), 2, k, 0, Some(0))
    else if k == 3 then Pair(Urgent(Ready, 4, None), Lesser(Running, 2, 3, 996), Shut([]), 2, 3, 0, Some(0))
    else Pair(Urgent(Running, 3, None), Lesser(Ready, 2, 4, 995), Shut([]), 0, 4, 0, Some(0))
  }

  /** Thread 7 waits for the lock, and thread 8 runs with its priority. */
  function Inherited(): KState {
    Pair(Urgent(Blocked, 3, Some(0)), Lesser(Running, 2, 4, 995).(dynPrio := 0), Shut([0]), 2, 4, 0, Some(0))
  }

  lemma MiddleEnds()
    ensures Shape(S1()) && Enabled(S1(), DoEnd) && Next(S1(), DoEnd) == Alone()
  {
    var s, r := S1(), Alone();
    NothingToRelease(s, 0);
    var e := Retire(s);
    assert e.threads == [Urgent(Waiting, 3, None), GONE, Lesser(Ready, 2, 0, 999), IDLE, MAIN];
    assert e == r.(threads := e.threads, active := 1, pendsv := true);
    assert SetState(e.threads, 2, Running) == r.threads;
    SettleThree(e, r);
  }

  lemma LesserTakes()
    ensures Shape(Alone()) && Enabled(Alone(), DoLock(0)) && Next(Alone(), DoLock(0)) == Holding(0)
  {
    ReplaceFirst(OPEN, OPEN, Shut([]));
  }

  lemma LesserRuns(k: nat)
    requires k < 3
    ensures Shape(Holding(k)) && Enabled(Holding(k), DoTick) && Next(Holding(k), DoTick) == Holding(k + 1)
  {
    var s, r := Holding(k), Holding(k + 1);
    hide Next, Enabled, Shape;
    WorldTick(s.threads[0], GONE, s.threads[2], Shut([]), 2, k, 0, Some(0), 2);
  }

  lemma UrgentRuns()
    ensures Shape(Holding(3)) && Enabled(Holding(3), DoTick) && Next(Holding(3), DoTick) == Holding(4)
  {
    var s, r := Holding(3), Holding(4);
    hide Next, Enabled, Shape;
    WorldTick(s.threads[0], GONE, s.threads[2], Shut([]), 2, 3, 0, Some(0), 0);
  }

  lemma UrgentBlocks()
    ensures Shape(Holding(4)) && Enabled(Holding(4), DoLock(0)) && Next(Holding(4), DoLock(0)) == Inherited()
  {
    var s, r := Holding(4), Inherited();
    var b := Block(s, 0);
    assert b.threads == [Urgent(Blocked, 3, Some(0)), GONE, Lesser(Ready, 2, 4, 995).(dynPrio := 0), IDLE, MAIN];
    ReplaceFirst(Shut([]), OPEN, Shut([0]));
    assert s.locks[0].waiters + [0] == [0];
    assert b.locks == s.locks[0 := Shut([0])];
    assert SetState(b.threads, 2, Running) == r.threads;
    SettleThree(b, r);
  }

  function Sharing(): seq<Action> {
    Beginning() + [DoEnd] + [DoLock(0)] + [DoTick] + [DoTick] + [DoTick] + [DoTick] + [DoLock(0)]
  }

  lemma SharingLeads()
    ensures Initial(Fresh(3)) && Leads(Fresh(3), Sharing(), Inherited())
  {
    hide Initial, Leads, Fresh, S1, Alone, Holding, Inherited, Next, Enabled, Beginning;
    var s := Fresh(3);
    BeginningLeads();
    MiddleEnds();
    Then(s, Beginning(), S1(), DoEnd, Alone());
    LesserTakes();
    var c := Beginning() + [DoEnd];
    Then(s, c, Alone(), DoLock(0), Holding(0));
    var d := c + [DoLock(0)];
    LesserRuns(0);
    Then(s, d, Holding(0), DoTick, Holding(1));
    LesserRuns(1);
    Then(s, d + [DoTick], Holding(1), DoTick, Holding(2));
    LesserRuns(2);
    Then(s, d + [DoTick] + [DoTick], Holding(2), DoTick, Holding(3));
    UrgentRuns();
    Then(s, d + [DoTick] + [DoTick] + [DoTick], Holding(3), DoTick, Holding(4));
    UrgentBlocks();
    Then(s, d + [DoTick] + [DoTick] + [DoTick] + [DoTick], Holding(4), DoLock(0), Inherited());
  }

  /** The definition would be accepted, and the waiting thread comes first in the order. */
  ghost predicate Vulnerable(s: KState) {
    && Shape(s) && s.defined > 0 && DefineCode(s, 9, false, 2, 5) == SUCCESS
    && s.locks[0].waiters == [0] && s.locks[0].locker == Some(2) && s.threads[0].pending == Some(0)
    && s.threads[2].dynPrio == s.threads[0].dynPrio < s.threads[2].staticPrio
    && KeyLess(s.threads[0], s.threads[2])
  }

  lemma InheritedVulnerable()
    ensures Vulnerable(Inherited())
  {
    var s := Inherited();
    assert FreeSlot(s.threads, 2) == Some(1);
  }

  /** A legal run to a state in which a definition is accepted by the kernel and takes back the priority that
      thread 8 has inherited. */
  lemma DefinitionDropsInheritance()
    ensures Initial(Fresh(3)) && Legal(Fresh(3), Sharing())
    ensures var s := Reach(Fresh(3), Sharing());
            && Vulnerable(s)
            && var r := Define(s, 9, false, 2, 5);
               !LockInv(r) && r.locks[0] == s.locks[0] && r.threads[0].dynPrio < r.threads[2].dynPrio
  {
    SharingLeads();
    InheritedVulnerable();
    InitialInv(Fresh(3));
    Ends(Fresh(3), Sharing(), Inherited());
    hide Legal, Reach, Initial, Inherited, Define, DefineCode, Fresh, Sharing, Leads;
    RunKeeps(Fresh(3), Sharing());
    DefineInheritanceIff(Inherited(), 9, false, 2, 5, 0, 0);
  }
}
