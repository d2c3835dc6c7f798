/** What releasing a blocked thread can lead to: three legal runs of two threads and one lock. */
module Overflow {
  import opened Words
  import opened KernelState
  import opened Scheduling
  import opened Ceilings
  import opened Runs
  import opened WaitLists
  import opened Scenes
  import opened TwoThreads

  function Zeros(k: nat): seq<nat> { seq(k, _ => 0) }

  /** Thread 7 is blocked, entered k times in the wait list of lock 0; n slots have passed. */
  function Parked(k: nat, clock: Word, n: nat): KState
    requires n <= 100
  {
    World(Urgent(Blocked, 0, 1, clock, Some(0)), Lesser(Running, 0, n), Taken(Zeros(k)), 1, n, 0, Some(0))
  }

  /** It has been released, and scheduled to ask again. */
  function Resumed(k: nat, n: nat): KState
    requires n <= 100
  {
    World(Urgent(Running, 0, 1, 3, Some(0)), Lesser(Ready, 0, n), Taken(Zeros(k)), 0, n, 0, Some(0))
  }

  function Four(): seq<Action> { [DoTick, DoTick, DoTick, DoTick] }

  /** A request of thread 7 for lock 0 while thread 8 holds it. */
  lemma UrgentRefused(p: Option<nat>, prio: Word, k: nat, n: nat)
    requires n <= 100 && prio <= 1 && (p.Some? ==> p.value < 2)
    ensures var s := World(Urgent(Running, 0, 1, 3, p), Lesser(Ready, prio, n), Taken(Zeros(k)), 0, n, 0, Some(0));
            && Shape(s) && !Admits(s) && (Overruns(s, 0) <==> k >= MAX_NUM_THREADS)
            && Settle(Attempt(s, 0)) == Parked(k + 1, 3, n)
  {
    var s := World(Urgent(Running, 0, 1, 3, p), Lesser(Ready, prio, n), Taken(Zeros(k)), 0, n, 0, Some(0));
    var r := Parked(k + 1, 3, n);
    assert Zeros(k + 1) == Zeros(k) + [0];
    var b := Attempt(s, 0);
    assert b.threads == [Urgent(Blocked, 0, 1, 3, Some(0)), Lesser(Ready, 0, n), IDLE, MAIN];
    assert b.locks == Locks(Taken(Zeros(k + 1)), OPEN);
    assert SetState(b.threads, 1, Running) == r.threads;
    SettleTwo(b, r);
  }

  lemma FirstBlock()
    ensures Leads(Fresh(2), Opening() + [DoLock(0)], Parked(1, 3, 4))
  {
    OpeningLeads();
    ContentionRefused();
    hide Leads, World, Contention, Parked, Next, Enabled, Opening;
    Then(Fresh(2), Opening(), Contention(), DoLock(0), Parked(1, 3, 4));
  }

  lemma ContentionRefused()
    ensures Shape(Contention()) && Enabled(Contention(), DoLock(0))
    ensures Next(Contention(), DoLock(0)) == Parked(1, 3, 4)
  {
    UrgentRefused(None, 1, 0, 4);
    assert Zeros(0) == [];
  }

  lemma ResumedRefused(k: nat, n: nat)
    requires n <= 100
    ensures Shape(Resumed(k, n)) && Permitted(Resumed(k, n), DoRetry)
    ensures Overflows(Resumed(k, n), DoRetry) <==> k >= MAX_NUM_THREADS
    ensures Next(Resumed(k, n), DoRetry) == Parked(k + 1, 3, n)
  {
    UrgentRefused(Some(0), 0, k, n);
  }

  /** Four ticks later thread 7 has been released and runs, still in the queue. */
  lemma FourTicks(s: KState, acts: seq<Action>, k: nat, n: nat)
    requires n < 95 && Leads(s, acts, Parked(k, 3, n))
    ensures Leads(s, acts + Four(), Resumed(k, n + 4))
  {
    hide World, Next, Enabled, Leads;
    var back := World(Urgent(Ready, 0, 1, 4, Some(0)), Lesser(Running, 0, n + 3), Taken(Zeros(k)), 1, n + 3, 0, Some(0));
    TickWhileAway(Blocked, 1, 3, Some(0), 0, Zeros(k), 0, n);
    Then(s, acts, Parked(k, 3, n), DoTick, Parked(k, 2, n + 1));
    TickWhileAway(Blocked, 1, 2, Some(0), 0, Zeros(k), 0, n + 1);
    Then(s, acts + [DoTick], Parked(k, 2, n + 1), DoTick, Parked(k, 1, n + 2));
    TickWhileAway(Blocked, 1, 1, Some(0), 0, Zeros(k), 0, n + 2);
    Then(s, acts + [DoTick] + [DoTick], Parked(k, 1, n + 2), DoTick, back);
    TickGivesUrgent(Some(0), 0, Zeros(k), n + 3);
    Then(s, acts + [DoTick] + [DoTick] + [DoTick], back, DoTick, Resumed(k, n + 4));
    assert acts + [DoTick] + [DoTick] + [DoTick] + [DoTick] == acts + Four();
  }

  /** A round: released, scheduled, refused and queued once more. */
  lemma OneRound(s: KState, acts: seq<Action>, k: nat, n: nat)
    requires n < 95 && k < MAX_NUM_THREADS && Leads(s, acts, Parked(k, 3, n))
    ensures Leads(s, acts + (Four() + [DoRetry]), Parked(k + 1, 3, n + 4))
  {
    FourTicks(s, acts, k, n);
    ResumedRefused(k, n + 4);
    hide Leads, Parked, Resumed, Permitted, Overflows, Next;
    Then(s, acts + Four(), Resumed(k, n + 4), DoRetry, Parked(k + 1, 3, n + 4));
    assert acts + Four() + [DoRetry] == acts + (Four() + [DoRetry]);
  }

  function Rounds(k: nat): seq<Action> {
    if k == 0 then [] else Rounds(k - 1) + (Four() + [DoRetry])
  }

  lemma {:induction false} RoundsLead(s: KState, acts: seq<Action>, k: nat)
    requires k < MAX_NUM_THREADS && Leads(s, acts, Parked(1, 3, 4))
    ensures Leads(s, acts + Rounds(k), Parked(k + 1, 3, 4 * k + 4))
  {
    hide Leads, Parked, Four;
    if k == 0 {
      assert acts + Rounds(0) == acts;
    } else {
      RoundsLead(s, acts, k - 1);
      OneRound(s, acts + Rounds(k - 1), k, 4 * k);
      assert (acts + Rounds(k - 1)) + (Four() + [DoRetry]) == acts + Rounds(k);
    }
  }

  function Filling(): seq<Action> { Opening() + [DoLock(0)] + Rounds(13) + Four() }

  lemma FillingLeads()
    ensures Leads(Fresh(2), Filling(), Resumed(14, 60))
  {
    hide Leads, Opening, Rounds, Four, Fresh, Resumed, Parked;
    FirstBlock();
    RoundsLead(Fresh(2), Opening() + [DoLock(0)], 13);
    FourTicks(Fresh(2), Opening() + [DoLock(0)] + Rounds(13), 14, 56);
  }

  /** The list is full, and what follows overflows it. */
  ghost predicate AboutToOverflow(r: KState) {
    && Shape(r) && Fits(r) && |r.locks[0].waiters| == MAX_NUM_THREADS
    && Permitted(r, DoRetry) && Overflows(r, DoRetry) && |Next(r, DoRetry).locks[0].waiters| > MAX_NUM_THREADS
  }

  lemma FullOverflows()
    ensures AboutToOverflow(Resumed(14, 60))
  {
    ResumedRefused(14, 60);
  }

  /** A legal run from a fresh system after which the wait list of lock 0 is full, with thread 7 in all its
      places, and the next thing thread 7 does overflows it. */
  lemma WaitListOverflows()
    ensures Initial(Fresh(2)) && Legal(Fresh(2), Filling()) && AboutToOverflow(Reach(Fresh(2), Filling()))
  {
    FreshIsInitial(2);
    FillingLeads();
    FullOverflows();
    hide *;
    Ends(Fresh(2), Filling(), Resumed(14, 60));
  }

  function Broken(): seq<Action> { Opening() + [DoLock(0)] + [DoTick] + [DoTick] }

  lemma BrokenLeads()
    ensures Leads(Fresh(2), Broken(), Parked(1, 1, 6))
    ensures Leads(Fresh(2), Broken() + [DoTick], Next(Parked(1, 1, 6), DoTick))
  {
    hide Leads, World, Next, Enabled, Fresh, Opening;
    FirstBlock();
    var s, acts := Fresh(2), Opening() + [DoLock(0)];
    TickWhileAway(Blocked, 1, 3, Some(0), 0, Zeros(1), 0, 4);
    Then(s, acts, Parked(1, 3, 4), DoTick, Parked(1, 2, 5));
    TickWhileAway(Blocked, 1, 2, Some(0), 0, Zeros(1), 0, 5);
    Then(s, acts + [DoTick], Parked(1, 2, 5), DoTick, Parked(1, 1, 6));
    TickWhileAway(Blocked, 1, 1, Some(0), 0, Zeros(1), 0, 6);
    Then(s, Broken(), Parked(1, 1, 6), DoTick, Next(Parked(1, 1, 6), DoTick));
  }

  lemma ParkedOnce(clock: Word, n: nat)
    requires n <= 100
    ensures Shape(Parked(1, clock, n)) && Orderly(Parked(1, clock, n))
    ensures ReleasesBlocked(Parked(1, clock, n)) <==> clock == 1
  {
    var r := Parked(1, clock, n);
    assert Zeros(1) == [0];
    assert forall x, j :: Place(r, x, j) ==> x == 0 && j == 0;
    assert r.threads[0].state == Blocked;
  }

  /** A legal run whose wait lists are well formed until a tick releases the blocked thread. */
  lemma WaitListBreaks()
    ensures Initial(Fresh(2)) && Legal(Fresh(2), Broken() + [DoTick])
    ensures var r := Reach(Fresh(2), Broken());
            Inv(r) && Orderly(r) && ReleasesBlocked(r) && !Orderly(Tick(r))
  {
    FreshIsInitial(2);
    BrokenLeads();
    ParkedOnce(1, 6);
    InitialInv(Fresh(2));
    hide Initial, Legal, Reach, Fresh, Parked, Inv, Orderly, ReleasesBlocked, Next, Tick, Broken;
    RunKeeps(Fresh(2), Broken());
    TickOrderlyIff(Parked(1, 1, 6));
  }

  // ----- a budget that is used up in a queue

  function Dried(): seq<Action> { Opening() + [DoLock(0)] + Four() + [DoTick] + [DoUnlock(0)] + [DoTick] }

  /** Thread 8 after 8 slots of its own, when n have passed. */
  function Delayed(state: ThreadState, prio: Word, n: nat): Tcb
    requires n <= 100
  {
    Lesser(state, prio, 8).(untilRelease := 999 - n)
  }

  function AfterDryTick(): KState {
    World(Urgent(Waiting, 1, 0, 2, Some(0)), Delayed(Running, 0, 9), Taken(Zeros(1)), 1, 9, 0, Some(0))
  }

  function AfterUnlock(): KState {
    World(Urgent(Running, 1, 0, 2, Some(0)), Delayed(Ready, 1, 9), OPEN, 0, 9, MAX, None)
  }

  function AfterLastTick(): KState {
    World(Urgent(Running, 2, MAX, 1, Some(0)), Delayed(Ready, 1, 10), OPEN, 0, 10, MAX, None)
  }

  /** The tick comes before thread 7 can ask again. */
  lemma DryTick()
    ensures Shape(Resumed(1, 8)) && Enabled(Resumed(1, 8), DoTick) && Next(Resumed(1, 8), DoTick) == AfterDryTick()
  {
    var s, r := Resumed(1, 8), AfterDryTick();
    var c := [Charged(s.threads[0], false), s.threads[1], IDLE, MAIN];
    assert c == s.threads[0 := c[0]];
    assert SetState([Advanced(c[0]), Advanced(c[1])] + c[2..], 1, Running) == r.threads;
    TickTwo(s, c, r);
  }

  lemma LateRelease()
    ensures Shape(AfterDryTick()) && AfterDryTick().defined > 0
    ensures Release(AfterDryTick(), 0) ==
              AfterDryTick().(threads := [Urgent(Ready, 1, 0, 2, Some(0)), Delayed(Running, 0, 9), IDLE, MAIN],
                              locks := Locks(OPEN, OPEN))
  {
    var s := AfterDryTick();
    assert Zeros(1) == [0];
    assert Shape(s);
    assert s.locks[0] == Taken([0]) && Opened(Taken([0])) == OPEN;
    hide Zeros, Locks, Wake, Release, Shape, Opened;
    ReplaceFirst(Taken([0]), OPEN, OPEN);
    WakeFirst(s.threads[0], s.threads[1]);
    ReleaseParts(s);
  }

  lemma ReleaseParts(s: KState)
    requires Shape(s) && s.defined > 0
    ensures Release(s, 0) ==
              s.(threads := Wake(s.threads, s.locks[0].waiters), locks := s.locks[0 := Opened(s.locks[0])])
  {
  }

  lemma WakeFirst(a: Tcb, b: Tcb)
    ensures Wake([a, b, IDLE, MAIN], [0]) == [a.(state := Ready), b, IDLE, MAIN]
  {
  }

  /** The unlock readies it with no budget left. */
  lemma LateUnlock()
    ensures Shape(AfterDryTick()) && Enabled(AfterDryTick(), DoUnlock(0))
    ensures Next(AfterDryTick(), DoUnlock(0)) == AfterUnlock()
  {
    LateRelease();
    hide Release;
    var s, r := AfterDryTick(), AfterUnlock();
    var u := Release(s, 0);
    assert MinCeiling(u.locks, 1) == MAX && MinCeilingLock(u.locks, 1) == None;
    assert Inherited(u.threads, u.locks, 1, 1) == 1;
    var v := Recompute(u);
    assert v.threads == [Urgent(Ready, 1, 0, 2, Some(0)), Delayed(Ready, 1, 9), IDLE, MAIN];
    assert SetState(v.threads, 0, Running) == r.threads;
    SettleTwo(v, r);
  }

  /** It is charged one slot more than it had. */
  lemma Overcharge()
    ensures Shape(AfterUnlock()) && Enabled(AfterUnlock(), DoTick) && Next(AfterUnlock(), DoTick) == AfterLastTick()
  {
    var s, r := AfterUnlock(), AfterLastTick();
    var c := [Charged(s.threads[0], false), s.threads[1], IDLE, MAIN];
    assert c == s.threads[0 := c[0]];
    assert SetState([Advanced(c[0]), Advanced(c[1])] + c[2..], 0, Running) == r.threads;
    TickTwo(s, c, r);
  }

  lemma DriedLeads()
    ensures Leads(Fresh(2), Dried(), AfterLastTick())
  {
    hide Leads, Next, Enabled, World, Opening, Fresh, AfterDryTick, AfterUnlock, AfterLastTick, Resumed, Four;
    FirstBlock();
    var s, acts := Fresh(2), Opening() + [DoLock(0)];
    FourTicks(s, acts, 1, 4);
    DryTick();
    Then(s, acts + Four(), Resumed(1, 8), DoTick, AfterDryTick());
    LateUnlock();
    Then(s, acts + Four() + [DoTick], AfterDryTick(), DoUnlock(0), AfterUnlock());
    Overcharge();
    Then(s, acts + Four() + [DoTick] + [DoUnlock(0)], AfterUnlock(), DoTick, AfterLastTick());
  }

  /** Thread 0 has more work left than its budget, after two slots in a period that allows one. */
  predicate Overcharged(r: KState) {
    Shape(r) && Live(r, 0) && r.threads[0].remaining > r.threads[0].c == 1 && r.threads[0].activeTime == 2
  }

  /** A legal run in which a budget is used up in a queue, which breaks the budget. */
  lemma BudgetBreaks()
    ensures Initial(Fresh(2)) && Legal(Fresh(2), Dried()) && Overcharged(Reach(Fresh(2), Dried()))
  {
    FreshIsInitial(2);
    DriedLeads();
    assert Overcharged(AfterLastTick());
    hide *;
    Ends(Fresh(2), Dried(), AfterLastTick());
  }
}
