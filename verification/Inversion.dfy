/** A thread stopped only by the ceiling passes its priority to nobody: a legal run of three threads in which
    this lets a thread of middle priority, which uses no lock, run instead of the holder. */
module Inversion {
  import opened Words
  import opened KernelState
  import opened Scheduling
  import opened Ceilings
  import opened Priorities
  import opened LockInvariant
  import opened LockSteps
  import opened Runs
  import opened Scenes
  import opened ThreeThreads

  // ----- in general

  /** The thread that stands in the way of a refused request. */
  function Obstacle(s: KState, m: nat): Option<nat>
    requires Shape(s) && m < s.defined && (Locked(s.locks[m]) || s.top.Some?)
  {
    s.locks[JoinedQueue(s, m)].locker
  }

  /** The priority it has after the refusal. */
  function Urgency(s: KState, m: nat, p: nat): Word
    requires Shape(s) && s.active < s.n && m < s.defined && p < s.n
  {
    if Locked(s.locks[m]) then Min(s.threads[p].dynPrio, s.threads[s.active].dynPrio) else s.threads[p].dynPrio
  }

  lemma RefusalState(s: KState, m: nat)
    requires Inv(s) && s.active < s.n && CanBlock(s, m)
    ensures s.top.Some? && Obstacle(s, m).Some? && Obstacle(s, m).value < s.n && Obstacle(s, m) != Some(s.active)
    ensures var b, p := Block(s, m), Obstacle(s, m).value;
            && b.n == s.n && b.numActive == s.numActive != 0 && b.pendsv && !b.preempt
            && b.threads[p].dynPrio == Urgency(s, m, p) < MAX && b.threads[p].state == s.threads[p].state
            && b.threads[s.active].state == Blocked
            && (forall k :: 0 <= k < s.n && k != s.active && k != p ==>
                  b.threads[k].dynPrio == s.threads[k].dynPrio && b.threads[k].state == s.threads[k].state)
  {
    BlockIsRefused(s, m);
    JoinedQueueOk(s, m);
    BlockPends(s, m);
    var b, p := Block(s, m), Obstacle(s, m).value;
    assert OwnedLock(s, JoinedQueue(s, m)) && PriorityOk(s, p);
    assert IsLive(s.threads, s.n, p) && p in LiveSet(s.threads, s.n);
    hide Block;
    RefusedAt(s, m, b, p);
    RefusedAt(s, m, b, s.active);
    forall k | 0 <= k < s.n && k != s.active && k != p
      ensures b.threads[k].dynPrio == s.threads[k].dynPrio && b.threads[k].state == s.threads[k].state
    {
      RefusedAt(s, m, b, k);
    }
  }

  /** After a refusal the holder in the way has its own priority if the requested lock was open, and the more
      urgent of its own and the requester's if it was locked; and it runs next exactly if it is ready and no other
      ready thread comes before it at that priority. */
  lemma HolderRunsNextIff(s: KState, m: nat)
    requires Inv(s) && s.active < s.n && CanBlock(s, m)
    ensures s.top.Some? && Obstacle(s, m).Some? && Obstacle(s, m).value < s.n
    ensures var r, p := Settle(Block(s, m)), Obstacle(s, m).value;
            && r.n == s.n && r.threads[p].dynPrio == Urgency(s, m, p) && r.threads[s.active].state == Blocked
            && (r.active == p <==>
                  && s.threads[p].state == Ready
                  && (forall k :: 0 <= k < p && k != s.active && s.threads[k].state == Ready ==>
                        Urgency(s, m, p) < s.threads[k].dynPrio)
                  && (forall k :: p < k < s.n && k != s.active && s.threads[k].state == Ready ==>
                        Urgency(s, m, p) <= s.threads[k].dynPrio))
  {
    RefusalState(s, m);
    var b, p := Block(s, m), Obstacle(s, m).value;
    hide Block, Inv, CanBlock, Urgency, Obstacle;
    SelectMeaning(b);
    if b.threads[p].state == Ready { assert Candidate(b.threads, p); }
  }

  /** What inheritance is for: after a refusal of a locked lock whose holder is ready, the thread that runs next is
      at least as urgent as the refused one. */
  lemma InheritanceTakesEffect(s: KState, m: nat)
    requires Inv(s) && s.active < s.n && CanBlock(s, m) && Locked(s.locks[m])
    requires Obstacle(s, m).Some? && Obstacle(s, m).value < s.n && s.threads[Obstacle(s, m).value].state == Ready
    ensures var r := Settle(Block(s, m));
            r.active < r.n && r.threads[r.active].dynPrio <= s.threads[s.active].dynPrio
  {
    RefusalState(s, m);
    var b, p := Block(s, m), Obstacle(s, m).value;
    hide Block, Inv, CanBlock, Obstacle;
    SelectMeaning(b);
    assert Candidate(b.threads, p);
  }

  // ----- a run: the states, one for each action after thread 7 has yielded

  function S2(): KState {
    World(Urgent(Waiting, 3, None), Middle(Waiting, 1, 0, 4), Lesser(Running, 2, 0, 999), OPEN, 2, 0, MAX, None)
  }

  /** Thread 8 has taken lock 0, and k slots have passed. */
  function S3(k: nat): KState
    requires k <= 4
  {
    if k < 3 then
      World(Urgent(Waiting, 3 - k, None), Middle(Waiting, 1, 0, 4 - k), Lesser(Running, 2, k, 999 - k), Shut([]),
            2, k, 0, Some(0))
    else if k == 3 then
      World(Urgent(Ready, 4, None), Middle(Waiting, 1, 0, 1), Lesser(Running, 2, 3, 996), Shut([]), 2, 3, 0, Some(0))
    else
      World(Urgent(Running, 3, None), Middle(Ready, 1, 0, 5), Lesser(Ready, 2, 4, 995), Shut([]), 0, 4, 0, Some(0))
  }

  /** Thread 7 was refused the open lock 1, and thread 9 has had k slots since. */
  function S4(k: nat): KState
    requires k <= 1
  {
    World(Urgent(Blocked, 3 - k, Some(1)), Middle(Running, 1, k, 5 - k), Lesser(Ready, 2, 4, 995 - k), Shut([0]),
          1, 4 + k, 0, Some(0))
  }

  lemma MiddleYields()
    ensures Shape(S1()) && Enabled(S1(), DoYield) && Next(S1(), DoYield) == S2()
  {
    var z := Yield(S1());
    assert SetState(z.threads, 2, Running) == S2().threads;
    SettleThree(z, S2());
  }

  lemma LesserTakes()
    ensures Shape(S2()) && Enabled(S2(), DoLock(0)) && Next(S2(), DoLock(0)) == S3(0)
  {
    assert Locks(OPEN, OPEN)[0 := Shut([])] == Locks(Shut([]), OPEN);
  }

  lemma LesserRuns(k: nat)
    requires k < 3
    ensures Shape(S3(k)) && Enabled(S3(k), DoTick) && Next(S3(k), DoTick) == S3(k + 1)
  {
    var s, r := S3(k), S3(k + 1);
    hide Next, Enabled, Shape;
    WorldTick(s.threads[0], s.threads[1], s.threads[2], Shut([]), 2, k, 0, Some(0), 2);
  }

  lemma UrgentRuns()
    ensures Shape(S3(3)) && Enabled(S3(3), DoTick) && Next(S3(3), DoTick) == S3(4)
  {
    var s, r := S3(3), S3(4);
    hide Next, Enabled, Shape;
    WorldTick(s.threads[0], s.threads[1], s.threads[2], Shut([]), 2, 3, 0, Some(0), 0);
  }

  /** The refusal: thread 7 queues behind thread 8, which keeps its priority, and thread 9 is scheduled. */
  lemma UrgentRefused()
    ensures Shape(S3(4)) && Enabled(S3(4), DoLock(1)) && Next(S3(4), DoLock(1)) == S4(0)
  {
    var s, r := S3(4), S4(0);
    WorldShape(s.threads[0], s.threads[1], s.threads[2], Shut([]), 0, 4, 0, Some(0));
    hide Shape;
    var b := Block(s, 1);
    assert b.threads == [Urgent(Blocked, 3, Some(1)), s.threads[1], s.threads[2], IDLE, MAIN];
    ReplaceFirst(Shut([]), OPEN, Shut([0]));
    assert s.locks[0].waiters + [0] == [0];
    assert b.locks == s.locks[0 := Shut([0])];
    assert SetState(b.threads, 1, Running) == r.threads;
    SettleThree(b, r);
  }

  lemma MiddleRuns()
    ensures Shape(S4(0)) && Enabled(S4(0), DoTick) && Next(S4(0), DoTick) == S4(1)
  {
    var s, r := S4(0), S4(1);
    hide Next, Enabled, Shape;
    WorldTick(s.threads[0], s.threads[1], s.threads[2], Shut([0]), 1, 4, 0, Some(0), 1);
  }

  function Opening(): seq<Action> {
    Beginning() + [DoYield] + [DoLock(0)] + [DoTick] + [DoTick] + [DoTick] + [DoTick]
  }

  lemma OpeningLeads()
    ensures Leads(Fresh(3), Opening(), S3(4))
  {
    hide Leads, Fresh, S1, S2, S3, Next, Enabled, Beginning;
    var s := Fresh(3);
    BeginningLeads();
    MiddleYields();
    Then(s, Beginning(), S1(), DoYield, S2());
    LesserTakes();
    var c := Beginning() + [DoYield];
    Then(s, c, S2(), DoLock(0), S3(0));
    var d := c + [DoLock(0)];
    LesserRuns(0);
    Then(s, d, S3(0), DoTick, S3(1));
    LesserRuns(1);
    Then(s, d + [DoTick], S3(1), DoTick, S3(2));
    LesserRuns(2);
    Then(s, d + [DoTick] + [DoTick], S3(2), DoTick, S3(3));
    UrgentRuns();
    Then(s, d + [DoTick] + [DoTick] + [DoTick], S3(3), DoTick, S3(4));
  }

  /** Thread 0, the most urgent, is blocked behind lock 0; its holder, thread 2, has inherited nothing; and
      thread 1, more urgent than the holder only, has the slot. */
  predicate Inverted(r: KState) {
    && Shape(r) && r.n == 3
    && r.threads[0].state == Blocked && 0 in r.locks[0].waiters && r.locks[0].locker == Some(2)
    && r.active == 1 && r.threads[1].pending == None
    && r.threads[0].dynPrio < r.threads[1].dynPrio < r.threads[2].dynPrio == r.threads[2].staticPrio
  }

  lemma BothInverted()
    ensures Inverted(S4(0)) && Inverted(S4(1))
  {
    forall k: nat | k <= 1 ensures Inverted(S4(k)) {
      WorldShape(S4(k).threads[0], S4(k).threads[1], S4(k).threads[2], Shut([0]), 1, 4 + k, 0, Some(0));
      hide Shape;
    }
  }

  /** The request that leads there is for an open lock, and legal. */
  lemma CeilingBlockInheritsNothing()
    ensures Initial(Fresh(3)) && Legal(Fresh(3), Opening() + [DoLock(1)] + [DoTick])
    ensures Legal(Fresh(3), Opening()) && Legal(Fresh(3), Opening() + [DoLock(1)])
    ensures var s := Reach(Fresh(3), Opening());
            s.active == 0 && s.defined == 2 && !Locked(s.locks[1]) && s.locks[1].ceiling <= s.threads[0].staticPrio
    ensures Inverted(Reach(Fresh(3), Opening() + [DoLock(1)]))
    ensures Inverted(Reach(Fresh(3), Opening() + [DoLock(1)] + [DoTick]))
  {
    FreshIsInitial(3);
    BothInverted();
    assert S3(4).active == 0 && S3(4).defined == 2 && S3(4).locks[1] == OPEN && S3(4).threads[0].staticPrio == 0;
    var s := Fresh(3);
    hide Fresh, S3, S4, Next, Enabled, Opening, Inverted, Initial, Leads;
    OpeningLeads();
    UrgentRefused();
    Then(s, Opening(), S3(4), DoLock(1), S4(0));
    MiddleRuns();
    Then(s, Opening() + [DoLock(1)], S4(0), DoTick, S4(1));
    Ends(s, Opening(), S3(4));
    Ends(s, Opening() + [DoLock(1)], S4(0));
    Ends(s, Opening() + [DoLock(1)] + [DoTick], S4(1));
  }
}
