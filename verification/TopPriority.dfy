/** The most urgent thread gets its slots: tick-only runs from the start of multitasking. */
module TopPriority {
  import opened Words
  import opened Arithmetic
  import opened KernelState
  import opened Scheduling
  import opened Priorities
  import opened Admission
  import opened LockInvariant
  import opened Runs
  import opened Budgets

  /** Thread i has dynamic priority 0 and no other live thread does. */
  ghost predicate Topmost(s: KState, i: nat)
    requires Shape(s)
  {
    && Live(s, i) && s.threads[i].dynPrio == 0
    && forall j :: 0 <= j < s.n && j != i && s.threads[j].state != Defunct ==> s.threads[j].dynPrio > 0
  }

  /** What a tick needs to know: somebody is active, a user thread in the slot is Running, i is topmost. */
  ghost predicate Rolling(s: KState, i: nat) {
    && Shape(s) && s.numActive != 0
    && (s.active < s.n ==> s.threads[s.active].state == Running)
    && Topmost(s, i)
  }

  /** The state after k ticks. */
  function Ticked(s: KState, k: nat): (r: KState)
    requires Shape(s)
    ensures Shape(r) && r.n == s.n
  {
    if k == 0 then s else Tick(Ticked(s, k - 1))
  }

  /** A tick gives the next slot to the topmost thread exactly when it is then Ready. */
  lemma TopTick(s: KState, i: nat)
    requires Rolling(s, i)
    ensures Rolling(Tick(s), i)
    ensures Tick(s).active == i <==> Seen(s, i).state == Ready
    ensures Tick(s).threads[i] ==
              (if Seen(s, i).state == Ready then Advanced(Seen(s, i)).(state := Running) else Advanced(Seen(s, i)))
  {
    TickRolls(s, i);
    SelectMeaning(Charge(s.(preempt := true, pendsv := true)));
    hide Rolling;
    if Seen(s, i).state == Ready { assert Candidate(Charge(s.(preempt := true, pendsv := true)).threads, i); }
  }

  lemma TickRolls(s: KState, i: nat)
    requires Rolling(s, i)
    ensures Rolling(Tick(s), i)
  {
    var p := s.(preempt := true, pendsv := true);
    PendSVSameLocking(p);
    assert forall j :: 0 <= j < s.n ==> SameTcb(s.threads[j], Tick(s).threads[j]);
    SelectMeaning(Charge(p));
  }

  lemma StartSelectsTop(s: KState, freq: Word, i: nat)
    requires Inv(s) && s.active == s.n + 1 && StartCode(s, freq) == SUCCESS
    requires Topmost(s, i) && Fresh(s.threads[i])
    ensures var u := Start(s, freq);
            && Select(u) == i && u.threads == s.threads && u.numActive == s.numActive != 0
            && u.n == s.n && u.active == s.active && u.pendsv && !u.preempt
  {
    ValidateChangesCeilings(s, 0);
    var u := Start(s, freq);
    assert IsLive(s.threads, s.n, i) && i in LiveSet(s.threads, s.n);
    assert Candidate(u.threads, i);
    SelectMeaning(u);
  }

  /** The start of multitasking gives slot 0 to the topmost fresh thread. */
  lemma StartRunsTop(s: KState, freq: Word, i: nat)
    requires Inv(s) && s.active == s.n + 1 && StartCode(s, freq) == SUCCESS
    requires Topmost(s, i) && Fresh(s.threads[i])
    ensures var r := Next(s, DoStart(freq));
            && Rolling(r, i) && r.active == i
            && r.threads[i] == s.threads[i].(state := Running)
  {
    StartSelectsTop(s, freq, i);
    hide Start, StartCode, Select, Inv;
    var u := Start(s, freq);
    assert Next(s, DoStart(freq)) == PendSV(u);
    assert PendSV(u).threads == SetState(s.threads, i, Running);
  }

  // ----- budget below the period

  /** The control block r slots into a period, when c < t: it runs for its first c slots, then waits, and
      its next period is released one slot early. */
  predicate Phase(th: Tcb, active: bool, c: int, t: int, r: int) {
    && th.c == c && th.t == t
    && th.untilRelease == (if r == t - 1 then t else t - 1 - r)
    && (active <==> r < c)
    && (r < c ==> th.state == Running && th.remaining == c - r)
    && (c <= r < t - 1 ==> th.state == Waiting && th.remaining == 0)
    && (c <= r == t - 1 ==> th.state == Ready && th.remaining == c)
  }

  lemma PhaseStep(s: KState, i: nat, c: int, t: int, r: int)
    requires Rolling(s, i) && 1 <= c < t && 0 <= r < t && Phase(s.threads[i], s.active == i, c, t, r)
    ensures Rolling(Tick(s), i)
    ensures Phase(Tick(s).threads[i], Tick(s).active == i, c, t, if r == t - 1 then 0 else r + 1)
  {
    TopTick(s, i);
  }

  lemma {:induction false} PhaseAt(s: KState, i: nat, k: nat)
    requires Rolling(s, i) && 1 <= s.threads[i].c < s.threads[i].t
    requires Phase(s.threads[i], s.active == i, s.threads[i].c, s.threads[i].t, 0)
    ensures var u := Ticked(s, k);
            && Rolling(u, i)
            && Phase(u.threads[i], u.active == i, s.threads[i].c, s.threads[i].t, k % s.threads[i].t)
  {
    hide Tick;
    var t: int := s.threads[i].t;
    if k == 0 {
      DivSmall(0, t);
    } else {
      PhaseAt(s, i, k - 1);
      DivStep(k - 1, t);
      PhaseStep(Ticked(s, k - 1), i, s.threads[i].c, t, (k - 1) % t);
    }
  }

  // ----- budget equal to the period

  /** The control block of an always-ready thread j slots after a release that found it running. */
  predicate Saturated(th: Tcb, active: bool, t: int, left: int, clock: int) {
    && th.c == t && th.t == t && active && th.state == Running && th.remaining == left && th.untilRelease == clock
  }

  lemma SaturatedStep(u: KState, i: nat, t: int, left: int, clock: int)
    requires Rolling(u, i) && Saturated(u.threads[i], u.active == i, t, left, clock)
    requires 1 < left <= t && 1 < clock
    ensures Rolling(Tick(u), i) && Saturated(Tick(u).threads[i], Tick(u).active == i, t, left - 1, clock - 1)
  {
    TopTick(u, i);
  }

  /** It keeps every slot while it has both work left and time to its release. */
  lemma {:induction false} SaturatedAt(s: KState, i: nat, t: int, left: int, clock: int, k: nat)
    requires Rolling(s, i) && Saturated(s.threads[i], s.active == i, t, left, clock)
    requires k < left <= t && k < clock
    ensures var u := Ticked(s, k);
            Rolling(u, i) && Saturated(u.threads[i], u.active == i, t, left - k, clock - k)
  {
    hide Tick;
    if k == 0 {
    } else {
      SaturatedAt(s, i, t, left, clock, k - 1);
      SaturatedStep(Ticked(s, k - 1), i, t, left - k + 1, clock - k + 1);
    }
  }

  /** A release that finds it running with one slot left renews its budget without a pause. */
  lemma SaturatedRelease(u: KState, i: nat, t: int, left: int)
    requires Rolling(u, i) && Saturated(u.threads[i], u.active == i, t, left, 1) && left > 1
    ensures Rolling(Tick(u), i) && Saturated(Tick(u).threads[i], Tick(u).active == i, t, t, t)
  {
    TopTick(u, i);
  }

  /** A tick that finds no work left takes the slot away. */
  lemma SaturatedDry(u: KState, i: nat)
    requires Rolling(u, i) && u.active == i && u.threads[i].remaining == 1
    ensures Tick(u).active != i
  {
    TopTick(u, i);
  }

  lemma {:induction false} TickedSplit(s: KState, j: nat, k: nat)
    requires Shape(s)
    ensures Ticked(Ticked(s, j), k) == Ticked(s, j + k)
  {
    hide Tick;
    if k == 0 {
    } else {
      TickedSplit(s, j, k - 1);
    }
  }

  /** With c == t the thread runs through its first release and has nothing left at the second: slot 2t-1
      goes to somebody else. */
  lemma SaturatedMisses(s: KState, i: nat)
    requires Rolling(s, i) && s.threads[i].t >= 1
    requires Saturated(s.threads[i], s.active == i, s.threads[i].t, s.threads[i].t, s.threads[i].t - 1)
    ensures Ticked(s, 2 * s.threads[i].t - 1).active != i
  {
    hide Tick;
    var t: int := s.threads[i].t;
    if t == 1 {
      SaturatedDry(s, i);
      assert Ticked(s, 1) == Tick(Ticked(s, 0));
    } else {
      SaturatedRenewed(s, i, t);
      SaturatedEnds(Ticked(s, t - 1), i, t);
      TickedSplit(s, t - 1, t);
    }
  }

  lemma SaturatedRenewed(s: KState, i: nat, t: int)
    requires t >= 2 && Rolling(s, i) && Saturated(s.threads[i], s.active == i, t, t, t - 1)
    ensures var v := Ticked(s, t - 1); Rolling(v, i) && Saturated(v.threads[i], v.active == i, t, t, t)
  {
    hide Tick;
    SaturatedAt(s, i, t, t, t - 1, t - 2);
    SaturatedRelease(Ticked(s, t - 2), i, t, 2);
  }

  lemma SaturatedEnds(v: KState, i: nat, t: int)
    requires t >= 2 && Rolling(v, i) && Saturated(v.threads[i], v.active == i, t, t, t)
    ensures Ticked(v, t).active != i
  {
    hide Tick;
    SaturatedAt(v, i, t, t, t, t - 1);
    SaturatedDry(Ticked(v, t - 1), i);
  }

  /** From the start of multitasking, with ticks only, the topmost thread holds slot k exactly when
      k mod t < c, for all k, if and only if its budget is smaller than its period. */
  lemma TopThreadServed(s: KState, freq: Word, i: nat)
    requires Inv(s) && s.active == s.n + 1 && StartCode(s, freq) == SUCCESS
    requires Topmost(s, i) && Fresh(s.threads[i])
    ensures var c: int, t: int := s.threads[i].c, s.threads[i].t; var r := Next(s, DoStart(freq));
            (forall k: nat :: Ticked(r, k).active == i <==> k % t < c) <==> c < t
  {
    StartRunsTop(s, freq, i);
    FreshTopServed(Next(s, DoStart(freq)), i, s.threads[i].c, s.threads[i].t);
  }

  lemma FreshTopServed(r: KState, i: nat, c: int, t: int)
    requires Rolling(r, i) && r.active == i && r.threads[i].state == Running
    requires 1 <= c <= t && r.threads[i].c == c == r.threads[i].remaining
    requires r.threads[i].t == t && r.threads[i].untilRelease == t - 1
    ensures (forall k: nat :: Ticked(r, k).active == i <==> k % t < c) <==> c < t
  {
    hide Tick;
    if c < t {
      forall k: nat ensures Ticked(r, k).active == i <==> k % t < c { PhaseAt(r, i, k); }
    } else {
      SaturatedMisses(r, i);
      DivUnique(2 * t - 1, t, 1, t - 1);
    }
  }

  /** After an accepted definition the thread ranked first is topmost. */
  lemma DefineRanksTop(s: KState, id: Word, noFn: bool, c: Word, t: Word, i: nat)
    requires Inv(s) && !(id == MAX && t == MAX) && DefineCode(s, id, noFn, c, t) == SUCCESS
    requires Live(Define(s, id, noFn, c, t), i) && Define(s, id, noFn, c, t).threads[i].staticPrio == 0
    ensures Topmost(Define(s, id, noFn, c, t), i)
  {
    var slot := FreeSlot(s.threads, s.n).value;
    InsertKeeps(s, slot, id, c, t);
    var u := Inserted(s, slot, id, c, t);
    OrderIsBijection(u.threads, s.n);
    var r := Define(s, id, noFn, c, t);
    assert r.threads == Order(u.threads, s.n);
    hide Define;
    forall j | 0 <= j < s.n && r.threads[j].state != Defunct ensures IsLive(u.threads, s.n, j) {
      assert r.threads[j] == Ranked(u.threads, s.n, j);
    }
  }
}
