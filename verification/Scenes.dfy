/** Concrete runs: building blocks for the states a small thread set goes through. */
module Scenes {
  import opened Words
  import opened KernelState
  import opened Scheduling
  import opened Priorities
  import opened Admission
  import opened Runs

  /** The actions are all possible, one after the other, and end in r. */
  ghost predicate Leads(s: KState, acts: seq<Action>, r: KState) {
    Shape(s) && Legal(s, acts) && Reach(s, acts) == r
  }

  lemma Then(s: KState, acts: seq<Action>, u: KState, act: Action, r: KState)
    requires Leads(s, acts, u) && Shape(u) && Enabled(u, act) && Next(u, act) == r
    ensures Leads(s, acts + [act], r)
  {
    var all := acts + [act];
    assert all[..|all|-1] == acts;
  }

  lemma Ends(s: KState, acts: seq<Action>, r: KState)
    requires Leads(s, acts, r)
    ensures Shape(s) && Legal(s, acts) && Reach(s, acts) == r
  {
  }

  // ----- small thread tables

  const BLANK := Tcb(0, Defunct, 0, 0, MAX, MAX, 0, 0, 0, None)
  const IDLE := Tcb(MAX, Ready, 1, 1, MAX, MAX, 0, 1, 0, None)
  const MAIN := Tcb(0, Running, 0, 0, MAX, MAX, 0, 1, 0, None)
  const UNUSED := Mutex(0, None, [], 0, 0)
  const NEW := Mutex(1, None, [], MAX, 7)

  /** The lock table, with its first two locks. */
  function Locks(l: Mutex, m: Mutex): (r: seq<Mutex>)
    ensures |r| == MAX_USER_LOCKS && r[0] == l && r[1] == m
    ensures forall x :: 2 <= x < |r| ==> r[x] == UNUSED
  {
    [l, m] + seq(MAX_USER_LOCKS - 2, _ => UNUSED)
  }

  lemma ReplaceFirst(l: Mutex, m: Mutex, l': Mutex)
    ensures Locks(l, m)[0 := l'] == Locks(l', m)
  {
  }

  /** Before any definition: n free slots, main running. */
  function Fresh(n: nat): KState {
    KState(n, seq(n, _ => BLANK) + [IDLE, MAIN], Locks(UNUSED, UNUSED), 2, 0, 0, n + 1, 0, 0.0, MAX, None,
           false, false, false)
  }

  lemma FreshIsInitial(n: nat)
    requires 1 <= n <= MAX_NUM_THREADS
    ensures Initial(Fresh(n))
  {
  }

  /** The kernel accepts a first thread with the pair that the priority search starts from, and does not find it. */
  ghost predicate AcceptsSentinel(s: KState) {
    && Shape(s) && DefineCode(s, MAX, false, 1, MAX) == SUCCESS
    && !RoundFinds(s.threads[0 := Defined(s.threads[0], MAX, 1, MAX)], 1, 0)
  }

  lemma EmptyAcceptsSentinel(s: KState)
    requires Shape(s) && s.n == 1 && s.threads[0].state == Defunct && s.numActive == 0 && s.utilization == 0.0
    ensures AcceptsSentinel(s)
  {
    assert FreeSlot(s.threads, 1) == Some(0);
    assert !HasId(s.threads, 1, MAX);
    SmallShare();
    hide RoundFinds, FreeSlot, HasId, Shape, Bound;
    OnlySentinel(s.threads[0 := Defined(s.threads[0], MAX, 1, MAX)]);
  }

  lemma SentinelAccepted()
    ensures Initial(Fresh(1)) && AcceptsSentinel(Fresh(1))
  {
    FreshIsInitial(1);
    hide AcceptsSentinel;
    EmptyAcceptsSentinel(Fresh(1));
  }

  lemma SmallShare()
    ensures (1 as real) / (MAX as real) + 0.0 <= Bound(1)
  {
  }

  lemma OnlySentinel(threads: seq<Tcb>)
    requires |threads| >= 1 && Sentinel(threads[0])
    ensures !RoundFinds(threads, 1, 0)
  {
  }

  /** An accepted definition, with what it does spelled out. */
  lemma DefineStep(s: KState, id: Word, c: Word, t: Word, slot: nat, th: seq<Tcb>, r: KState)
    requires Shape(s) && slot < s.n && t > 0 && s.numActive < 255 && id != MAX
    requires DefineCode(s, id, false, c, t) == SUCCESS && FreeSlot(s.threads, s.n) == Some(slot) && Quiet(s)
    requires th == s.threads[slot := Defined(s.threads[slot], id, c, t)]
    requires r == s.(threads := Order(th, s.n), numActive := s.numActive + 1,
                     utilization := (c as real) / (t as real) + s.utilization, started := true)
    ensures Enabled(s, DoDefine(id, false, c, t)) && Next(s, DoDefine(id, false, c, t)) == r
  {
    hide Shape, Order, FreeSlot, DefineCode, Quiet;
  }

  // ----- recursion unrolled

  function Count(threads: seq<Tcb>, n: nat, i: nat, k: nat): nat
    requires k <= n <= |threads| && i < |threads|
  {
    if k == 0 then 0
    else Count(threads, n, i, k - 1) + if IsLive(threads, n, k - 1) && KeyLess(threads[k-1], threads[i]) then 1 else 0
  }

  lemma {:induction false} CountIs(threads: seq<Tcb>, n: nat, i: nat, k: nat)
    requires k <= n <= |threads| && i < |threads|
    ensures Count(threads, n, i, k) == |set j | 0 <= j < k && IsLive(threads, n, j) && KeyLess(threads[j], threads[i])|
  {
    var s := set j | 0 <= j < k && IsLive(threads, n, j) && KeyLess(threads[j], threads[i]);
    hide IsLive, KeyLess;
    if k == 0 {
      assert s == {};
    } else {
      CountIs(threads, n, i, k - 1);
      var t := set j | 0 <= j < k - 1 && IsLive(threads, n, j) && KeyLess(threads[j], threads[i]);
      if IsLive(threads, n, k - 1) && KeyLess(threads[k-1], threads[i]) {
        assert s == t + {k - 1};
      } else {
        assert s == t;
      }
    }
  }

  lemma RankIsCount(threads: seq<Tcb>, n: nat, i: nat)
    requires n <= |threads| && i < |threads|
    ensures Rank(threads, n, i) == Count(threads, n, i, n)
  {
    CountIs(threads, n, i, n);
  }

  /** The thread chosen of two: the more urgent of those that are ready, the first of equals. */
  function PickOfTwo(a: Tcb, b: Tcb): (r: nat) {
    var best := if a.state == Ready && a.dynPrio < MAX then a.dynPrio else MAX;
    if b.state == Ready && b.dynPrio < best then 1 else if a.state == Ready && a.dynPrio < MAX then 0 else 2
  }

  lemma ChooseTwo(threads: seq<Tcb>)
    requires |threads| >= 2
    ensures Choose(threads, 2, 2) == PickOfTwo(threads[0], threads[1])
  {
    assert Best(threads, 0, 2) == MAX && Choose(threads, 0, 2) == 2;
    assert Best(threads, 1, 2) ==
           if threads[0].state == Ready && threads[0].dynPrio < MAX then threads[0].dynPrio else MAX;
  }

  /** A switch between two threads that no tick asked for. */
  lemma SettleTwo(s: KState, r: KState)
    requires Shape(s) && s.n == 2 && s.numActive != 0 && s.pendsv && !s.preempt
    requires var next := PickOfTwo(s.threads[0], s.threads[1]);
             r == s.(threads := SetState(s.threads, next, ThreadState.Running), active := next, pendsv := false)
    ensures Settle(s) == r
  {
    ChooseTwo(s.threads);
  }

  /** A tick with two threads, the active one charged to c. */
  lemma TickTwo(s: KState, c: seq<Tcb>, r: KState)
    requires Shape(s) && s.n == 2 && s.numActive != 0 && s.active < 2 && !s.pendsv && !s.preempt
    requires c == s.threads[s.active := Charged(s.threads[s.active], false)]
    requires var next := PickOfTwo(c[0], c[1]);
             r == s.(threads := SetState([Advanced(c[0]), Advanced(c[1])] + c[2..], next, ThreadState.Running),
                     active := next, timeslot := Inc(s.timeslot))
    ensures Tick(s) == r
  {
    ChooseTwo(c);
    var p := s.(preempt := true, pendsv := true);
    assert Charge(p).threads == c;
    assert Timers(Charge(p)) == [Advanced(c[0]), Advanced(c[1])] + c[2..];
  }

  /** The same for three threads. */
  function PickOfThree(a: Tcb, b: Tcb, c: Tcb): nat {
    var two := PickOfTwo(a, b);
    var best := if two == 0 then a.dynPrio else if two == 1 then b.dynPrio else MAX;
    if c.state == Ready && c.dynPrio < best then 2 else if two == 2 then 3 else two
  }

  lemma ChooseThree(threads: seq<Tcb>)
    requires |threads| >= 3
    ensures Choose(threads, 3, 3) == PickOfThree(threads[0], threads[1], threads[2])
  {
    assert Best(threads, 0, 3) == MAX && Choose(threads, 0, 3) == 3;
    assert Best(threads, 1, 3) ==
           if threads[0].state == Ready && threads[0].dynPrio < MAX then threads[0].dynPrio else MAX;
    assert Choose(threads, 1, 3) == if threads[0].state == Ready && threads[0].dynPrio < MAX then 0 else 3;
  }

  lemma SettleThree(s: KState, r: KState)
    requires Shape(s) && s.n == 3 && s.numActive != 0 && s.pendsv && !s.preempt
    requires var next := PickOfThree(s.threads[0], s.threads[1], s.threads[2]);
             r == s.(threads := SetState(s.threads, next, ThreadState.Running), active := next, pendsv := false)
    ensures Settle(s) == r
  {
    ChooseThree(s.threads);
  }

  lemma TickThree(s: KState, c: seq<Tcb>, r: KState)
    requires Shape(s) && s.n == 3 && s.numActive != 0 && s.active < 3 && !s.pendsv && !s.preempt
    requires c == s.threads[s.active := Charged(s.threads[s.active], false)]
    requires var next := PickOfThree(c[0], c[1], c[2]);
             var all := [Advanced(c[0]), Advanced(c[1]), Advanced(c[2])] + c[3..];
             r == s.(threads := SetState(all, next, ThreadState.Running), active := next, timeslot := Inc(s.timeslot))
    ensures Tick(s) == r
  {
    ChooseThree(c);
    var p := s.(preempt := true, pendsv := true);
    assert Charge(p).threads == c;
    assert Timers(Charge(p)) == [Advanced(c[0]), Advanced(c[1]), Advanced(c[2])] + c[3..];
  }
}
