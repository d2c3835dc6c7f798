/** The rate-monotonic scheduler: charging a tick, choosing a thread, releasing periods, switching. */
module Scheduling {
  import opened Words
  import opened KernelState

  /** The accounting half of PendSV after a preemption: one timeslot charged to the active thread. */
  function Charged(th: Tcb, idle: bool): (r: Tcb) {
    var rem := if idle then th.remaining else Dec(th.remaining);
    th.(activeTime := Inc(th.activeTime), remaining := rem, state := if rem == 0 then Waiting else Ready)
  }

  function Charge(s: KState): (r: KState)
    requires Shape(s)
    ensures Shape(r) && r.n == s.n
  {
    s.(timeslot := Inc(s.timeslot),
       threads := s.threads[s.active := Charged(s.threads[s.active], s.active == s.n)])
  }

  predicate Candidate(threads: seq<Tcb>, i: nat)
    requires i < |threads|
  {
    threads[i].state == Ready && threads[i].dynPrio < MAX
  }

  /** The choice among the first k threads: first index of least dynamic priority, or `idle`. */
  function Choose(threads: seq<Tcb>, k: nat, idle: nat): (r: nat)
    requires k <= |threads|
    ensures r == idle || (r < k && Candidate(threads, r))
  {
    if k == 0 then idle
    else
      var best := Choose(threads, k - 1, idle);
      if threads[k-1].state == Ready && threads[k-1].dynPrio < Best(threads, k - 1, idle) then k - 1 else best
  }

  /** The priority of the choice so far, MAX when nothing was chosen. */
  function Best(threads: seq<Tcb>, k: nat, idle: nat): (r: Word)
    requires k <= |threads|
  {
    if k == 0 then MAX
    else
      var b := Best(threads, k - 1, idle);
      if threads[k-1].state == Ready && threads[k-1].dynPrio < b then threads[k-1].dynPrio else b
  }

  /** One timer step of one thread. */
  function Advanced(th: Tcb): (r: Tcb) {
    if th.state == Defunct then th
    else if Dec(th.untilRelease) == 0 then th.(untilRelease := th.t, remaining := th.c, state := Ready)
    else th.(untilRelease := Dec(th.untilRelease))
  }

  function AdvanceAll(threads: seq<Tcb>, n: nat): (r: seq<Tcb>)
    requires n <= |threads|
    ensures |r| == |threads|
    ensures forall i :: 0 <= i < n ==> r[i] == Advanced(threads[i])
    ensures forall i :: n <= i < |threads| ==> r[i] == threads[i]
  {
    seq(|threads|, i requires 0 <= i < |threads| => if i < n then Advanced(threads[i]) else threads[i])
  }

  /** What `schedule_rms` returns. */
  function Select(s: KState): (r: nat)
    requires Shape(s)
    ensures r < s.n + 2
  {
    if s.numActive == 0 then s.n + 1 else Choose(s.threads, s.n, s.n)
  }

  /** What `schedule_rms` does to the thread table. */
  function Timers(s: KState): (r: seq<Tcb>)
    requires Shape(s)
    ensures |r| == |s.threads|
  {
    if s.numActive == 0 || !s.preempt then s.threads else AdvanceAll(s.threads, s.n)
  }

  /** The whole PendSV handler. */
  function PendSV(s: KState): (r: KState)
    requires Shape(s)
    ensures Shape(r) && r.n == s.n
  {
    var u := if s.preempt then Charge(s) else s;
    var next := Select(u);
    var r := u.(threads := SetState(Timers(u), next, Running), active := next, preempt := false, pendsv := false);
    assert forall i :: 0 <= i < |u.threads| ==> PendingInRange(Timers(u)[i], u.defined) by {
      assert forall i :: 0 <= i < |u.threads| ==> PendingInRange(u.threads[i], u.defined);
    }
    r
  }

  /** A preempting SysTick interrupt and the PendSV it pends. */
  function Tick(s: KState): (r: KState)
    requires Shape(s)
    ensures Shape(r) && r.n == s.n
  {
    PendSV(s.(preempt := true, pendsv := true))
  }

  /** A syscall's pended PendSV runs before anything else does. */
  function Settle(s: KState): (r: KState)
    requires Shape(s)
    ensures Shape(r) && r.n == s.n
  {
    if s.pendsv then PendSV(s) else s
  }

  /** The control block as the scheduler sees it on a tick: charged if active. */
  function Seen(s: KState, i: nat): (r: Tcb)
    requires Shape(s) && i < s.n
  {
    if s.active == i then Charged(s.threads[i], false) else s.threads[i]
  }

  // ----- what the choice means

  /** `Best` is the least priority of any candidate, and `Choose` the first to have it. */
  lemma {:induction false} ChooseIsFirstLeast(threads: seq<Tcb>, k: nat, idle: nat)
    requires k <= |threads| && k <= idle
    ensures forall i :: 0 <= i < k && threads[i].state == Ready ==> Best(threads, k, idle) <= threads[i].dynPrio
    ensures Choose(threads, k, idle) == idle <==> (forall i :: 0 <= i < k ==> !Candidate(threads, i))
    ensures var r := Choose(threads, k, idle);
            r != idle ==> threads[r].dynPrio == Best(threads, k, idle)
    ensures Choose(threads, k, idle) == idle ==> Best(threads, k, idle) == MAX
    ensures var r := Choose(threads, k, idle);
            r != idle ==>
              forall i :: 0 <= i < r && threads[i].state == Ready ==> threads[r].dynPrio < threads[i].dynPrio
  {
    if k == 0 {
    } else {
      ChooseIsFirstLeast(threads, k - 1, idle);
      var b := Best(threads, k - 1, idle);
      if threads[k-1].state == Ready && threads[k-1].dynPrio < b {
        assert Candidate(threads, k - 1);
      }
    }
  }

  /** The scheduler's answer: main exactly when nothing is active, otherwise the first thread of least
      dynamic priority among those Ready on entry, and idle exactly when there is none. */
  lemma SelectMeaning(s: KState)
    requires Shape(s)
    ensures Select(s) == s.n + 1 <==> s.numActive == 0
    ensures s.numActive != 0 ==>
              (Select(s) == s.n <==> forall i :: 0 <= i < s.n ==> !Candidate(s.threads, i))
    ensures Select(s) < s.n ==>
              var r := Select(s);
              && s.threads[r].state == Ready
              && (forall i :: 0 <= i < s.n && s.threads[i].state == Ready ==>
                    s.threads[r].dynPrio <= s.threads[i].dynPrio)
              && (forall i :: 0 <= i < r && s.threads[i].state == Ready ==> s.threads[r].dynPrio < s.threads[i].dynPrio)
  {
    ChooseIsFirstLeast(s.threads, s.n, s.n);
  }

  /** Nobody but the active thread is Running; a user thread that is active is. */
  predicate OneRunning(s: KState)
    requires Shape(s)
  {
    && (s.active < s.n ==> s.threads[s.active].state == Running)
    && (forall i :: 0 <= i < s.n && s.threads[i].state == Running ==> i == s.active)
  }

  /** Every way into PendSV leaves exactly the chosen thread Running among the user threads. */
  lemma PendSVRunsOne(s: KState)
    requires Shape(s)
    requires forall i :: 0 <= i < s.n && s.threads[i].state == Running ==> i == s.active
    requires s.active < s.n && !s.preempt ==> s.threads[s.active].state != Running
    ensures OneRunning(PendSV(s))
  {
  }
}
