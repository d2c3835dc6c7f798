/** Defining threads, admission control, and starting a round of multitasking. */
module Admission {
  import opened Words
  import opened KernelState
  import opened Ceilings
  import opened Priorities
  import SysTick

  const SUCCESS := 0
  const MULTITASK_START_INVALID_FREQ := -7
  const MULTITASK_START_WITHOUT_THREAD := -8
  const THREAD_DEFINE_NO_TCB := -11
  const THREAD_DEFINE_DUPLICATE := -12
  const THREAD_DEFINE_INVALID_ARGS := -13
  const THREAD_DEFINE_UNSAFE_ADMISSION := -14
  const LOCK_SPECIFIES_NONEXISTENT_HIGHEST_LOCKER := -17

  /** Utilization bounds by number of threads. */
  const UTIL_BOUND: seq<real> := [
    0.0, 1.0, 0.8284, 0.7798, 0.7568, 0.7435, 0.7348, 0.7286,
    0.7241, 0.7205, 0.7177, 0.7155, 0.7136, 0.7119, 0.7106, 0.7094]

  function Bound(k: nat): (r: real) {
    if k < |UTIL_BOUND| then UTIL_BOUND[k] else 0.0
  }

  predicate HasId(threads: seq<Tcb>, n: nat, id: Word) {
    exists i :: 0 <= i < n && IsLive(threads, n, i) && threads[i].id == id
  }

  /** The last defunct slot among the first k. */
  function FreeSlot(threads: seq<Tcb>, k: nat): (r: Option<nat>)
    requires k <= |threads|
    ensures r.Some? ==> r.value < k && threads[r.value].state == Defunct
    ensures r.None? ==> forall i :: 0 <= i < k ==> threads[i].state != Defunct
  {
    if k == 0 then None
    else if threads[k-1].state == Defunct then Some(k - 1)
    else FreeSlot(threads, k - 1)
  }

  lemma {:induction false} FreeSlotIsLast(threads: seq<Tcb>, k: nat)
    requires k <= |threads|
    ensures var r := FreeSlot(threads, k); r.Some? ==> forall i :: r.value < i < k ==> threads[i].state != Defunct
  {
    if k > 0 && threads[k-1].state != Defunct { FreeSlotIsLast(threads, k - 1); }
  }

  function Defined(th: Tcb, id: Word, c: Word, t: Word): (r: Tcb)
    requires t > 0
  {
    th.(id := id, c := c, t := t, state := Ready, activeTime := 0, remaining := c, untilRelease := t - 1)
  }

  function Accept(s: KState, slot: nat, id: Word, c: Word, t: Word): (r: KState)
    requires Shape(s) && slot < s.n && t > 0
    ensures Shape(r) && r.n == s.n
  {
    var th := s.threads[slot := Defined(s.threads[slot], id, c, t)];
    AcceptShape(s, th);
    s.(threads := Order(th, s.n), numActive := (s.numActive + 1) % 256,
       utilization := (c as real) / (t as real) + s.utilization, started := true)
  }

  lemma AcceptShape(s: KState, th: seq<Tcb>)
    requires Shape(s) && |th| == |s.threads|
    requires forall i :: 0 <= i < |th| ==> th[i].pending == s.threads[i].pending
    ensures Shape(s.(threads := Order(th, s.n)))
  {
    forall i | 0 <= i < |th| ensures PendingInRange(Order(th, s.n)[i], s.defined) {
      assert PendingInRange(s.threads[i], s.defined) && Order(th, s.n)[i] == Ranked(th, s.n, i);
    }
  }

  /** `syscall_thread_define`: the code it returns. */
  function DefineCode(s: KState, id: Word, noFn: bool, c: Word, t: Word): (r: int)
    requires Shape(s)
  {
    if noFn || c == 0 || t == 0 || c > t then THREAD_DEFINE_INVALID_ARGS
    else if HasId(s.threads, s.n, id) then THREAD_DEFINE_DUPLICATE
    else if FreeSlot(s.threads, s.n).None? then THREAD_DEFINE_NO_TCB
    else if (c as real) / (t as real) + s.utilization <= Bound(s.numActive + 1) then SUCCESS
    else THREAD_DEFINE_UNSAFE_ADMISSION
  }

  function Define(s: KState, id: Word, noFn: bool, c: Word, t: Word): (r: KState)
    requires Shape(s)
    ensures Shape(r) && r.n == s.n
  {
    if DefineCode(s, id, noFn, c, t) == SUCCESS then Accept(s, FreeSlot(s.threads, s.n).value, id, c, t) else s
  }

  // ----- starting

  /** The first live thread with the given id among the first k. */
  function FindId(threads: seq<Tcb>, n: nat, i: nat, id: Word): (r: Option<nat>)
    requires i <= n <= |threads|
    ensures r.Some? ==> IsLive(threads, n, r.value) && threads[r.value].id == id
    ensures r.None? ==> forall j :: i <= j < n && IsLive(threads, n, j) ==> threads[j].id != id
    decreases n - i
  {
    if i == n then None
    else if threads[i].state != Defunct && threads[i].id == id then Some(i)
    else FindId(threads, n, i + 1, id)
  }

  /** `validate_ceiling_id` from lock k on: ceilings are filled in until a named thread is missing. */
  function Validate(s: KState, k: nat): (r: KState)
    requires Shape(s) && k <= s.defined
    ensures Shape(r) && r.n == s.n
    decreases s.defined - k
  {
    if k == s.defined then s
    else
      var i := FindId(s.threads, s.n, 0, s.locks[k].lockerId);
      if i.None? then s
      else
        assert LockInRange(s.locks[k], s.n);
        Validate(s.(locks := s.locks[k := s.locks[k].(ceiling := s.threads[i.value].staticPrio)]), k + 1)
  }

  predicate ValidIds(s: KState)
    requires Shape(s)
  {
    forall x :: 0 <= x < s.defined ==> HasId(s.threads, s.n, s.locks[x].lockerId)
  }

  /** The code `syscall_multitask_start` fails with, or SUCCESS when it goes on to the scheduler. */
  function StartCode(s: KState, freq: Word): (r: int)
    requires Shape(s)
  {
    if freq > SysTick.SYSTICK_BASE_FREQUENCY then MULTITASK_START_INVALID_FREQ
    else if !s.started then MULTITASK_START_WITHOUT_THREAD
    else if !ValidIds(s) then LOCK_SPECIFIES_NONEXISTENT_HIGHEST_LOCKER
    else SUCCESS
  }

  /** The state `syscall_multitask_start` leaves for the scheduler, or for its caller on an error. */
  function Start(s: KState, freq: Word): (r: KState)
    requires Shape(s)
    ensures Shape(r) && r.n == s.n
  {
    var code := StartCode(s, freq);
    if code == MULTITASK_START_INVALID_FREQ || code == MULTITASK_START_WITHOUT_THREAD then s
    else
      var v := Validate(s, 0);
      if code == SUCCESS then v.(ceiling := MAX, top := None, timeslot := 0, pendsv := true) else v
  }

  // ----- the admission invariant

  function Share(threads: seq<Tcb>, n: nat, i: nat): (r: real)
    requires i < |threads|
  {
    if IsLive(threads, n, i) then Utilization(threads[i]) else 0.0
  }

  /** The exact utilization of the live threads among the first k. */
  function TotalShare(threads: seq<Tcb>, n: nat, k: nat): (r: real)
    requires k <= |threads|
  {
    if k == 0 then 0.0 else TotalShare(threads, n, k - 1) + Share(threads, n, k - 1)
  }

  ghost predicate AdmissionInv(s: KState)
    requires Shape(s)
  {
    && s.numActive == |LiveSet(s.threads, s.n)|
    && DistinctIds(s.threads, s.n)
    && NoSentinel(s.threads, s.n)
    && (forall i :: IsLive(s.threads, s.n, i) ==> 1 <= s.threads[i].c <= s.threads[i].t)
    && s.utilization == TotalShare(s.threads, s.n, s.n)
    && s.utilization <= Bound(s.numActive)
  }

  /** Changing one slot changes the total by the difference of its share. */
  lemma {:induction false} TotalShareUpdate(a: seq<Tcb>, b: seq<Tcb>, n: nat, k: nat, slot: nat)
    requires k <= |a| == |b| && slot < n <= |a|
    requires forall i :: 0 <= i < n && i != slot ==> Share(a, n, i) == Share(b, n, i)
    requires k <= n
    ensures TotalShare(b, n, k) == TotalShare(a, n, k) +
              (if slot < k then Share(b, n, slot) - Share(a, n, slot) else 0.0)
  {
    if k == 0 {
    } else {
      TotalShareUpdate(a, b, n, k - 1, slot);
    }
  }

  /** Same live threads with the same ids and parameters. */
  predicate SameTask(th: Tcb, r: Tcb) {
    (r.state == Defunct <==> th.state == Defunct) && r.id == th.id && r.c == th.c && r.t == th.t
  }

  ghost predicate SameTasks(a: seq<Tcb>, b: seq<Tcb>, n: nat) {
    |a| == |b| && n <= |a| && forall i :: 0 <= i < n ==> SameTask(a[i], b[i])
  }

  lemma SameTasksSame(a: seq<Tcb>, b: seq<Tcb>, n: nat)
    requires SameTasks(a, b, n)
    ensures LiveSet(a, n) == LiveSet(b, n)
    ensures DistinctIds(a, n) ==> DistinctIds(b, n)
    ensures NoSentinel(a, n) ==> NoSentinel(b, n)
    ensures TotalShare(a, n, n) == TotalShare(b, n, n)
  {
    forall i: int ensures IsLive(a, n, i) == IsLive(b, n, i)
    {
      if 0 <= i < n { assert SameTask(a[i], b[i]); }
    }
    forall i | IsLive(b, n, i) ensures SameTask(a[i], b[i]) {}
    if n > 0 {
      assert forall i :: 0 <= i < n ==> SameTask(a[i], b[i]) && Share(a, n, i) == Share(b, n, i);
      TotalShareUpdate(a, b, n, n, 0);
    }
  }

  lemma SameTasksKeep(s: KState, r: KState)
    requires Shape(s) && AdmissionInv(s) && Shape(r)
    requires r.n == s.n && r.numActive == s.numActive && r.utilization == s.utilization
    requires SameTasks(s.threads, r.threads, s.n)
    ensures AdmissionInv(r)
  {
    SameTasksSame(s.threads, r.threads, s.n);
    forall i | IsLive(r.threads, r.n, i) ensures 1 <= r.threads[i].c <= r.threads[i].t {
      assert SameTask(s.threads[i], r.threads[i]);
      assert IsLive(s.threads, s.n, i);
    }
  }

  /** The bound only grows as the number of threads falls to one. */
  lemma BoundGrows(k: nat)
    requires 2 <= k <= MAX_NUM_THREADS
    ensures Bound(k) <= Bound(k - 1)
  {
  }

  lemma UtilizationNonNegative(th: Tcb)
    ensures Utilization(th) >= 0.0
  {
  }

  /** A thread that ends leaves the remaining set within its (larger) bound. */
  lemma RetireKeepsAdmission(s: KState)
    requires Shape(s) && AdmissionInv(s) && Live(s, s.active)
    ensures AdmissionInv(Retire(s))
    ensures Retire(s).numActive == s.numActive - 1
  {
    var r := Retire(s);
    RetireLiveSet(s);
    UtilizationNonNegative(s.threads[s.active]);
    TotalShareUpdate(s.threads, r.threads, s.n, s.n, s.active);
    if r.numActive == 0 { NoneLive(r.threads, r.n, r.n); } else { BoundGrows(s.numActive); }
    forall i | IsLive(r.threads, r.n, i) ensures IsLive(s.threads, s.n, i) && r.threads[i] == s.threads[i] {}
  }

  lemma RetireLiveSet(s: KState)
    requires Shape(s) && AdmissionInv(s) && Live(s, s.active)
    ensures var r := Retire(s);
            && LiveSet(r.threads, r.n) == LiveSet(s.threads, s.n) - {s.active}
            && r.numActive == s.numActive - 1 == |LiveSet(r.threads, r.n)|
            && s.numActive <= MAX_NUM_THREADS
  {
    LiveBound(s.threads, s.n);
    assert IsLive(s.threads, s.n, s.active) && s.active in LiveSet(s.threads, s.n);
    assert LiveSet(Retire(s).threads, s.n) == LiveSet(s.threads, s.n) - {s.active};
  }

  lemma {:induction false} NoneLive(threads: seq<Tcb>, n: nat, k: nat)
    requires k <= |threads| && LiveSet(threads, n) == {}
    ensures TotalShare(threads, n, k) == 0.0
  {
    if k == 0 {
    } else {
      NoneLive(threads, n, k - 1);
      assert k - 1 !in LiveSet(threads, n);
    }
  }

  // ----- what a definition answers

  predicate GoodArgs(noFn: bool, c: Word, t: Word) { !noFn && 1 <= c <= t }

  ghost predicate IdFree(threads: seq<Tcb>, n: nat, id: Word) {
    forall i :: IsLive(threads, n, i) ==> threads[i].id != id
  }

  ghost predicate SlotFree(threads: seq<Tcb>, n: nat)
    requires n <= |threads|
  {
    exists i :: 0 <= i < n && threads[i].state == Defunct
  }

  /** One thread more, with c slots in t, keeps the live threads within the bound for their number. */
  ghost predicate Sustainable(threads: seq<Tcb>, n: nat, c: Word, t: Word)
    requires n <= |threads| && t > 0
  {
    var count := |LiveSet(threads, n)| + 1;
    count < |UTIL_BOUND| && (c as real) / (t as real) + TotalShare(threads, n, n) <= UTIL_BOUND[count]
  }

  /** A definition is accepted exactly if there is a function with a budget of at least one slot and at most a
      period, no live thread has the id, a slot is free, and the live threads with the new one stay within the bound.
      Each refusal names the first of these that fails. */
  lemma DefineOutcome(s: KState, id: Word, noFn: bool, c: Word, t: Word)
    requires Shape(s) && AdmissionInv(s)
    ensures var code := DefineCode(s, id, noFn, c, t); var good := GoodArgs(noFn, c, t);
            var unused, room := IdFree(s.threads, s.n, id), SlotFree(s.threads, s.n);
            && (code == SUCCESS <==> good && unused && room && Sustainable(s.threads, s.n, c, t))
            && (code == THREAD_DEFINE_INVALID_ARGS <==> !good)
            && (code == THREAD_DEFINE_DUPLICATE <==> good && !unused)
            && (code == THREAD_DEFINE_NO_TCB <==> good && unused && !room)
            && (code == THREAD_DEFINE_UNSAFE_ADMISSION <==>
                  good && unused && room && !Sustainable(s.threads, s.n, c, t))
  {
    assert IdFree(s.threads, s.n, id) <==> !HasId(s.threads, s.n, id);
    assert SlotFree(s.threads, s.n) <==> FreeSlot(s.threads, s.n).Some?;
    LiveBound(s.threads, s.n);
    hide IdFree, HasId, SlotFree, FreeSlot, TotalShare, LiveSet, DistinctIds, NoSentinel;
  }

  // ----- the bound table

  function Power(x: real, k: nat): real {
    if k == 0 then 1.0 else x * Power(x, k - 1)
  }

  lemma Powers(x: real)
    ensures Power(x, 1) == x && Power(x, 2) == x * Power(x, 1) && Power(x, 3) == x * Power(x, 2)
    ensures Power(x, 4) == x * Power(x, 3) && Power(x, 5) == x * Power(x, 4) && Power(x, 6) == x * Power(x, 5)
    ensures Power(x, 7) == x * Power(x, 6) && Power(x, 8) == x * Power(x, 7) && Power(x, 9) == x * Power(x, 8)
    ensures Power(x, 10) == x * Power(x, 9) && Power(x, 11) == x * Power(x, 10) && Power(x, 12) == x * Power(x, 11)
    ensures Power(x, 13) == x * Power(x, 12) && Power(x, 14) == x * Power(x, 13) && Power(x, 15) == x * Power(x, 14)
  {
  }

  /** What k threads of equal share can use, by utilization u in all: (1 + u/k)^k. */
  function Demand(u: real, k: nat): real
    requires k > 0
  {
    Power(1.0 + u / (k as real), k)
  }

  /** The entries are the bound k * (2^(1/k) - 1) of Liu and Layland, which is the utilization u at which
      (1 + u/k)^k is 2, to four decimal places: all are rounded to the nearest but the one for 13 threads, which is
      rounded down. */
  lemma BoundIsLiuLayland(k: nat)
    requires 1 <= k < |UTIL_BOUND|
    ensures Bound(k) == UTIL_BOUND[k]
    ensures Demand(UTIL_BOUND[k] - 0.00005, k) < 2.0 < Demand(UTIL_BOUND[k] + 0.0001, k)
    ensures 2.0 < Demand(UTIL_BOUND[k] + 0.00005, k) <==> k != 13
  {
    hide Demand;
    if k < 8 { FewBelow(k); FewAbove(k); } else { ManyBelow(k); ManyAbove(k); ManyWellAbove(k); }
  }

  lemma FewBelow(k: nat)
    requires 1 <= k < 8
    ensures Demand(UTIL_BOUND[k] - 0.00005, k) < 2.0
  {
    Powers(1.0 + (UTIL_BOUND[k] - 0.00005) / (k as real));
    hide Power;
    if k == 1 {} else if k == 2 {} else if k == 3 {} else if k == 4 {} else if k == 5 {} else if k == 6 {} else {}
  }

  lemma FewAbove(k: nat)
    requires 1 <= k < 8
    ensures 2.0 < Demand(UTIL_BOUND[k] + 0.00005, k) && 2.0 < Demand(UTIL_BOUND[k] + 0.0001, k)
  {
    Powers(1.0 + (UTIL_BOUND[k] + 0.00005) / (k as real));
    Powers(1.0 + (UTIL_BOUND[k] + 0.0001) / (k as real));
    hide Power;
    if k == 1 {} else if k == 2 {} else if k == 3 {} else if k == 4 {} else if k == 5 {} else if k == 6 {} else {}
  }

  lemma ManyBelow(k: nat)
    requires 8 <= k < |UTIL_BOUND|
    ensures Demand(UTIL_BOUND[k] - 0.00005, k) < 2.0
  {
    Powers(1.0 + (UTIL_BOUND[k] - 0.00005) / (k as real));
    hide Power;
    if k == 8 {} else if k == 9 {} else if k == 10 {} else if k == 11 {} else if k == 12 {} else if k == 13 {}
    else if k == 14 {} else {}
  }

  lemma ManyAbove(k: nat)
    requires 8 <= k < |UTIL_BOUND|
    ensures 2.0 < Demand(UTIL_BOUND[k] + 0.00005, k) <==> k != 13
  {
    Powers(1.0 + (UTIL_BOUND[k] + 0.00005) / (k as real));
    hide Power;
    if k == 8 {} else if k == 9 {} else if k == 10 {} else if k == 11 {} else if k == 12 {} else if k == 13 {}
    else if k == 14 {} else {}
  }

  lemma ManyWellAbove(k: nat)
    requires 8 <= k < |UTIL_BOUND|
    ensures 2.0 < Demand(UTIL_BOUND[k] + 0.0001, k)
  {
    Powers(1.0 + (UTIL_BOUND[k] + 0.0001) / (k as real));
    hide Power;
    if k == 8 {} else if k == 9 {} else if k == 10 {} else if k == 11 {} else if k == 12 {} else if k == 13 {}
    else if k == 14 {} else {}
  }

  /** A definition keeps the books exact and within the bound, and leaves no thread the priority search cannot
      find, unless it is an accepted one for the pair the search starts from. */
  lemma DefineKeepsAdmission(s: KState, id: Word, noFn: bool, c: Word, t: Word)
    requires Shape(s) && AdmissionInv(s)
    ensures AdmissionInv(Define(s, id, noFn, c, t)) <==>
              !(DefineCode(s, id, noFn, c, t) == SUCCESS && id == MAX && t == MAX)
  {
    if DefineCode(s, id, noFn, c, t) == SUCCESS {
      var slot := FreeSlot(s.threads, s.n).value;
      AcceptKeeps(s, slot, id, c, t);
    }
  }

  lemma AcceptKeeps(s: KState, slot: nat, id: Word, c: Word, t: Word)
    requires Shape(s) && AdmissionInv(s) && slot < s.n && s.threads[slot].state == Defunct
    requires 1 <= c <= t && !HasId(s.threads, s.n, id)
    requires (c as real) / (t as real) + s.utilization <= Bound(s.numActive + 1)
    ensures AdmissionInv(Accept(s, slot, id, c, t)) <==> !(id == MAX && t == MAX)
  {
    var u := Inserted(s, slot, id, c, t);
    var r := Accept(s, slot, id, c, t);
    if id == MAX && t == MAX {
      assert r.threads[slot] == Ranked(u.threads, s.n, slot);
      assert IsLive(r.threads, s.n, slot);
    } else {
      InsertKeeps(s, slot, id, c, t);
      forall i | 0 <= i < s.n ensures SameTask(u.threads[i], r.threads[i]) {
        assert r.threads[i] == Ranked(u.threads, s.n, i);
      }
      SameTasksKeep(u, r);
    }
  }

  /** The state between filling the slot and re-ordering the priorities. */
  function Inserted(s: KState, slot: nat, id: Word, c: Word, t: Word): (r: KState)
    requires Shape(s) && slot < s.n && t > 0
    ensures Shape(r) && r.n == s.n
  {
    assert PendingInRange(s.threads[slot], s.defined);
    s.(threads := s.threads[slot := Defined(s.threads[slot], id, c, t)], numActive := (s.numActive + 1) % 256,
       utilization := (c as real) / (t as real) + s.utilization)
  }

  lemma InsertKeeps(s: KState, slot: nat, id: Word, c: Word, t: Word)
    requires Shape(s) && AdmissionInv(s) && slot < s.n && s.threads[slot].state == Defunct
    requires 1 <= c <= t && !(id == MAX && t == MAX) && !HasId(s.threads, s.n, id)
    requires (c as real) / (t as real) + s.utilization <= Bound(s.numActive + 1)
    ensures AdmissionInv(Inserted(s, slot, id, c, t))
  {
    var u := Inserted(s, slot, id, c, t);
    InsertLiveSet(s, slot, id, c, t);
    TotalShareUpdate(s.threads, u.threads, s.n, s.n, slot);
    forall i | IsLive(u.threads, s.n, i) && i != slot
      ensures IsLive(s.threads, s.n, i) && u.threads[i] == s.threads[i]
    {
    }
  }

  /** Ids stay distinct, and the pair that the priority search starts from is there only if it was just added. */
  lemma InsertIds(s: KState, slot: nat, id: Word, c: Word, t: Word)
    requires Shape(s) && AdmissionInv(s) && slot < s.n && s.threads[slot].state == Defunct && t > 0
    requires !HasId(s.threads, s.n, id)
    ensures var u := Inserted(s, slot, id, c, t);
            DistinctIds(u.threads, s.n) && (NoSentinel(u.threads, s.n) <==> !(id == MAX && t == MAX))
  {
    var u := Inserted(s, slot, id, c, t);
    assert IsLive(u.threads, s.n, slot);
    forall i | IsLive(u.threads, s.n, i) && i != slot
      ensures IsLive(s.threads, s.n, i) && u.threads[i] == s.threads[i]
    {
    }
  }

  lemma InsertLiveSet(s: KState, slot: nat, id: Word, c: Word, t: Word)
    requires Shape(s) && s.numActive == |LiveSet(s.threads, s.n)|
    requires slot < s.n && s.threads[slot].state == Defunct && t > 0
    ensures var u := Inserted(s, slot, id, c, t);
            && LiveSet(u.threads, s.n) == LiveSet(s.threads, s.n) + {slot}
            && u.numActive == s.numActive + 1 == |LiveSet(u.threads, s.n)|
  {
    LiveSetAdd(s.threads, s.n, slot, Defined(s.threads[slot], id, c, t));
  }

  // ----- ceilings at the start

  /** Lock x has the static priority of the live thread it names as its ceiling. */
  ghost predicate CeilingNamed(s: KState, x: nat)
    requires Shape(s) && x < s.defined
  {
    exists i: nat :: IsLive(s.threads, s.n, i) && s.threads[i].id == s.locks[x].lockerId &&
      s.locks[x].ceiling == s.threads[i].staticPrio
  }

  lemma {:induction false} ValidateFills(s: KState, k: nat)
    requires Shape(s) && k <= s.defined && ValidIds(s)
    requires forall x :: 0 <= x < k ==> CeilingNamed(s, x)
    ensures var r := Validate(s, k);
            r.threads == s.threads && r.defined == s.defined && forall x :: 0 <= x < r.defined ==> CeilingNamed(r, x)
    decreases s.defined - k
  {
    if k == s.defined {
    } else {
      var i := FindId(s.threads, s.n, 0, s.locks[k].lockerId);
      assert HasId(s.threads, s.n, s.locks[k].lockerId) && LockInRange(s.locks[k], s.n);
      var u := s.(locks := s.locks[k := s.locks[k].(ceiling := s.threads[i.value].staticPrio)]);
      forall x | 0 <= x < u.defined ensures HasId(u.threads, u.n, u.locks[x].lockerId) {
        assert HasId(s.threads, s.n, s.locks[x].lockerId);
      }
      forall x | 0 <= x < k + 1 ensures CeilingNamed(u, x) { FilledNamed(s, u, k, i.value, x); }
      ValidateFills(u, k + 1);
    }
  }

  /** Where a start that finds no thread for lock f stops: the ceilings of the locks before it are filled in, and the
      others are as they were. */
  lemma {:induction false} ValidateStops(s: KState, k: nat, f: nat)
    requires Shape(s) && k <= f < s.defined && !HasId(s.threads, s.n, s.locks[f].lockerId)
    requires forall x :: k <= x < f ==> HasId(s.threads, s.n, s.locks[x].lockerId)
    requires forall x :: 0 <= x < k ==> CeilingNamed(s, x)
    ensures var r := Validate(s, k);
            && r == s.(locks := r.locks) && |r.locks| == |s.locks|
            && (forall x :: 0 <= x < f ==> CeilingNamed(r, x))
            && (forall x :: f <= x < |s.locks| ==> r.locks[x] == s.locks[x])
    decreases f - k
  {
    var i := FindId(s.threads, s.n, 0, s.locks[k].lockerId);
    if k < f {
      assert HasId(s.threads, s.n, s.locks[k].lockerId) && LockInRange(s.locks[k], s.n);
      var u := s.(locks := s.locks[k := s.locks[k].(ceiling := s.threads[i.value].staticPrio)]);
      forall x | 0 <= x < k + 1 ensures CeilingNamed(u, x) { FilledNamed(s, u, k, i.value, x); }
      forall x | k + 1 <= x < f ensures HasId(u.threads, u.n, u.locks[x].lockerId) {
        assert HasId(s.threads, s.n, s.locks[x].lockerId);
      }
      ValidateStops(u, k + 1, f);
    }
  }

  lemma FilledNamed(s: KState, u: KState, k: nat, i: nat, x: nat)
    requires Shape(s) && Shape(u) && x <= k < s.defined && IsLive(s.threads, s.n, i)
    requires s.threads[i].id == s.locks[k].lockerId && (x < k ==> CeilingNamed(s, x))
    requires u == s.(locks := s.locks[k := s.locks[k].(ceiling := s.threads[i].staticPrio)])
    ensures CeilingNamed(u, x)
  {
    if x < k {
      var j: nat :| IsLive(s.threads, s.n, j) && s.threads[j].id == s.locks[x].lockerId &&
        s.locks[x].ceiling == s.threads[j].staticPrio;
      assert IsLive(u.threads, u.n, j);
    } else {
      assert IsLive(u.threads, u.n, i);
    }
  }

  /** Lock x names a live thread. */
  ghost predicate Names(s: KState, x: nat)
    requires Shape(s) && x < s.defined
  {
    exists i :: IsLive(s.threads, s.n, i) && s.threads[i].id == s.locks[x].lockerId
  }

  ghost predicate AllNamed(s: KState)
    requires Shape(s)
  {
    forall x :: 0 <= x < s.defined ==> Names(s, x)
  }

  lemma NamesAreValid(s: KState)
    requires Shape(s)
    ensures AllNamed(s) <==> ValidIds(s)
  {
    assert forall x :: 0 <= x < s.defined ==> (Names(s, x) <==> HasId(s.threads, s.n, s.locks[x].lockerId));
    hide Names, HasId;
  }

  /** A start that fails names the first reason, and changes nothing unless a named thread is missing. */
  lemma StartOutcome(s: KState, freq: Word)
    requires Shape(s)
    ensures var code := StartCode(s, freq); var ticks := freq <= 64_000_000;
            && (code == SUCCESS <==> ticks && s.started && AllNamed(s))
            && (code == MULTITASK_START_INVALID_FREQ <==> !ticks)
            && (code == MULTITASK_START_WITHOUT_THREAD <==> ticks && !s.started)
            && (code == LOCK_SPECIFIES_NONEXISTENT_HIGHEST_LOCKER <==> ticks && s.started && !AllNamed(s))
            && (!(ticks && s.started) ==> Start(s, freq) == s)
  {
    NamesAreValid(s);
    hide AllNamed, ValidIds, Validate;
  }

  /** A start succeeds only with every lock's named thread present, and then each lock's ceiling is that
      thread's static priority and the ceiling cache is reset. */
  lemma StartFillsCeilings(s: KState, freq: Word)
    requires Shape(s)
    ensures StartCode(s, freq) == SUCCESS <==>
              freq <= SysTick.SYSTICK_BASE_FREQUENCY && s.started && ValidIds(s)
    ensures StartCode(s, freq) == SUCCESS ==>
              var r := Start(s, freq);
              && (forall x :: 0 <= x < r.defined ==> CeilingNamed(r, x))
              && r.ceiling == MAX && r.top == None && r.timeslot == 0
  {
    if StartCode(s, freq) == SUCCESS {
      ValidateFills(s, 0);
      var v := Validate(s, 0);
      forall x | 0 <= x < v.defined ensures CeilingNamed(Start(s, freq), x) { assert CeilingNamed(v, x); }
    }
  }
}
