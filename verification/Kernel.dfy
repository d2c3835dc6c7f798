/** The kernel as it is written: global arrays and counters updated in place, each handler and system call
    proved equal to its function on kernel states. */
module Kernel {
  import opened Words
  import opened KernelState
  import opened Scheduling
  import opened Ceilings
  import opened Priorities
  import opened Admission
  import SysTick

  class Kernel {
    const n: nat                    // num_user_threads
    const threads: array<Tcb>       // user_threads
    const locks: array<Mutex>       // user_locks
    const numLocks: nat             // num_user_locks
    var defined: nat                // num_defined_locks
    var numActive: nat              // num_active_threads
    var active: nat                 // active_thread_index
    var timeslot: Word              // global_timeslot_counter
    var utilization: real           // total_utilization
    var ceiling: Word               // global_priority_ceiling
    var top: Option<nat>            // highest_priority_lock
    var preempt: bool               // preemption_flag
    var pendsv: bool                // the PendSV bit
    var started: bool               // thread_define_called

    /** The globals as a value. */
    function View(): (s: KState)
      reads this, threads, locks
    {
      KState(n, threads[..], locks[..], numLocks, defined, numActive, active, timeslot, utilization, ceiling, top,
             preempt, pendsv, started)
    }

    predicate Valid()
      reads this, threads, locks
    {
      Shape(View())
    }

    // ----- scheduling

    /** `schedule_rms`: one fused loop that chooses and advances timers. */
    method ScheduleRms() returns (next: nat)
      requires Valid()
      modifies threads
      ensures next == Select(old(View()))
      ensures View() == old(View()).(threads := Timers(old(View())))
    {
      var highest: Word := MAX;
      next := n;
      if numActive == 0 {
        return n + 1;
      }
      ghost var s := View();
      ghost var was := threads[..];
      assert was == s.threads;
      NoChoice(was, n);
      hide Shape, Advanced, PendingInRange, LockInRange, Best, Choose;
      for index := 0 to n
        invariant highest == Best(was, index, n) && next == Choose(was, index, n)
        invariant forall i :: 0 <= i < threads.Length ==>
                    threads[i] == if i < index && preempt then Advanced(was[i]) else was[i]
      {
        NextChoice(was, index, n);
        if threads[index].state == Defunct {
          DefunctStands(threads[index]);
          continue;
        }
        if threads[index].state == Ready && threads[index].dynPrio < highest {
          highest := threads[index].dynPrio;
          next := index;
        }
        if preempt {
          AdvanceTimer(index);
        }
      }
      assert threads[..] == Timers(s);
    }

    /** The periodic half of the loop body, for one thread that is not defunct. */
    method AdvanceTimer(index: nat)
      requires index < threads.Length && threads[index].state != Defunct
      modifies threads
      ensures threads[..] == old(threads[..])[index := Advanced(old(threads[index]))]
    {
      threads[index] := threads[index].(untilRelease := Dec(threads[index].untilRelease));
      if threads[index].untilRelease == 0 {
        threads[index] := threads[index].(untilRelease := threads[index].t);
        threads[index] := threads[index].(remaining := threads[index].c);
        threads[index] := threads[index].(state := Ready);
      }
    }

    /** The accounting at the head of `PendSV_C_Handler`, done only after a preemption. */
    method ChargeActive()
      requires Valid() && preempt
      modifies this`timeslot, threads
      ensures View() == Charge(old(View()))
    {
      ghost var s := View();
      timeslot := Inc(timeslot);
      threads[active] := threads[active].(activeTime := Inc(threads[active].activeTime));
      if active != n {
        threads[active] := threads[active].(remaining := Dec(threads[active].remaining));
      }
      if threads[active].remaining == 0 {
        threads[active] := threads[active].(state := Waiting);
      } else {
        threads[active] := threads[active].(state := Ready);
      }
      assert threads[..] == s.threads[active := Charged(s.threads[active], active == n)];
    }

    /** `PendSV_C_Handler`, without the stack switching. */
    method PendSVHandler()
      requires Valid()
      modifies this, threads
      ensures Valid() && View() == PendSV(old(View()))
    {
      hide Charge;
      hide Select;
      hide Timers;
      ghost var s := View();
      if preempt {
        ChargeActive();
      }
      ghost var u := View();
      var next := ScheduleRms();
      preempt := false;
      pendsv := false;
      if next == active {
        threads[active] := threads[active].(state := Running);
      } else {
        active := next;
        threads[active] := threads[active].(state := Running);
      }
      assert threads[..] == SetState(Timers(u), next, Running);
      assert View() == PendSV(s);
    }

    /** A SysTick interrupt that preempts, and the PendSV it pends. */
    method PreemptingTick()
      requires Valid()
      modifies this, threads
      ensures Valid() && View() == Tick(old(View()))
    {
      preempt := true;
      pendsv := true;
      PendSVHandler();
    }

    /** `syscall_thread_yield`. */
    method ThreadYield()
      requires Valid()
      modifies this, threads
      ensures Valid() && View() == Yield(old(View()))
    {
      ghost var s := View();
      if active != n {
        threads[active] := threads[active].(state := Waiting);
      }
      pendsv := true;
      assert View() == Yield(s);
    }

    // ----- locks

    /** `mutex_try`, its exclusive load and store taken as one attempt: 0 on success. */
    method MutexTry(m: nat) returns (rv: Word)
      requires Valid() && m < defined
      modifies locks
      ensures rv == 0 <==> old(locks[m].s) != 0
      ensures locks[..] == old(locks[..])[m := old(locks[m]).(s := 0)]
      ensures Valid() && View() == old(View()).(locks := locks[..])
    {
      if locks[m].s == 0 {
        return 1;
      }
      locks[m] := locks[m].(s := 0);
      return 0;
    }

    /** The loop of `syscall_unlock` that readies every queued thread. */
    method WakeWaiters(m: nat)
      requires Valid() && m < defined
      modifies threads
      ensures threads[..] == Wake(old(threads[..]), old(locks[m].waiters))
      ensures View() == old(View()).(threads := threads[..])
    {
      ghost var was := threads[..];
      var waiters := locks[m].waiters;
      assert LockInRange(locks[..][m], n);
      for k := 0 to |waiters|
        invariant forall i :: 0 <= i < threads.Length ==> threads[i] == Woken(was[i], i in waiters[..k])
      {
        threads[waiters[k]] := threads[waiters[k]].(state := Ready);
        assert waiters[..k+1] == waiters[..k] + [waiters[k]];
      }
      assert waiters[..|waiters|] == waiters;
    }

    /** The innermost loop of `syscall_unlock`: the active thread inherits from one queue. */
    method InheritFrom(x: nat)
      requires Valid() && x < defined
      modifies threads
      ensures threads[..] == old(threads[..])[active :=
                old(threads[active]).(dynPrio :=
                  Donated(old(threads[..]), locks[x].waiters, active, old(threads[active].dynPrio)))]
      ensures View() == old(View()).(threads := threads[..])
    {
      ghost var was := threads[..];
      var waiters := locks[x].waiters;
      assert LockInRange(locks[..][x], n);
      assert waiters[..0] == [];
      for k := 0 to |waiters|
        invariant threads[..] == was[active := was[active].(dynPrio :=
                                   Donated(was, waiters[..k], active, was[active].dynPrio))]
      {
        assert waiters[..k+1][..k] == waiters[..k];
        threads[active] := threads[active].(dynPrio := Min(threads[active].dynPrio, threads[waiters[k]].dynPrio));
      }
      assert waiters[..|waiters|] == waiters;
    }

    /** One lock of the sweep below, as far as the active thread's priority goes. */
    method Reconsider(x: nat, ghost was: seq<Tcb>)
      requires Valid() && x < defined && |was| == n + 2
      requires forall y :: 0 <= y < |locks[..]| ==> LockInRange(locks[..][y], n)
      requires threads[..] == was[active := was[active].(dynPrio := Inherited(was, locks[..], x, active))]
      modifies threads
      ensures Valid() && View() == old(View()).(threads := threads[..])
      ensures threads[..] == was[active := was[active].(dynPrio := Inherited(was, locks[..], x + 1, active))]
    {
      ghost var s := View();
      if locks[x].s == 0 && locks[x].locker == Some(active) {
        DonatedIgnoresSelf(was, threads[..], locks[..][x].waiters, active, threads[active].dynPrio);
        InheritFrom(x);
        SamePendingShape(s, threads[..]);
      }
    }

    /** The sweep of `syscall_unlock` over the locks: the new ceiling, the lock that sets it, and the active
        thread's new dynamic priority. */
    method Sweep() returns (newCeiling: Word, newTop: Option<nat>)
      requires Valid()
      modifies threads
      ensures Valid() && View() == old(View()).(threads := threads[..])
      ensures newCeiling == MinCeiling(locks[..], defined) && newTop == MinCeilingLock(locks[..], defined)
      ensures forall x :: 0 <= x < |locks[..]| ==> LockInRange(locks[..][x], n)
      ensures threads[..] == old(threads[..])[active :=
                old(threads[active]).(dynPrio := Inherited(old(threads[..]), locks[..], defined, active))]
    {
      ghost var s := View();
      ghost var was := threads[..];
      ghost var lk := locks[..];
      assert forall x :: 0 <= x < |lk| ==> LockInRange(lk[x], n);
      newCeiling := MAX;
      newTop := None;
      threads[active] := threads[active].(dynPrio := threads[active].staticPrio);
      SamePendingShape(s, threads[..]);
      assert Inherited(was, lk, 0, active) == was[active].staticPrio;
      hide Shape, Inherited, LockInRange, MinCeiling, MinCeilingLock;
      NoCeiling(lk);
      for x := 0 to defined
        invariant Valid() && locks[..] == lk
        invariant newCeiling == MinCeiling(lk, x) && newTop == MinCeilingLock(lk, x)
        invariant threads[..] == was[active := was[active].(dynPrio := Inherited(was, lk, x, active))]
      {
        NextCeiling(lk, x);
        if locks[x].s == 0 {
          if locks[x].ceiling < newCeiling {
            newCeiling := locks[x].ceiling;
            newTop := Some(x);
          }
        }
        Reconsider(x, was);
      }
    }

    /** The second half of `syscall_unlock`. */
    method Recalculate()
      requires Valid()
      modifies this, threads
      ensures Valid() && View() == Recompute(old(View()))
    {
      ghost var s := View();
      ceiling, top := Sweep();
      threads[active] := threads[active].(state := Ready);
      pendsv := true;
      assert View() == Recompute(s);
    }

    /** `syscall_unlock`. */
    method Unlock(m: nat)
      requires Valid() && m < defined
      modifies this, threads, locks
      ensures Valid() && View() == Ceilings.Unlock(old(View()), m)
    {
      if locks[m].s != 0 {
        return;
      }
      ghost var s := View();
      WakeWaiters(m);
      locks[m] := locks[m].(s := 1);
      locks[m] := locks[m].(waiters := []);
      locks[m] := locks[m].(locker := None);
      assert locks[..] == s.locks[m := Opened(s.locks[m])];
      assert View() == Release(s, m);
      Recalculate();
    }

    /** `syscall_thread_end`. */
    method ThreadEnd()
      requires Valid()
      modifies this, threads, locks
      ensures Valid() && View() == End(old(View()))
    {
      if active == n {
        return;
      }
      ghost var s := View();
      for x := 0 to numLocks
        invariant Valid() && defined == s.defined && active == s.active
        invariant ReleaseFrom(View(), if x <= defined then x else defined) == ReleaseFrom(s, 0)
      {
        if locks[x].locker == Some(active) {
          assert locks[..][x].locker.Some?;
          Unlock(x);
        }
      }
      assert View() == ReleaseFrom(s, 0);
      Retirement();
    }

    /** The last part of `syscall_thread_end`. */
    method Retirement()
      requires Valid()
      modifies this, threads
      ensures Valid() && View() == Retire(old(View()))
    {
      ghost var s := View();
      utilization := utilization - Utilization(threads[active]);
      threads[active] := threads[active].(state := Defunct);
      numActive := (numActive + 255) % 256;
      pendsv := true;
      assert View() == Retire(s);
    }

    /** The failing half of the loop in `syscall_lock`. The result is false when the wait list has no place left,
        where the code writes past its end. */
    method BlockOn(m: nat) returns (inside: bool)
      requires Valid() && m < defined && active < n
      requires locks[m].s == 0 || top.Some?
      modifies this, threads, locks
      ensures inside <==> old(|locks[JoinedQueue(View(), m)].waiters|) < MAX_NUM_THREADS
      ensures Valid() && (inside ==> View() == Block(old(View()), m))
    {
      ghost var s := View();
      var q := if locks[m].s == 0 then m else top.value;
      if |locks[q].waiters| >= MAX_NUM_THREADS {
        return false;
      }
      assert LockInRange(s.locks[m], n) && (top.Some? ==> LockInRange(s.locks[top.value], n));
      threads[active] := threads[active].(state := Blocked, pending := Some(m));
      locks[q] := locks[q].(waiters := locks[q].waiters + [active]);
      if locks[m].s == 0 && locks[m].locker.Some? {
        var p := locks[m].locker.value;
        threads[p] := threads[p].(dynPrio := Min(threads[p].dynPrio, threads[active].dynPrio));
      }
      pendsv := true;
      assert View() == Block(s, m);
      return true;
    }

    /** The succeeding half, after the semaphore was taken. */
    method Take(m: nat)
      requires Valid() && m < defined && active < n && locks[m].s == 0
      modifies this, threads, locks
      ensures Valid() && View() == Acquire(old(View()), m)
    {
      ghost var s := View();
      locks[m] := locks[m].(locker := Some(active));
      threads[active] := threads[active].(pending := None);
      if locks[m].ceiling < ceiling {
        ceiling := locks[m].ceiling;
        top := Some(m);
      }
      assert View() == Acquire(s, m);
    }

    /** One pass of the loop in `syscall_lock`. When the test fails and m is open, the cached lock pointer
        is dereferenced, so it must not be null: `LockSteps.RefusalHasTop` shows that it never is. The result
        `inside` is false when the wait list overflows. */
    method AttemptLock(m: nat) returns (acquired: bool, inside: bool)
      requires Valid() && m < defined && active < n
      requires threads[active].dynPrio < ceiling || top.Some?
      modifies this, threads, locks
      ensures inside <==> !Overruns(old(View()), m)
      ensures Valid() && (inside ==> View() == Attempt(old(View()), m))
      ensures acquired == (Admits(old(View())) && old(locks[m].s) != 0)
    {
      hide Block, Acquire;
      ghost var s := View();
      acquired := false;
      if threads[active].dynPrio < ceiling || locks[top.value].locker == Some(active) {
        var failed := MutexTry(m);
        acquired := failed == 0;
        if failed != 0 { assert locks[..] == s.locks; }
      }
      if acquired {
        AcquireTaken(s, m);
        Take(m);
        inside := true;
      } else {
        assert View() == s;
        inside := BlockOn(m);
      }
    }

    /** `syscall_lock` up to its first acquisition, block or forced end. */
    method SyscallLock(m: nat) returns (inside: bool)
      requires Valid() && m < defined && active < n
      requires threads[active].dynPrio < ceiling || top.Some?
      modifies this, threads, locks
      ensures inside <==> !(old(locks[m].ceiling <= threads[active].staticPrio && locks[m].locker != Some(active)) &&
                            Overruns(old(View()), m))
      ensures Valid() && (inside ==> View() == Lock(old(View()), m))
    {
      if threads[active].staticPrio < locks[m].ceiling {
        ThreadEnd();
        return true;
      }
      if locks[m].locker == Some(active) {
        return true;
      }
      var acquired;
      acquired, inside := AttemptLock(m);
    }

    /** `syscall_lock_init`, with `mutex_init`: the index of the new lock, or -1. */
    method NewLock(prio: Word) returns (index: int)
      requires Valid()
      modifies this, locks
      ensures Valid() && View() == LockInit(old(View()), prio)
      ensures index == if old(defined) < numLocks && active == n + 1 then old(defined) else -1
    {
      ghost var s := View();
      if defined >= numLocks || active != n + 1 {
        return -1;
      }
      locks[defined] := Mutex(1, None, [], MAX, MAX);
      locks[defined] := locks[defined].(lockerId := prio);
      defined := defined + 1;
      assert View() == LockInit(s, prio);
      return defined - 1;
    }

    // ----- defining and starting

    /** One search of `order_absolute_priorities`: the first unassigned thread in (period, id) order, or n, which
        stands for 0xFFFFFFFF, if the search finds none. */
    method NextInOrder(ghost k: nat) returns (best: nat)
      requires Valid() && k < |LiveSet(threads[..], n)| && DistinctIds(threads[..], n)
      requires forall i :: 0 <= i < n ==> threads[i].staticPrio == PrioBelow(threads[..], n, i, k)
      ensures best == n <==> !RoundFinds(threads[..], n, k)
      ensures best != n ==> IsLive(threads[..], n, best) && Rank(threads[..], n, best) == k
    {
      best := n;
      var bestId: Word := MAX;
      var bestPeriod: Word := MAX;
      for i := 0 to n
        invariant best == n ==> bestId == MAX && bestPeriod == MAX
        invariant best == n ==> forall j :: 0 <= j < i && Unassigned(threads[j]) ==> Sentinel(threads[j])
        invariant best != n ==> best < i && Unassigned(threads[best]) && !Sentinel(threads[best])
        invariant best != n ==> bestId == threads[best].id && bestPeriod == threads[best].t
        invariant best != n ==> forall j :: 0 <= j < i && j != best && Unassigned(threads[j]) ==>
                    KeyLess(threads[best], threads[j])
      {
        if threads[i].staticPrio != MAX || threads[i].state == Defunct { continue; }
        assert IsLive(threads[..], n, i);
        if best != n { assert IsLive(threads[..], n, best); }
        if threads[i].t < bestPeriod || (threads[i].t <= bestPeriod && threads[i].id < bestId) {
          best := i;
          bestId := threads[i].id;
          bestPeriod := threads[i].t;
        }
      }
      SearchEnds(threads[..], n, k, best);
    }

    /** The first loop of `order_absolute_priorities`. */
    method ClearPriorities()
      requires Valid()
      modifies threads
      ensures forall j :: 0 <= j < n ==> threads[j] == old(threads[..])[j].(staticPrio := MAX, dynPrio := MAX)
      ensures threads[n..] == old(threads[n..])
    {
      hide LockInRange;
      ghost var was := threads[..];
      for i := 0 to n
        invariant forall j :: 0 <= j < i ==> threads[j] == was[j].(staticPrio := MAX, dynPrio := MAX)
        invariant forall j :: i <= j < threads.Length ==> threads[j] == was[j]
      {
        threads[i] := threads[i].(staticPrio := MAX);
        threads[i] := threads[i].(dynPrio := MAX);
      }
    }

    /** One round of its second loop. */
    method AssignNext(k: nat, ghost was: seq<Tcb>) returns (inside: bool)
      requires Valid() && k < |LiveSet(was, n)| && DistinctIds(was, n) && |was| == n + 2
      requires forall j :: 0 <= j < n ==> threads[j] == Assigned(was, n, j, k)
      requires threads[n..] == was[n..]
      modifies threads
      ensures inside <==> RoundFinds(was, n, k)
      ensures threads[n..] == was[n..]
      ensures inside ==> forall j :: 0 <= j < n ==> threads[j] == Assigned(was, n, j, k + 1)
      ensures !inside ==> threads[..] == old(threads[..])
    {
      AssignedSame(was, threads[..], n, k);
      var best := NextInOrder(k);
      RoundFindsSame(was, threads[..], n, k);
      hide Shape, RoundFinds, DistinctIds;
      if best == n {
        return false;
      }
      AssignedStep(was, n, k, best);
      LiveBound(was, n);
      threads[best] := threads[best].(staticPrio := k);
      threads[best] := threads[best].(dynPrio := k);
      return true;
    }

    /** `order_absolute_priorities`. The result is false when a search finds nothing, where the code goes on to
        write outside the thread table: exactly if a live thread has period and id 0xFFFFFFFF. */
    method OrderPriorities() returns (inside: bool)
      requires Valid() && numActive == |LiveSet(threads[..], n)| && DistinctIds(threads[..], n)
      modifies threads
      ensures inside <==> NoSentinel(old(threads[..]), n)
      ensures Valid() && (inside ==> View() == old(View()).(threads := Order(old(threads[..]), n)))
    {
      ghost var s := View();
      ghost var was := threads[..];
      ClearPriorities();
      ClearedFits(s, threads[..]);
      assert View() == s.(threads := threads[..]);
      hide Shape, DistinctIds, NoSentinel, RoundFinds;
      for k := 0 to numActive
        invariant Valid() && View() == s.(threads := threads[..])
        invariant forall j :: 0 <= j < n ==> threads[j] == Assigned(was, n, j, k)
        invariant threads[n..] == was[n..]
        invariant forall m: nat :: m < k ==> RoundFinds(was, n, m)
      {
        inside := AssignNext(k, was);
        if !inside {
          SearchSucceedsIff(was, n);
          return false;
        }
        AssignedFits(s, threads[..], k + 1);
      }
      assert forall j :: n <= j < |was| ==> threads[..][j] == was[j] by { SameTail(was, threads[..], n); }
      AllAssigned(was, threads[..], n);
      SearchSucceedsIff(was, n);
      return true;
    }

    /** `syscall_thread_define`. The result `inside` is false exactly for an accepted definition that makes the
        re-ordering of priorities write outside the thread table. */
    method ThreadDefine(id: Word, noFn: bool, c: Word, t: Word) returns (code: int, inside: bool)
      requires Valid() && AdmissionInv(View())
      modifies this, threads
      ensures code == DefineCode(old(View()), id, noFn, c, t)
      ensures inside <==> !(code == SUCCESS && id == MAX && t == MAX)
      ensures Valid() && (inside ==> View() == Define(old(View()), id, noFn, c, t))
    {
      ghost var s := View();
      if noFn || c == 0 || t == 0 || c > t {
        return THREAD_DEFINE_INVALID_ARGS, true;
      }
      var slot := n;
      for i := 0 to n
        invariant forall j :: 0 <= j < i ==> !(IsLive(threads[..], n, j) && threads[j].id == id)
        invariant FreeSlot(threads[..], i) == if slot == n then None else Some(slot)
        invariant slot == n || slot < i
      {
        if threads[i].id == id && threads[i].state != Defunct {
          assert IsLive(threads[..], n, i);
          return THREAD_DEFINE_DUPLICATE, true;
        }
        if threads[i].state == Defunct {
          slot := i;
        }
      }
      if slot == n {
        return THREAD_DEFINE_NO_TCB, true;
      }
      var newUtilization := (c as real) / (t as real) + utilization;
      RoomInTable(s, slot);
      if newUtilization <= UTIL_BOUND[numActive + 1] {
        inside := Admit(slot, id, c, t, newUtilization);
        return SUCCESS, inside;
      }
      return THREAD_DEFINE_UNSAFE_ADMISSION, true;
    }

    /** The control block of an accepted thread. */
    method FillSlot(slot: nat, id: Word, c: Word, t: Word)
      requires slot < threads.Length && t > 0
      modifies threads
      ensures threads[..] == old(threads[..])[slot := Defined(old(threads[slot]), id, c, t)]
    {
      threads[slot] := threads[slot].(id := id);
      threads[slot] := threads[slot].(c := c);
      threads[slot] := threads[slot].(t := t);
      threads[slot] := threads[slot].(state := Ready);
      threads[slot] := threads[slot].(activeTime := 0);
      threads[slot] := threads[slot].(remaining := c);
      threads[slot] := threads[slot].(untilRelease := t - 1);
    }

    /** The books and the control block of an accepted thread. */
    method Insert(slot: nat, id: Word, c: Word, t: Word, newUtilization: real)
      requires Valid() && slot < n && t > 0 && newUtilization == (c as real) / (t as real) + utilization
      modifies this`utilization, this`numActive, this`started, threads
      ensures Valid() && View() == Inserted(old(View()), slot, id, c, t).(started := true)
    {
      ghost var s := View();
      utilization := newUtilization;
      FillSlot(slot, id, c, t);
      numActive := (numActive + 1) % 256;
      assert View() == Inserted(s, slot, id, c, t);
      started := true;
    }

    /** The accepting branch of `syscall_thread_define`. */
    method Admit(slot: nat, id: Word, c: Word, t: Word, newUtilization: real) returns (inside: bool)
      requires Valid() && AdmissionInv(View()) && slot < n && threads[slot].state == Defunct && t > 0
      requires !HasId(threads[..], n, id) && newUtilization == (c as real) / (t as real) + utilization
      modifies this, threads
      ensures inside <==> !(id == MAX && t == MAX)
      ensures Valid() && (inside ==> View() == Accept(old(View()), slot, id, c, t))
    {
      ghost var s := View();
      InsertLiveSet(s, slot, id, c, t);
      InsertIds(s, slot, id, c, t);
      AcceptIsOrdered(s, slot, id, c, t);
      hide Accept, Inserted, Shape, DistinctIds, NoSentinel, LiveSet, HasId, AdmissionInv;
      Insert(slot, id, c, t, newUtilization);
      inside := OrderPriorities();
    }

    /** The inner loop of `validate_ceiling_id`: the ceiling of lock x from the thread it names. */
    method FillCeiling(x: nat) returns (found: bool)
      requires Valid() && x < defined
      modifies locks
      ensures var who := FindId(threads[..], n, 0, old(locks[x].lockerId));
              && found == who.Some?
              && locks[..] == if who.None? then old(locks[..])
                              else old(locks[..])[x := old(locks[x]).(ceiling := threads[who.value].staticPrio)]
      ensures Valid() && View() == old(View()).(locks := locks[..])
    {
      found := false;
      assert LockInRange(locks[..][x], n);
      for i := 0 to n
        invariant FindId(threads[..], n, 0, locks[x].lockerId) == FindId(threads[..], n, i, locks[x].lockerId)
        invariant locks[..] == old(locks[..])
      {
        if threads[i].state != Defunct && threads[i].id == locks[x].lockerId {
          locks[x] := locks[x].(ceiling := threads[i].staticPrio);
          return true;
        }
      }
    }

    /** `validate_ceiling_id`. */
    method ValidateCeilings() returns (ok: bool)
      requires Valid()
      modifies locks
      ensures Valid() && View() == Validate(old(View()), 0)
      ensures ok <==> ValidIds(old(View()))
    {
      ghost var s := View();
      hide LockInRange, PendingInRange, Validate;
      for x := 0 to defined
        invariant Valid() && View() == s.(locks := locks[..])
        invariant Validate(View(), x) == Validate(s, 0)
        invariant forall y :: 0 <= y < x ==> HasId(s.threads, n, s.locks[y].lockerId)
        invariant forall y :: x <= y < locks.Length ==> locks[y] == s.locks[y]
      {
        ghost var before := View();
        ValidateUnfolds(before, x);
        var found := FillCeiling(x);
        FindIdMeaning(s.threads, n, s.locks[x].lockerId);
        if !found {
          return false;
        }
        assert View() == before.(locks := locks[..]);
      }
      ValidateUnfolds(View(), defined);
      return true;
    }

    /** `syscall_multitask_start` up to the scheduler, or its error return. */
    method MultitaskStart(freq: Word, timer: SysTick.Timer) returns (code: int)
      requires Valid()
      modifies this, locks, timer
      ensures Valid() && View() == Start(old(View()), freq)
      ensures code == StartCode(old(View()), freq)
      ensures code == SUCCESS && freq > 0 ==>
                timer.TicksAt(freq) && timer.preempt == old(timer.preempt)
      ensures code != SUCCESS || freq == 0 ==> unchanged(timer)
    {
      if freq > SysTick.SYSTICK_BASE_FREQUENCY {
        return MULTITASK_START_INVALID_FREQ;
      }
      if !started {
        return MULTITASK_START_WITHOUT_THREAD;
      }
      ghost var s := View();
      hide SysTick.BinsFrom, SysTick.FullReload, Validate, SysTick.Timer.TicksAt;
      var ok := ValidateCeilings();
      if !ok {
        return LOCK_SPECIFIES_NONEXISTENT_HIGHEST_LOCKER;
      }
      ceiling := MAX;
      top := None;
      if freq > 0 {
        var rv := timer.Divide(freq);
        if rv != 0 { return rv; }
      }
      timeslot := 0;
      pendsv := true;
      assert View() == Start(s, freq);
      return SUCCESS;
    }
  }

  /** One step of the validation. */
  lemma ValidateUnfolds(s: KState, k: nat)
    requires Shape(s) && k <= s.defined
    ensures k == s.defined ==> Validate(s, k) == s
    ensures k < s.defined ==>
              var who := FindId(s.threads, s.n, 0, s.locks[k].lockerId);
              var filled := if who.None? then s.locks
                            else s.locks[k := s.locks[k].(ceiling := s.threads[who.value].staticPrio)];
              && Shape(s.(locks := filled))
              && Validate(s, k) == if who.None? then s else Validate(s.(locks := filled), k + 1)
  {
    if k < s.defined { assert LockInRange(s.locks[k], s.n); }
  }

  lemma SameTail(a: seq<Tcb>, b: seq<Tcb>, n: nat)
    requires n <= |a| == |b| && a[n..] == b[n..]
    ensures forall j :: n <= j < |a| ==> a[j] == b[j]
  {
    forall j | n <= j < |a| ensures a[j] == b[j] { assert a[n..][j - n] == b[n..][j - n]; }
  }

  lemma ClearedFits(s: KState, th: seq<Tcb>)
    requires Shape(s) && |th| == |s.threads| && th[s.n..] == s.threads[s.n..]
    requires forall j :: 0 <= j < s.n ==> th[j] == s.threads[j].(staticPrio := MAX, dynPrio := MAX)
    ensures Shape(s.(threads := th)) && forall j :: 0 <= j < s.n ==> th[j] == Assigned(s.threads, s.n, j, 0)
  {
    SameTail(s.threads, th, s.n);
    SamePendingShape(s, th);
  }

  lemma AssignedFits(s: KState, th: seq<Tcb>, k: nat)
    requires Shape(s) && |th| == |s.threads| && th[s.n..] == s.threads[s.n..]
    requires forall j :: 0 <= j < s.n ==> th[j] == Assigned(s.threads, s.n, j, k)
    ensures Shape(s.(threads := th))
  {
    SameTail(s.threads, th, s.n);
    SamePendingShape(s, th);
  }

  lemma NoChoice(threads: seq<Tcb>, idle: nat)
    ensures Best(threads, 0, idle) == MAX && Choose(threads, 0, idle) == idle
  {
  }

  lemma NextChoice(threads: seq<Tcb>, k: nat, idle: nat)
    requires k < |threads|
    ensures var better := threads[k].state == Ready && threads[k].dynPrio < Best(threads, k, idle);
            && Best(threads, k + 1, idle) == (if better then threads[k].dynPrio else Best(threads, k, idle))
            && Choose(threads, k + 1, idle) == (if better then k else Choose(threads, k, idle))
  {
  }

  lemma DefunctStands(th: Tcb)
    requires th.state == Defunct
    ensures Advanced(th) == th
  {
  }

  /** Accepting is inserting, then ordering. */
  lemma AcceptIsOrdered(s: KState, slot: nat, id: Word, c: Word, t: Word)
    requires Shape(s) && slot < s.n && t > 0
    ensures var u := Inserted(s, slot, id, c, t);
            && u.n == s.n && Accept(s, slot, id, c, t) == u.(threads := Order(u.threads, s.n), started := true)
  {
  }

  lemma FindIdMeaning(threads: seq<Tcb>, n: nat, id: Word)
    requires n <= |threads|
    ensures FindId(threads, n, 0, id).Some? <==> HasId(threads, n, id)
  {
  }

  /** A free slot means the table is not full, so the bound table is not overrun. */
  lemma RoomInTable(s: KState, slot: nat)
    requires Shape(s) && AdmissionInv(s) && slot < s.n && s.threads[slot].state == Defunct
    ensures s.numActive < s.n
  {
    UptoSize(s.n);
    assert slot in Upto(s.n) && slot !in LiveSet(s.threads, s.n);
    SubsetSize(LiveSet(s.threads, s.n), Upto(s.n));
  }

  /** A thread's own entry does not matter to what it is given. */
  lemma {:induction false} DonatedIgnoresSelf(a: seq<Tcb>, b: seq<Tcb>, waiters: seq<nat>, p: nat, acc: Word)
    requires |a| == |b| && Below(waiters, |a|)
    requires forall i :: 0 <= i < |a| && i != p ==> a[i] == b[i]
    ensures Donated(a, waiters, p, acc) == Donated(b, waiters, p, acc)
    decreases |waiters|
  {
    if waiters == [] {
    } else {
      DonatedIgnoresSelf(a, b, waiters[..|waiters|-1], p, acc);
    }
  }

  lemma AcquireTaken(s: KState, m: nat)
    requires Shape(s) && m < s.defined && s.active < s.n
    ensures var u := s.(locks := s.locks[m := s.locks[m].(s := 0)]); Shape(u) && Acquire(u, m) == Acquire(s, m)
  {
    var u := s.(locks := s.locks[m := s.locks[m].(s := 0)]);
    assert LockInRange(s.locks[m], s.n) && LockInRange(u.locks[m], u.n);
    assert Acquire(u, m).locks == Acquire(s, m).locks;
  }

  lemma NoCeiling(locks: seq<Mutex>)
    ensures MinCeiling(locks, 0) == MAX && MinCeilingLock(locks, 0) == None
  {
  }

  lemma NextCeiling(locks: seq<Mutex>, x: nat)
    requires x < |locks|
    ensures var lower := locks[x].s == 0 && locks[x].ceiling < MinCeiling(locks, x);
            && MinCeiling(locks, x + 1) == (if lower then locks[x].ceiling else MinCeiling(locks, x))
            && MinCeilingLock(locks, x + 1) == (if lower then Some(x) else MinCeilingLock(locks, x))
  {
  }

  lemma SamePendingShape(s: KState, th: seq<Tcb>)
    requires Shape(s) && |th| == |s.threads|
    requires forall i :: 0 <= i < |th| ==> th[i].pending == s.threads[i].pending
    ensures Shape(s.(threads := th))
  {
    forall i | 0 <= i < |th| ensures PendingInRange(th[i], s.defined) {
      assert PendingInRange(s.threads[i], s.defined);
    }
  }
}
