/** The globals of the multitasking kernel as one value: thread control blocks, locks and counters. */
module KernelState {
  import opened Words

  const MAX_NUM_THREADS := 14
  const MAX_USER_LOCKS := 32

  datatype ThreadState = Running | Ready | Waiting | Blocked | Defunct

  /** A thread control block. `pending` is the lock whose blocking request the thread is suspended in:
      the part of the saved program counter that matters to the lock protocol. */
  datatype Tcb = Tcb(id: Word, state: ThreadState, c: Word, t: Word,
                     staticPrio: Word, dynPrio: Word,
                     activeTime: Word, remaining: Word, untilRelease: Word,
                     pending: Option<nat>)

  /** A lock. `s` is the semaphore (0 is locked), `waiters` the used part of the array `blocked_threads`, which
      has MAX_NUM_THREADS places. */
  datatype Mutex = Mutex(s: Word, locker: Option<nat>, waiters: seq<nat>, ceiling: Word, lockerId: Word)

  /** User threads sit at 0..n-1, the idle thread at n, the main thread at n+1. */
  datatype KState = KState(
    n: nat,
    threads: seq<Tcb>,
    locks: seq<Mutex>,
    numLocks: nat,        // num_user_locks
    defined: nat,         // num_defined_locks
    numActive: nat,
    active: nat,
    timeslot: Word,
    utilization: real,
    ceiling: Word,        // global_priority_ceiling
    top: Option<nat>,     // highest_priority_lock
    preempt: bool,
    pendsv: bool,
    started: bool)        // thread_define_called

  /** Every index the kernel stores is within its array. */
  predicate Shape(s: KState) {
    && 1 <= s.n <= MAX_NUM_THREADS
    && |s.threads| == s.n + 2
    && |s.locks| == MAX_USER_LOCKS
    && s.defined <= s.numLocks <= MAX_USER_LOCKS
    && s.active < s.n + 2
    && s.numActive < 256
    && (s.top.Some? ==> s.top.value < s.defined)
    && (forall x :: 0 <= x < |s.locks| ==> LockInRange(s.locks[x], s.n))
    && (forall x :: s.defined <= x < |s.locks| ==> s.locks[x].locker == None)
    && (forall i :: 0 <= i < |s.threads| ==> PendingInRange(s.threads[i], s.defined))
  }

  predicate LockInRange(m: Mutex, n: nat) {
    && (m.locker.Some? ==> m.locker.value < n)
    && Below(m.waiters, n)
  }

  predicate Below(indices: seq<nat>, n: nat) {
    forall j :: 0 <= j < |indices| ==> indices[j] < n
  }

  predicate PendingInRange(th: Tcb, defined: nat) {
    th.pending.Some? ==> th.pending.value < defined
  }

  predicate Live(s: KState, i: nat)
    requires Shape(s)
  {
    i < s.n && s.threads[i].state != Defunct
  }

  /** Every wait list is inside its array. */
  predicate Fits(s: KState)
    requires Shape(s)
  {
    forall x :: 0 <= x < s.defined ==> ListFits(s.locks[x])
  }

  predicate ListFits(m: Mutex) {
    |m.waiters| <= MAX_NUM_THREADS
  }

  predicate HeldBy(s: KState, x: nat, i: nat)
    requires Shape(s)
  {
    x < s.defined && s.locks[x].locker == Some(i)
  }

  ghost predicate Holder(s: KState, i: nat)
    requires Shape(s)
  {
    exists x: nat :: HeldBy(s, x, i)
  }

  /** No lock is held and no thread is suspended inside a lock request. */
  ghost predicate Quiet(s: KState)
    requires Shape(s)
  {
    && (forall x :: 0 <= x < s.defined ==> s.locks[x].s != 0)
    && (forall i :: 0 <= i < s.n ==> s.threads[i].pending == None)
  }

  function SetState(threads: seq<Tcb>, i: nat, st: ThreadState): (r: seq<Tcb>)
    requires i < |threads|
  {
    threads[i := threads[i].(state := st)]
  }
}
