/** The priority-ceiling locks: what each system call does to the kernel state. */
module Ceilings {
  import opened Words
  import opened KernelState

  predicate Locked(m: Mutex) { m.s == 0 }

  /** Ready every thread queued on a lock that is being released. */
  function Wake(threads: seq<Tcb>, waiters: seq<nat>): (r: seq<Tcb>)
    ensures |r| == |threads|
    ensures forall i :: 0 <= i < |threads| ==> r[i] == Woken(threads[i], i in waiters)
  {
    seq(|threads|, i requires 0 <= i < |threads| => Woken(threads[i], i in waiters))
  }

  function Woken(th: Tcb, queued: bool): (r: Tcb) {
    if queued then th.(state := Ready) else th
  }

  /** The least ceiling among the first k locks that are locked, MAX if none. */
  function MinCeiling(locks: seq<Mutex>, k: nat): (r: Word)
    requires k <= |locks|
  {
    if k == 0 then MAX
    else
      var c := MinCeiling(locks, k - 1);
      if Locked(locks[k-1]) && locks[k-1].ceiling < c then locks[k-1].ceiling else c
  }

  /** The first lock that has it. */
  function MinCeilingLock(locks: seq<Mutex>, k: nat): (r: Option<nat>)
    requires k <= |locks|
    ensures r.Some? ==> r.value < k
  {
    if k == 0 then None
    else if Locked(locks[k-1]) && locks[k-1].ceiling < MinCeiling(locks, k - 1) then Some(k - 1)
    else MinCeilingLock(locks, k - 1)
  }

  /** `acc` lowered to the dynamic priorities of the queued threads; thread `a` is the one being
      recomputed, so its own entry adds nothing. */
  function Donated(threads: seq<Tcb>, waiters: seq<nat>, a: nat, acc: Word): (r: Word)
    requires Below(waiters, |threads|)
    decreases |waiters|
  {
    if waiters == [] then acc
    else
      var d := Donated(threads, waiters[..|waiters|-1], a, acc);
      var w := waiters[|waiters|-1];
      if w == a then d else Min(d, threads[w].dynPrio)
  }

  /** The priority thread `a` is left with by the locks among the first k that it still holds. */
  function Inherited(threads: seq<Tcb>, locks: seq<Mutex>, k: nat, a: nat): (r: Word)
    requires k <= |locks| && a < |threads|
    requires forall x :: 0 <= x < |locks| ==> Below(locks[x].waiters, |threads|)
  {
    if k == 0 then threads[a].staticPrio
    else
      var d := Inherited(threads, locks, k - 1, a);
      if Locked(locks[k-1]) && locks[k-1].locker == Some(a) then Donated(threads, locks[k-1].waiters, a, d) else d
  }

  function Opened(m: Mutex): (r: Mutex) {
    m.(s := 1, waiters := [], locker := None)
  }

  /** First half of `syscall_unlock`: wake the queue and open the lock. */
  function Release(s: KState, m: nat): (r: KState)
    requires Shape(s) && m < s.defined
    ensures Shape(r) && r.n == s.n
  {
    WokenShape(s, s.locks[m].waiters);
    OpenedShape(s.(threads := Wake(s.threads, s.locks[m].waiters)), m);
    s.(threads := Wake(s.threads, s.locks[m].waiters), locks := s.locks[m := Opened(s.locks[m])])
  }

  lemma WokenShape(s: KState, waiters: seq<nat>)
    requires Shape(s)
    ensures Shape(s.(threads := Wake(s.threads, waiters)))
  {
    var th := Wake(s.threads, waiters);
    forall i | 0 <= i < |th| ensures PendingInRange(th[i], s.defined) {
      assert PendingInRange(s.threads[i], s.defined);
    }
  }

  lemma OpenedShape(s: KState, m: nat)
    requires Shape(s) && m < s.defined
    ensures Shape(s.(locks := s.locks[m := Opened(s.locks[m])]))
  {
  }

  /** Second half: recompute the ceiling, its lock, and the active thread's dynamic priority. */
  function Recompute(s: KState): (r: KState)
    requires Shape(s)
    ensures Shape(r) && r.n == s.n
  {
    assert forall x :: 0 <= x < |s.locks| ==> LockInRange(s.locks[x], s.n);
    assert PendingInRange(s.threads[s.active], s.defined);
    var d := Inherited(s.threads, s.locks, s.defined, s.active);
    s.(threads := s.threads[s.active := s.threads[s.active].(dynPrio := d, state := Ready)],
       ceiling := MinCeiling(s.locks, s.defined), top := MinCeilingLock(s.locks, s.defined), pendsv := true)
  }

  /** `syscall_unlock`. */
  function Unlock(s: KState, m: nat): (r: KState)
    requires Shape(s) && m < s.defined
    ensures Shape(r) && r.n == s.n
  {
    if !Locked(s.locks[m]) then s else Recompute(Release(s, m))
  }

  /** The loop of `syscall_thread_end`: unlock everything the active thread holds from lock k on. */
  function ReleaseFrom(s: KState, k: nat): (r: KState)
    requires Shape(s) && k <= s.defined
    ensures Shape(r) && r.n == s.n && r.defined == s.defined && r.active == s.active
    decreases s.defined - k
  {
    if k == s.defined then s
    else ReleaseFrom(if s.locks[k].locker == Some(s.active) then Unlock(s, k) else s, k + 1)
  }

  function Utilization(th: Tcb): (r: real)
  {
    if th.t == 0 then 0.0 else (th.c as real) / (th.t as real)
  }

  /** The end of `syscall_thread_end`: the control block becomes defunct. */
  function Retire(s: KState): (r: KState)
    requires Shape(s)
    ensures Shape(r) && r.n == s.n
  {
    var th := s.threads[s.active];
    assert PendingInRange(th, s.defined);
    s.(threads := SetState(s.threads, s.active, Defunct),
       numActive := (s.numActive + 255) % 256,
       utilization := s.utilization - Utilization(th), pendsv := true)
  }

  /** `syscall_thread_end`. */
  function End(s: KState): (r: KState)
    requires Shape(s)
    ensures Shape(r) && r.n == s.n
  {
    if s.active == s.n then s else Retire(ReleaseFrom(s, 0))
  }

  /** The test in the loop of `syscall_lock`, without the attempt on the semaphore. */
  predicate Admits(s: KState)
    requires Shape(s)
  {
    || s.threads[s.active].dynPrio < s.ceiling
    || (s.top.Some? && s.locks[s.top.value].locker == Some(s.active))
  }

  function Acquire(s: KState, m: nat): (r: KState)
    requires Shape(s) && m < s.defined && s.active < s.n
    ensures Shape(r) && r.n == s.n
  {
    assert LockInRange(s.locks[m], s.n);
    var higher := s.locks[m].ceiling < s.ceiling;
    s.(locks := s.locks[m := s.locks[m].(s := 0, locker := Some(s.active))],
       threads := s.threads[s.active := s.threads[s.active].(pending := None)],
       ceiling := if higher then s.locks[m].ceiling else s.ceiling,
       top := if higher then Some(m) else s.top)
  }

  /** Queue thread w on lock m. */
  function Enqueue(locks: seq<Mutex>, m: nat, w: nat): (r: seq<Mutex>)
    requires m < |locks|
    ensures |r| == |locks|
  {
    locks[m := locks[m].(waiters := locks[m].waiters + [w])]
  }

  /** Lower the priority value of thread p to v if v is more urgent. */
  function Donate(threads: seq<Tcb>, p: nat, v: Word): (r: seq<Tcb>)
    requires p < |threads|
    ensures |r| == |threads|
  {
    threads[p := threads[p].(dynPrio := Min(threads[p].dynPrio, v))]
  }

  /** The lock whose queue a refused request for m joins. */
  function JoinedQueue(s: KState, m: nat): (r: nat)
    requires Shape(s) && m < s.defined && (Locked(s.locks[m]) || s.top.Some?)
    ensures r < s.defined
  {
    if Locked(s.locks[m]) then m else s.top.value
  }

  /** The request for m is refused while the queue it joins has no place left: the write would go past the end
      of `blocked_threads`, into the counter behind it. */
  predicate Overruns(s: KState, m: nat)
    requires Shape(s) && m < s.defined && s.active < s.n
  {
    && !(Admits(s) && s.locks[m].s != 0)
    && (Locked(s.locks[m]) || s.top.Some?)
    && |s.locks[JoinedQueue(s, m)].waiters| >= MAX_NUM_THREADS
  }

  lemma SuspendedShape(s: KState, m: nat, th: seq<Tcb>)
    requires Shape(s) && m < s.defined && |th| == |s.threads|
    requires forall i :: 0 <= i < |th| ==>
               th[i].pending == if i == s.active then Some(m) else s.threads[i].pending
    ensures Shape(s.(threads := th))
  {
    forall i | 0 <= i < |th| ensures PendingInRange(th[i], s.defined) {
      assert PendingInRange(s.threads[i], s.defined);
    }
  }

  lemma EnqueuedShape(s: KState, x: nat)
    requires Shape(s) && x < s.defined && s.active < s.n
    ensures Shape(s.(locks := Enqueue(s.locks, x, s.active)))
  {
    assert LockInRange(s.locks[x], s.n);
    var r := s.(locks := Enqueue(s.locks, x, s.active));
    assert LockInRange(r.locks[x], r.n);
    forall y | 0 <= y < |r.locks| ensures LockInRange(r.locks[y], r.n) { assert LockInRange(s.locks[y], s.n); }
  }

  /** The failing pass of the loop. The priority is passed on only when m itself is locked. */
  function Block(s: KState, m: nat): (r: KState)
    requires Shape(s) && m < s.defined && s.active < s.n
    ensures Shape(r) && r.n == s.n
  {
    assert LockInRange(s.locks[m], s.n);
    var th := s.threads[s.active := s.threads[s.active].(state := Blocked, pending := Some(m))];
    SuspendedShape(s, m, th);
    if Locked(s.locks[m]) then
      var donated := if s.locks[m].locker.Some?
                     then Donate(th, s.locks[m].locker.value, s.threads[s.active].dynPrio) else th;
      SuspendedShape(s, m, donated);
      EnqueuedShape(s.(threads := donated), m);
      s.(threads := donated, locks := Enqueue(s.locks, m, s.active), pendsv := true)
    else if s.top.Some? then
      EnqueuedShape(s.(threads := th), s.top.value);
      s.(threads := th, locks := Enqueue(s.locks, s.top.value, s.active), pendsv := true)
    else s.(threads := th, pendsv := true)
  }

  /** One pass of the loop in `syscall_lock`; the thread resumes here each time it is scheduled again. */
  function Attempt(s: KState, m: nat): (r: KState)
    requires Shape(s) && m < s.defined && s.active < s.n
    ensures Shape(r) && r.n == s.n
  {
    if Admits(s) && s.locks[m].s != 0 then Acquire(s, m) else Block(s, m)
  }

  /** `syscall_lock` up to its first acquisition, block or forced end. */
  function Lock(s: KState, m: nat): (r: KState)
    requires Shape(s) && m < s.defined && s.active < s.n
    ensures Shape(r) && r.n == s.n
  {
    if s.threads[s.active].staticPrio < s.locks[m].ceiling then End(s)
    else if s.locks[m].locker == Some(s.active) then s
    else Attempt(s, m)
  }

  /** `syscall_thread_yield`. */
  function Yield(s: KState): (r: KState)
    requires Shape(s)
    ensures Shape(r) && r.n == s.n
  {
    assert PendingInRange(s.threads[s.active], s.defined);
    s.(threads := if s.active != s.n then SetState(s.threads, s.active, Waiting) else s.threads, pendsv := true)
  }

  /** `syscall_lock_init`: only main may, and only while requested locks remain. */
  function LockInit(s: KState, prio: Word): (r: KState)
    requires Shape(s)
    ensures Shape(r) && r.n == s.n
  {
    if s.defined >= s.numLocks || s.active != s.n + 1 then s
    else
      var lk := s.locks[s.defined := Mutex(1, None, [], MAX, prio)];
      assert forall i :: 0 <= i < |s.threads| ==> PendingInRange(s.threads[i], s.defined);
      s.(locks := lk, defined := s.defined + 1)
  }
}
