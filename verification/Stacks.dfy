/** Power-of-two stack slices for the threads, and the memory protection regions that guard them. */
module Stacks {
  import opened Words
  import opened KernelState
  import Arithmetic

  const MAX_TOTAL_THREAD_STACK_SIZE := 32768

  // ----- powers of two

  function Pow2(k: nat): (p: nat)
    ensures p >= 1
  {
    if k == 0 then 1 else 2 * Pow2(k - 1)
  }

  lemma {:induction false} Pow2Splits(a: nat, b: nat)
    ensures Pow2(a + b) == Pow2(a) * Pow2(b)
    decreases a
  {
    if a > 0 {
      Pow2Splits(a - 1, b);
      var x, y := Pow2(a - 1), Pow2(b);
      assert (2 * x) * y == 2 * (x * y);
    }
  }

  lemma {:induction false} Pow2Less(a: nat, b: nat)
    requires a < b
    ensures 2 * Pow2(a) <= Pow2(b)
    decreases b
  {
    if a < b - 1 { Pow2Less(a, b - 1); }
  }

  lemma Pow2AtMost(a: nat, b: nat)
    requires Pow2(a) <= Pow2(b)
    ensures a <= b
  {
    if a > b { Pow2Less(b, a); }
  }

  lemma Pow2Values()
    ensures Pow2(0) == 1 && Pow2(1) == 2 && Pow2(3) == 8 && Pow2(4) == 16 && Pow2(5) == 32 && Pow2(15) == 32768
    ensures Pow2(24) == 0x100_0000 && Pow2(28) == 0x1000_0000 && Pow2(31) == 0x8000_0000 && Pow2(32) == LIMIT
  {
    assert Pow2(5) == 32;
    assert Pow2(10) == 1024;
    assert Pow2(15) == 32768;
    assert Pow2(20) == 0x10_0000;
    assert Pow2(25) == 0x200_0000;
    assert Pow2(30) == 0x4000_0000;
  }

  // ----- bits of natural numbers

  /** C's `&` and `|`. */
  function And(a: nat, b: nat): nat {
    if a == 0 then 0 else 2 * And(a / 2, b / 2) + if a % 2 == 1 && b % 2 == 1 then 1 else 0
  }

  function Or(a: nat, b: nat): nat {
    if a == 0 then b else 2 * Or(a / 2, b / 2) + if a % 2 == 1 || b % 2 == 1 then 1 else 0
  }

  /** C's `<<`, where no bit is lost. */
  function Shl(a: nat, k: nat): nat { a * Pow2(k) }

  lemma {:induction false} OrZero(a: nat)
    ensures Or(a, 0) == a
  {
    if a > 0 { OrZero(a / 2); }
  }

  /** Combining values that occupy different bits is adding them. */
  lemma {:induction false} OrIsSum(high: nat, low: nat, k: nat)
    requires low < Pow2(k)
    ensures Or(Shl(high, k), low) == Shl(high, k) + low
    decreases k
  {
    if k == 0 {
      OrZero(high);
    } else {
      OrIsSum(high, low / 2, k - 1);
      ShlStep(high, k);
    }
  }

  lemma ShlStep(a: nat, k: nat)
    requires k > 0
    ensures Shl(a, k) == 2 * Shl(a, k - 1)
  {
    var p := Pow2(k - 1);
    assert a * (2 * p) == 2 * (a * p);
  }

  /** A mask of k ones takes the remainder. */
  lemma {:induction false} AndIsMod(x: nat, k: nat)
    ensures And(x, Pow2(k) - 1) == x % Pow2(k)
    decreases k
  {
    if k == 0 {
      AndZero(x);
    } else {
      AndIsMod(x / 2, k - 1);
      AndStep(x, Pow2(k - 1));
    }
  }

  lemma AndUnfolds(x: nat, m: nat)
    ensures And(x, 2 * m + 1) == 2 * And(x / 2, m) + x % 2 && And(x, 2 * m) == 2 * And(x / 2, m)
  {
    assert (2 * m + 1) / 2 == m && (2 * m) / 2 == m;
  }

  lemma AndStep(x: nat, p: nat)
    requires p > 0 && And(x / 2, p - 1) == (x / 2) % p
    ensures And(x, 2 * p - 1) == x % (2 * p)
  {
    hide And;
    AndUnfolds(x, p - 1);
    Arithmetic.ModDouble(x, p);
  }

  lemma {:induction false} AndZero(a: nat)
    ensures And(a, 0) == 0
  {
    if a > 0 { AndZero(a / 2); }
  }

  /** A mask of ones above k zeros clears the low bits. */
  lemma {:induction false} AndClears(x: nat, ones: nat, k: nat)
    requires x < Pow2(ones + k)
    ensures And(x, Shl(Pow2(ones) - 1, k)) == x - x % Pow2(k)
    decreases k
  {
    if k == 0 {
      AndIsMod(x, ones);
      Arithmetic.DivSmall(x, Pow2(ones));
    } else {
      AndClears(x / 2, ones, k - 1);
      ShlStep(Pow2(ones) - 1, k);
      AndUnfolds(x, Shl(Pow2(ones) - 1, k - 1));
      Arithmetic.ModDouble(x, Pow2(k - 1));
      hide And, Shl;
    }
  }

  // ----- the exponent of a size

  /** The least exponent whose power of two reaches n. */
  ghost predicate IsCeilLog2(n: nat, e: nat) {
    n <= Pow2(e) && forall k: nat :: k < e ==> Pow2(k) < n
  }

  /** That exponent, found by halving. */
  function CeilLog2(n: nat): (e: nat)
    ensures IsCeilLog2(n, e)
  {
    if n <= 1 then 0
    else
      var e := CeilLog2((n + 1) / 2) + 1;
      assert forall k: nat :: k < e ==> Pow2(k) < n by {
        forall k: nat | k < e
          ensures Pow2(k) < n
        {
          if k > 0 { assert Pow2(k - 1) < (n + 1) / 2; }
        }
      }
      e
  }

  lemma CeilLog2Unique(n: nat, d: nat, e: nat)
    requires IsCeilLog2(n, d) && IsCeilLog2(n, e)
    ensures d == e
  {
  }

  lemma CeilLog2AtMost(n: nat, d: nat)
    ensures CeilLog2(n) <= d <==> n <= Pow2(d)
  {
    var e := CeilLog2(n);
    if e < d { Pow2Less(e, d); }
  }

  /** `ceil_log2`. Its loop ends exactly when some shift below 32 reaches n. */
  method CeilLog2Loop(n: Word) returns (cl2n: nat)
    requires n <= 0x8000_0000
    ensures cl2n <= 31 && cl2n == CeilLog2(n)
  {
    Pow2Values();
    cl2n := 0;
    while n > Pow2(cl2n)
      invariant cl2n <= 31
      invariant forall k: nat :: k < cl2n ==> Pow2(k) < n
      decreases 31 - cl2n
    {
      if cl2n < 31 { Pow2Less(cl2n, 31); }
      cl2n := cl2n + 1;
    }
    CeilLog2Unique(n, cl2n, CeilLog2(n));
  }

  /** The bound on n is not of the model's making: above it no 32-bit power of two is large enough. */
  lemma SomeShiftReachesIff(n: Word)
    ensures (exists k: nat :: k < 32 && n <= Pow2(k)) <==> n <= 0x8000_0000
  {
    Pow2Values();
    if k: nat :| k < 32 && n <= Pow2(k) {
      if k < 31 { Pow2Less(k, 31); }
    }
    assert n <= 0x8000_0000 ==> 31 < 32 && n <= Pow2(31);
  }

  // ----- the request

  datatype RequestCode = Success | InvalidParams | Repeated

  /** The addresses from limit up to, not including, base. */
  datatype Slice = Slice(limit: Word, base: Word) {
    predicate Contains(addr: int) { limit <= addr < base }
  }

  function Wrap(x: int): Word { x % LIMIT }

  function Times(k: int, size: int): int { k * size }

  /** The size every stack gets. */
  function Aligned(stackBytes: nat): nat { Pow2(CeilLog2(stackBytes)) }

  /** The test on the parameters, with its 32-bit product. It is reached only for sizes up to 2^31: above that
      the loop of `ceil_log2` does not end. */
  predicate Accepts(n: Word, stackBytes: Word, locks: Word)
    requires stackBytes <= 0x8000_0000
  {
    1 <= n <= MAX_NUM_THREADS && Wrap(Times(n + 1, Aligned(stackBytes))) <= MAX_TOTAL_THREAD_STACK_SIZE
    && locks <= MAX_USER_LOCKS
  }

  /** What the test is for: the stacks of n threads and idle fit in 32 kB. */
  predicate FitsInMemory(n: Word, stackBytes: Word) {
    Times(n + 1, Aligned(stackBytes)) <= MAX_TOTAL_THREAD_STACK_SIZE
  }

  /** The slice of thread i, counted down from the top of the stack memory. */
  function SliceAt(top: Word, i: nat, size: nat): Slice {
    Slice(Wrap(top - Times(i + 1, size)), Wrap(top - Times(i, size)))
  }

  class StackTable {
    const process: array<Slice>
    const main: array<Slice>
    var requested: bool

    ghost predicate Valid()
      reads this
    {
      process != main && process.Length == MAX_NUM_THREADS + 2 == main.Length
    }

    /** The stack partition of `syscall_multitask_request`. */
    method Request(n: Word, stackBytes: Word, locks: Word, userTop: Word, kernelTop: Word)
      returns (code: RequestCode)
      requires Valid() && stackBytes <= 0x8000_0000
      modifies this`requested, process, main
      ensures code == (if old(requested) then Repeated
                       else if Accepts(n, stackBytes, locks) then Success else InvalidParams)
      ensures requested <==> old(requested) || code == Success
      ensures code != Success ==> process[..] == old(process[..]) && main[..] == old(main[..])
      ensures code == Success ==>
                && (forall i :: 0 <= i <= n ==> process[i] == SliceAt(userTop, i, Aligned(stackBytes)))
                && (forall i :: 0 <= i <= n ==> main[i] == SliceAt(kernelTop, i, Aligned(stackBytes)))
                && process[n+1..] == old(process[n+1..]) && main[n+1..] == old(main[n+1..])
    {
      hide Times, Wrap, Pow2, CeilLog2, IsCeilLog2;
      if requested {
        return Repeated;
      }
      var exponent := CeilLog2Loop(stackBytes);
      var aligned := Pow2(exponent);
      var plusIdle := Inc(n);
      if n > MAX_NUM_THREADS || n == 0 || Wrap(Times(plusIdle, aligned)) > MAX_TOTAL_THREAD_STACK_SIZE
         || locks > MAX_USER_LOCKS {
        return InvalidParams;
      }
      var i: nat := 0;
      while i < plusIdle
        invariant i <= n + 1
        invariant forall k :: 0 <= k < i ==> process[k] == SliceAt(userTop, k, aligned)
        invariant forall k :: 0 <= k < i ==> main[k] == SliceAt(kernelTop, k, aligned)
        invariant process[n+1..] == old(process[n+1..]) && main[n+1..] == old(main[n+1..])
      {
        var psp := Wrap(userTop - Times(i, aligned));
        var msp := Wrap(kernelTop - Times(i, aligned));
        LimitBelow(userTop, i, aligned);
        LimitBelow(kernelTop, i, aligned);
        process[i] := Slice(Wrap(psp - aligned), psp);
        main[i] := Slice(Wrap(msp - aligned), msp);
        i := i + 1;
      }
      requested := true;
      return Success;
    }
  }

  lemma TimesStep(i: int, size: int)
    ensures Times(i + 1, size) == Times(i, size) + size
  {
  }

  lemma TimesSmall(size: int)
    ensures Times(0, size) == 0 && Times(1, size) == size && Times(2, size) == 2 * size
    ensures Times(15, size) == 15 * size
  {
  }

  lemma TimesLess(i: int, j: int, size: nat)
    requires i <= j
    ensures Times(i, size) <= Times(j, size)
  {
    assert (j - i) * size == j * size - i * size;
    if i < j && size > 0 { Arithmetic.MulAtLeast(size, j - i); }
  }

  lemma LimitBelow(top: Word, i: nat, size: nat)
    ensures Wrap(Wrap(top - Times(i, size)) - size) == Wrap(top - Times(i + 1, size))
  {
    TimesStep(i, size);
  }

  /** The bounds on the real product of an accepted thread count. */
  lemma TotalBounds(n: Word, size: nat)
    requires 1 <= n <= MAX_NUM_THREADS
    ensures 2 * size <= Times(n + 1, size) <= 15 * size
  {
    hide Times;
    TimesSmall(size);
    TimesLess(2, n + 1, size);
    TimesLess(n + 1, 15, size);
  }

  /** The 32-bit product hides an oversized request exactly when more than 2^28 bytes a stack are asked for:
      an accepted request fits in 32 kB if and only if it asks for no more than that. */
  lemma AcceptedFitsIff(n: Word, stackBytes: Word, locks: Word)
    requires stackBytes <= 0x8000_0000 && Accepts(n, stackBytes, locks)
    ensures FitsInMemory(n, stackBytes) <==> stackBytes <= 0x1000_0000
  {
    hide Times, Pow2, CeilLog2;
    Pow2Values();
    var e := CeilLog2(stackBytes);
    CeilLog2AtMost(stackBytes, 28);
    TotalBounds(n, Pow2(e));
    if e < 28 { Pow2Less(e, 28); }
    if e > 28 { Pow2Less(28, e); }
  }

  /** With 1 to 14 threads and at most 32 locks, and only then, every request that fits is accepted, and one that does
      not is accepted exactly when its product is a multiple of 2^32. */
  lemma AcceptsExactly(n: Word, stackBytes: Word, locks: Word)
    requires stackBytes <= 0x8000_0000
    ensures Accepts(n, stackBytes, locks)
       <==> && 1 <= n <= 14 && locks <= 32
            && (FitsInMemory(n, stackBytes) || Times(n + 1, Aligned(stackBytes)) % LIMIT == 0)
  {
    if 1 <= n <= 14 { ProductAccepted(n, stackBytes); }
  }

  lemma ProductAccepted(n: Word, stackBytes: Word)
    requires 1 <= n <= MAX_NUM_THREADS && stackBytes <= 0x8000_0000
    ensures Wrap(Times(n + 1, Aligned(stackBytes))) <= MAX_TOTAL_THREAD_STACK_SIZE
       <==> FitsInMemory(n, stackBytes) || Times(n + 1, Aligned(stackBytes)) % LIMIT == 0
  {
    hide Times, Pow2, CeilLog2;
    Pow2Values();
    var e := CeilLog2(stackBytes);
    TotalBounds(n, Pow2(e));
    if e <= 28 {
      if e < 28 { Pow2Less(e, 28); }
    } else {
      Pow2Less(28, e);
      Pow2Splits(29, e - 29);
      Pow2Splits(1, 28);
      BigTotal(n + 1, Pow2(e - 29));
    }
  }

  /** From 2^29 on the product is a multiple of 2^29, so is its remainder, and only 0 is small enough. */
  lemma BigTotal(k: nat, d: nat)
    ensures Times(k, 0x2000_0000 * d) % LIMIT <= MAX_TOTAL_THREAD_STACK_SIZE
       <==> Times(k, 0x2000_0000 * d) % LIMIT == 0
  {
    RemainderOfMultiple(d * k);
  }

  lemma RemainderOfMultiple(k: nat)
    ensures (0x2000_0000 * k) % LIMIT == 0x2000_0000 * (k % 8)
  {
    assert 0x2000_0000 * k == LIMIT * (k / 8) + 0x2000_0000 * (k % 8);
  }

  /** An oversized request that is accepted: seven threads with stacks of half a gigabyte. */
  lemma OversizedAccepted()
    ensures Accepts(7, 0x2000_0000, 0) && !FitsInMemory(7, 0x2000_0000)
  {
    HalfGigabyte();
    hide Pow2, CeilLog2;
  }

  lemma HalfGigabyte()
    ensures CeilLog2(0x2000_0000) == 29 && Pow2(29) == 0x2000_0000
  {
    Pow2Values();
    assert Pow2(29) == 0x2000_0000;
    hide CeilLog2, Pow2;
    forall k: nat | k < 29 ensures Pow2(k) < 0x2000_0000 { Pow2Less(k, 29); }
    CeilLog2Unique(0x2000_0000, 29, CeilLog2(0x2000_0000));
  }

  /** Within the stack memory no subtraction wraps. */
  lemma SliceExact(top: Word, n: nat, i: nat, size: nat)
    requires i <= n && Times(n + 1, size) <= MAX_TOTAL_THREAD_STACK_SIZE <= top
    ensures 0 <= Times(i, size) && Times(i + 1, size) == Times(i, size) + size <= MAX_TOTAL_THREAD_STACK_SIZE
    ensures SliceAt(top, i, size) == Slice(top - Times(i + 1, size), top - Times(i, size))
  {
    hide Times;
    TimesSmall(size);
    TimesStep(i, size);
    TimesLess(0, i, size);
    TimesLess(i + 1, n + 1, size);
  }

  /** A request for stacks of no bytes is accepted too, as one of one byte each. */
  lemma ZeroBytesAccepted(n: Word, locks: Word)
    requires 1 <= n <= MAX_NUM_THREADS && locks <= MAX_USER_LOCKS
    ensures Accepts(n, 0, locks) && Aligned(0) == 1
  {
    hide Times;
    TotalBounds(n, 1);
  }

  /** The common size is the least power of two that holds the bytes asked for. */
  lemma AlignedIsLeast(stackBytes: Word, k: nat)
    ensures Aligned(stackBytes) >= stackBytes
    ensures stackBytes <= Pow2(k) ==> Aligned(stackBytes) <= Pow2(k)
  {
    CeilLog2AtMost(stackBytes, k);
    if CeilLog2(stackBytes) < k { Pow2Less(CeilLog2(stackBytes), k); }
  }

  /** The slices of a request that fits: each has the common size, they lie in the 32 kB below the top, and
      no two of them meet. */
  lemma SlicesArePartition(n: Word, stackBytes: Word, locks: Word, top: Word, i: nat, j: nat, addr: int)
    requires stackBytes <= 0x1000_0000 && Accepts(n, stackBytes, locks)
    requires top >= MAX_TOTAL_THREAD_STACK_SIZE && i < j <= n
    ensures var low, high := SliceAt(top, j, Aligned(stackBytes)), SliceAt(top, i, Aligned(stackBytes));
            && low.base - low.limit == high.base - high.limit == Aligned(stackBytes)
            && top - MAX_TOTAL_THREAD_STACK_SIZE <= low.limit < low.base <= high.limit < high.base <= top
            && !(low.Contains(addr) && high.Contains(addr))
  {
    hide Times, SliceAt, Pow2, CeilLog2, Wrap;
    var size := Aligned(stackBytes);
    AcceptedFitsIff(n, stackBytes, locks);
    SliceExact(top, n, i, size);
    SliceExact(top, n, j, size);
    TimesLess(i + 1, j, size);
  }

  // ----- memory protection

  const RO := 2
  const RW := 3

  /** What a pair of region registers means (section B3.5 of the ARMv7-M Architecture Reference Manual): the
      address field of RBAR, and the XN, AP, SIZE and ENABLE fields of RASR. */
  datatype Region = Region(base: Word, sizeLog2: nat, executable: bool, access: nat, enabled: bool) {
    /** What the AP field lets unprivileged code do (Table B3-15 of the same manual). */
    predicate UserReads() { access == 2 || access == 3 || access == 6 || access == 7 }

    predicate UserWrites() { access == 3 }

    /** The hardware compares the address bits above the size. */
    predicate Covers(addr: nat) {
      enabled && addr - addr % Pow2(sizeLog2) == base
    }
  }

  function Decode(rbar: Word, rasr: Word): Region {
    Region(rbar - rbar % 32, rasr / 2 % 32 + 1, rasr / 0x1000_0000 % 2 == 0, rasr / 0x100_0000 % 8, rasr % 2 == 1)
  }

  /** An aligned enabled region covers exactly the addresses from its base to its base plus its size. */
  lemma CoversInterval(r: Region, addr: nat)
    requires r.enabled && r.base % Pow2(r.sizeLog2) == 0
    ensures r.Covers(addr) <==> r.base <= addr < r.base + Pow2(r.sizeLog2)
  {
    var p := Pow2(r.sizeLog2);
    Arithmetic.DivBounds(r.base, p);
    Arithmetic.DivBounds(addr, p);
    if r.base <= addr < r.base + p {
      Arithmetic.DivUnique(addr, p, r.base / p, addr - r.base);
    }
  }

  /** RASR as it is packed. */
  function Pack(xn: nat, ap: nat, size: nat): nat {
    Or(Or(Or(Shl(xn, 28), Shl(ap, 24)), Shl(size, 1)), Shl(1, 0))
  }

  lemma PackIsSum(xn: nat, ap: nat, size: nat)
    requires xn <= 1 && ap <= 7 && size <= 31
    ensures Pack(xn, ap, size) == xn * 0x1000_0000 + ap * 0x100_0000 + size * 2 + 1
  {
    hide Pow2, Or, Shl;
    PackTwo(xn, ap);
    var a := xn * 16 + ap;
    ShlValues(a);
    ShlValues(size);
    Pow2Values();
    OrIsSum(a, Shl(size, 1), 24);
    var b := a * 0x80_0000 + size;
    ShlValues(b);
    ShlValues(1);
    OrIsSum(b, 1, 1);
  }

  lemma PackTwo(xn: nat, ap: nat)
    requires ap <= 7
    ensures Or(Shl(xn, 28), Shl(ap, 24)) == Shl(xn * 16 + ap, 24)
  {
    hide Pow2, Or, Shl;
    ShlValues(xn);
    ShlValues(ap);
    ShlValues(xn * 16 + ap);
    Pow2Values();
    OrIsSum(xn, Shl(ap, 24), 28);
  }

  lemma ShlValues(a: nat)
    ensures Shl(a, 0) == a && Shl(a, 1) == 2 * a && Shl(a, 24) == a * 0x100_0000 && Shl(a, 28) == a * 0x1000_0000
  {
    Pow2Values();
  }

  lemma DecodeSum(base: Word, xn: nat, ap: nat, size: nat)
    requires base % 32 == 0 && xn <= 1 && ap <= 7 && size <= 31
    ensures Decode(base, xn * 0x1000_0000 + ap * 0x100_0000 + size * 2 + 1) == Region(base, size + 1, xn == 0, ap, true)
  {
    var rasr := xn * 0x1000_0000 + ap * 0x100_0000 + size * 2 + 1;
    assert rasr / 2 == xn * 0x800_0000 + ap * 0x80_0000 + size;
    assert rasr / 0x100_0000 == xn * 16 + ap;
    assert rasr / 0x1000_0000 == xn;
  }

  /** The packed register decodes to its fields. */
  lemma DecodePacked(base: Word, xn: nat, ap: nat, size: nat)
    requires base % 32 == 0 && xn <= 1 && ap <= 7 && size <= 31
    ensures Pack(xn, ap, size) < LIMIT
    ensures Decode(base, Pack(xn, ap, size)) == Region(base, size + 1, xn == 0, ap, true)
  {
    hide Pack, Decode;
    PackIsSum(xn, ap, size);
    DecodeSum(base, xn, ap, size);
  }

  /** The masks the register code uses. */
  lemma Masks(region: Word, base: Word, rasr: Word, size: nat)
    requires size <= 31
    ensures And(region, 7) == region % 8 && And(size, 31) == size
    ensures And(base, 0xFFFF_FFE0) == base - base % 32 && And(rasr, 0xFFFF_FFFE) == rasr - rasr % 2
  {
    MaskValues();
    hide And, Pow2, Shl;
    AndIsMod(region, 3);
    AndIsMod(size, 5);
    Arithmetic.DivSmall(size, 32);
    AndClears(base, 27, 5);
    AndClears(rasr, 31, 1);
  }

  lemma MaskValues()
    ensures Pow2(1) == 2 && Pow2(3) == 8 && Pow2(5) == 32 && Pow2(32) == LIMIT
    ensures Shl(Pow2(27) - 1, 5) == 0xFFFF_FFE0 && Shl(Pow2(31) - 1, 1) == 0xFFFF_FFFE
  {
    Pow2Values();
    assert Pow2(27) == 0x800_0000;
  }

  lemma DecodeDisabled(rbar: Word, rasr: Word)
    ensures Decode(rbar, rasr - rasr % 2) == Decode(rbar, rasr).(enabled := false)
  {
    var k := rasr / 2;
    assert rasr - rasr % 2 == 2 * k;
    assert (2 * k) / 0x100_0000 == k / 0x80_0000 == rasr / 0x100_0000;
    assert (2 * k) / 0x1000_0000 == k / 0x800_0000 == rasr / 0x1000_0000;
  }

  class Mpu {
    var rnr: Word
    const rbar: array<Word>         // one RBAR and one RASR for each value of RNR
    const rasr: array<Word>

    ghost predicate Valid()
      reads this
    {
      rbar != rasr && rbar.Length == 8 == rasr.Length
    }

    ghost function At(region: nat): Region
      requires Valid() && region < 8
      reads this, rbar, rasr
    {
      Decode(rbar[region], rasr[region])
    }

    /** `mpu_region_enable`: it succeeds exactly on a region number below 8, a size from 2^5 to 2^32 and a base
        aligned to the size, and the registers then decode to what was asked for. */
    method RegionEnable(region: Word, base: Word, sizeLog2: Word, execute: Word, write: Word) returns (rv: int)
      requires Valid()
      modifies this`rnr, rbar, rasr
      ensures rv == 0 || rv == -1
      ensures rv == 0 <==> region < 8 && 5 <= sizeLog2 <= 32 && base % Pow2(sizeLog2) == 0
      ensures rv == 0 ==> At(region) == Region(base, sizeLog2, execute != 0, if write != 0 then RW else RO, true)
      ensures rv == 0 ==> At(region).UserReads() && (At(region).UserWrites() <==> write != 0)
      ensures forall k: nat :: k < 8 && (k != region || rv != 0) ==> At(k) == old(At(k))
    {
      hide Pow2, Decode, And, Pack;
      if region > 7 {
        return -1;
      }
      if Dec(sizeLog2) > 31 || Dec(sizeLog2) < 4 {
        return -1;
      }
      AndIsMod(base, sizeLog2);
      if And(base, Pow2(sizeLog2) - 1) != 0 {
        return -1;
      }
      MultipleOf32(base, sizeLog2);
      Masks(region, base, 0, sizeLog2 - 1);
      rnr := And(region, 7);
      rbar[rnr] := And(base, 0xFFFF_FFE0);
      var xn := if execute != 0 then 0 else 1;
      var ap := if write != 0 then RW else RO;
      var size := And(sizeLog2 - 1, 31);
      DecodePacked(base, xn, ap, size);
      rasr[rnr] := Pack(xn, ap, size);
      return 0;
    }

    /** `mpu_region_disable`. */
    method RegionDisable(region: Word)
      requires Valid()
      modifies this`rnr, rasr
      ensures At(region % 8) == old(At(region % 8)).(enabled := false)
      ensures forall k: nat :: k < 8 && k != region % 8 ==> At(k) == old(At(k))
    {
      hide Decode, And;
      Masks(region, 0, 0, 0);
      rnr := And(region, 7);
      Masks(0, 0, rasr[rnr], 0);
      DecodeDisabled(rbar[rnr], rasr[rnr]);
      rasr[rnr] := And(rasr[rnr], 0xFFFF_FFFE);
    }

    /** The change of stack regions on a context switch to a thread: regions 6 and 7 cover the two stacks of
        that thread and nothing else, provided they have at least 32 bytes; otherwise they stay off. */
    method SwitchStacks(process: Slice, main: Slice, ghost e: nat)
      requires Valid() && e <= 31 && process.base - process.limit == Pow2(e)
      requires process.limit % Pow2(e) == 0 && main.limit % Pow2(e) == 0
      modifies this`rnr, rbar, rasr
      ensures At(6).enabled == At(7).enabled == (e >= 5)
      ensures e >= 5 ==> At(6) == Region(process.limit, e, false, RW, true)
      ensures e >= 5 ==> At(7) == Region(main.limit, e, false, RW, true)
      ensures e >= 5 ==> At(6).UserWrites() && At(7).UserWrites()
      ensures forall k: nat :: k < 6 ==> At(k) == old(At(k))
    {
      hide Pow2, Decode, CeilLog2, IsCeilLog2;
      RegionDisable(6);
      RegionDisable(7);
      Pow2Values();
      if e < 31 { Pow2Less(e, 31); }
      var size := process.base - process.limit;
      var sizeLog2 := CeilLog2Loop(size);
      LogOfPower(e);
      var user := RegionEnable(6, process.limit, sizeLog2, 0, 1);
      var kernel := RegionEnable(7, main.limit, sizeLog2, 0, 1);
    }
  }

  lemma MultipleOf32(base: Word, sizeLog2: nat)
    requires sizeLog2 >= 5 && base % Pow2(sizeLog2) == 0
    ensures base % 32 == 0
  {
    Pow2Values();
    Pow2Splits(5, sizeLog2 - 5);
    hide Pow2;
    Arithmetic.MultipleOfProduct(base, 32, Pow2(sizeLog2 - 5));
  }

  lemma LogOfPower(e: nat)
    ensures CeilLog2(Pow2(e)) == e
  {
    forall k: nat | k < e ensures Pow2(k) < Pow2(e) { Pow2Less(k, e); }
    CeilLog2Unique(Pow2(e), e, CeilLog2(Pow2(e)));
  }

  /** The linker places the stack memory on a 32 kB boundary, so each slice is aligned to its size. */
  lemma SliceIsAligned(top: Word, i: nat, e: nat)
    requires top % MAX_TOTAL_THREAD_STACK_SIZE == 0 && e <= 15
    requires 0 <= top - Times(i + 1, Pow2(e)) < LIMIT
    ensures SliceAt(top, i, Pow2(e)).limit % Pow2(e) == 0
  {
    hide Pow2, Times, Wrap;
    TopIsAligned(top, e);
    TimesAligned(top, i + 1, Pow2(e));
    WrapSmall(top - Times(i + 1, Pow2(e)));
  }

  lemma TopIsAligned(top: Word, e: nat)
    requires top % MAX_TOTAL_THREAD_STACK_SIZE == 0 && e <= 15
    ensures top % Pow2(e) == 0
  {
    hide Pow2;
    Pow2Values();
    Pow2Splits(e, 15 - e);
    Arithmetic.MultipleOfProduct(top, Pow2(e), Pow2(15 - e));
  }

  lemma TimesAligned(top: nat, k: int, size: nat)
    requires size > 0 && top % size == 0
    ensures (top - Times(k, size)) % size == 0
  {
    Arithmetic.SubMultiple(top, size, k);
  }

  lemma WrapSmall(x: int)
    requires 0 <= x < LIMIT
    ensures Wrap(x) == x
  {
  }

  /** Thread protection, end to end: for every accepted request of 17 to 2^28 bytes a stack, the region set up
      for thread i passes the checks of the protection unit, covers an address exactly when it lies in the
      stack of thread i, and so covers none in the stack of another thread j. */
  lemma StacksAreProtected(n: Word, stackBytes: Word, locks: Word, top: Word, i: nat, j: nat, addr: nat)
    requires 16 < stackBytes <= 0x1000_0000 && Accepts(n, stackBytes, locks)
    requires top > 0 && top % MAX_TOTAL_THREAD_STACK_SIZE == 0 && i <= n && j <= n && i != j
    ensures var e := CeilLog2(stackBytes);
            var mine, other := SliceAt(top, i, Pow2(e)), SliceAt(top, j, Pow2(e));
            var region := Region(mine.limit, e, false, RW, true);
            && 5 <= e <= 15 && mine.base - mine.limit == Pow2(e) && mine.limit % Pow2(e) == 0
            && (region.Covers(addr) <==> mine.Contains(addr))
            && (other.Contains(addr) ==> !region.Covers(addr))
  {
    hide Times, SliceAt, Pow2, CeilLog2, Wrap, Accepts;
    var e := CeilLog2(stackBytes);
    var mine := SliceAt(top, i, Pow2(e));
    Arithmetic.DivBounds(top, 32768);
    if i < j {
      SlicesArePartition(n, stackBytes, locks, top, i, j, addr);
    } else {
      SlicesArePartition(n, stackBytes, locks, top, j, i, addr);
    }
    ExponentRange(n, stackBytes, locks);
    AcceptedFitsIff(n, stackBytes, locks);
    SliceExact(top, n, i, Pow2(e));
    SliceIsAligned(top, i, e);
    CoversInterval(Region(mine.limit, e, false, RW, true), addr);
  }

  lemma ExponentRange(n: Word, stackBytes: Word, locks: Word)
    requires stackBytes <= 0x1000_0000 && Accepts(n, stackBytes, locks)
    ensures CeilLog2(stackBytes) <= 15
    ensures CeilLog2(stackBytes) >= 5 <==> stackBytes > 16
  {
    Pow2Values();
    AcceptedFitsIff(n, stackBytes, locks);
    var e := CeilLog2(stackBytes);
    CeilLog2AtMost(stackBytes, 4);
    hide Times;
    TotalBounds(n, Pow2(e));
    Pow2AtMost(e, 15);
  }
}
