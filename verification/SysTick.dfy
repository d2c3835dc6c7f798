/** The tick: dividing the base clock into scheduling periods. */
module SysTick {
  import opened Words
  import opened Arithmetic

  const SYSTICK_BASE_FREQUENCY := 64_000_000
  const MAX_24_BIT := 0x00FF_FFFF
  const SYSTICK_INVALID_ARG := -6

  /** The reload value before it is divided into bins. */
  function FullReload(freq: Word): (r: int)
    requires freq > 0
  {
    SYSTICK_BASE_FREQUENCY / freq - 1
  }

  /** The least number of bins, starting from b, whose reload value fits the 24-bit register. */
  function BinsFrom(reload: nat, b: nat): (r: nat)
    requires b > 0
    ensures r >= b && reload / r <= MAX_24_BIT
    decreases if reload / b > MAX_24_BIT then reload + 1 - b else 0
  {
    if reload / b > MAX_24_BIT then
      BinTooLarge(reload, b);
      BinsFrom(reload, b + 1)
    else b
  }

  lemma BinTooLarge(reload: nat, b: nat)
    requires b > 0 && reload / b > MAX_24_BIT
    ensures b < reload
  {
    DivBounds(reload, b);
    DivAtLeastTwo(reload, b);
  }

  class Timer {
    var wrapAround: nat       // timer_wrap_around
    var wrapComparison: nat   // timer_wrap_comparison
    var reload: nat           // SYST_RVR
    var enabled: bool         // SYST_CSR
    var preempt: bool         // preemption_flag, as last set by the handler

    constructor () {
      wrapAround, wrapComparison, reload, enabled, preempt := 0, 0, 0, false, false;
    }

    /** `systick_configure`: the counter is left disabled when the value does not fit. */
    method Configure(value: Word) returns (rv: int)
      modifies this
      ensures rv == if value > MAX_24_BIT then SYSTICK_INVALID_ARG else 0
      ensures enabled == (rv == 0)
      ensures reload == if rv == 0 then value else old(reload)
      ensures wrapAround == old(wrapAround) && wrapComparison == old(wrapComparison) && preempt == old(preempt)
    {
      enabled := false;
      if value > MAX_24_BIT {
        return SYSTICK_INVALID_ARG;
      }
      reload := value;
      enabled := true;
      return 0;
    }

    /** Counting is on, and `wrapComparison` periods of a 24-bit counter that counts from `reload` to 0 last as long as
        a slot at this frequency, or less than `wrapComparison` cycles longer. */
    ghost predicate TicksAt(freq: Word)
      requires freq > 0
      reads this
    {
      && enabled && wrapAround == 1 && 1 <= wrapComparison <= 4 && reload <= 0x00FF_FFFF
      && var slot := 64_000_000 / freq;
         slot <= wrapComparison * (reload + 1) < slot + wrapComparison
    }

    /** The clock part of `syscall_multitask_start`: find the bins, then configure. */
    method Divide(freq: Word) returns (rv: int)
      requires 0 < freq <= SYSTICK_BASE_FREQUENCY
      modifies this
      ensures rv == 0 && TicksAt(freq) && preempt == old(preempt)
      ensures var bins := BinsFrom(FullReload(freq), 1);
              wrapAround == 1 && wrapComparison == bins && reload == FullReload(freq) / bins
    {
      ReloadRange(freq);
      var full: int := SYSTICK_BASE_FREQUENCY / freq - 1;
      var bins := 1;
      while full / bins > MAX_24_BIT
        invariant bins > 0 && BinsFrom(full, bins) == BinsFrom(full, 1) && preempt == old(preempt)
        decreases if full / bins > MAX_24_BIT then full + 1 - bins else 0
      {
        BinTooLarge(full, bins);
        bins := bins + 1;
      }
      wrapAround := 1;
      wrapComparison := bins;
      DivBounds(full, bins);
      rv := Configure(full / bins);
      FourBins(freq);
      PeriodAccurate(freq);
    }

    /** `SysTick_Handler`. */
    method Handler() returns (fires: bool)
      modifies this`wrapAround, this`preempt
      ensures fires == (old(wrapAround) == wrapComparison)
      ensures wrapAround == NextWrap(old(wrapAround), wrapComparison)
      ensures preempt == (old(preempt) || fires)
    {
      if wrapAround == wrapComparison {
        wrapAround := 1;
        preempt := true;
        return true;
      } else {
        wrapAround := (wrapAround + 1) % 256;
        return false;
      }
    }
  }

  lemma ReloadRange(freq: Word)
    requires 0 < freq <= SYSTICK_BASE_FREQUENCY
    ensures 0 <= FullReload(freq) < SYSTICK_BASE_FREQUENCY
  {
    DivBounds(SYSTICK_BASE_FREQUENCY, freq);
  }

  // ----- the division

  /** A SysTick period lasts reload + 1 cycles, a scheduling period `bins` of them. */
  function PeriodCycles(freq: Word): (r: int)
    requires 0 < freq <= SYSTICK_BASE_FREQUENCY
  {
    ReloadRange(freq);
    var bins := BinsFrom(FullReload(freq), 1);
    bins * (FullReload(freq) / bins + 1)
  }

  /** At most four bins are ever needed, and the reload value then fits the register. */
  lemma FourBins(freq: Word)
    requires 0 < freq <= SYSTICK_BASE_FREQUENCY
    ensures 0 <= FullReload(freq)
    ensures var bins := BinsFrom(FullReload(freq), 1);
            1 <= bins <= 4 && 0 <= FullReload(freq) / bins <= MAX_24_BIT
  {
    ReloadRange(freq);
    var full := FullReload(freq);
    assert BinsFrom(full, 4) == 4;
    assert BinsFrom(full, 3) <= 4;
    assert BinsFrom(full, 2) <= 4;
    DivBounds(full, BinsFrom(full, 1));
  }

  /** The scheduling period is the requested one, at most `bins - 1` cycles too long. */
  lemma PeriodAccurate(freq: Word)
    requires 0 < freq <= SYSTICK_BASE_FREQUENCY
    ensures 0 <= FullReload(freq)
    ensures var wanted := SYSTICK_BASE_FREQUENCY / freq;
            wanted <= PeriodCycles(freq) < wanted + BinsFrom(FullReload(freq), 1)
  {
    FourBins(freq);
    var full := FullReload(freq);
    var bins := BinsFrom(full, 1);
    Distribute(bins, full / bins);
    DivBounds(full, bins);
  }

  /** The counter actually counts (a reload of zero stops it) exactly for frequencies up to half the base. */
  lemma ReloadPositiveIff(freq: Word)
    requires 0 < freq <= SYSTICK_BASE_FREQUENCY
    ensures 0 <= FullReload(freq)
    ensures FullReload(freq) / BinsFrom(FullReload(freq), 1) > 0 <==> freq <= SYSTICK_BASE_FREQUENCY / 2
  {
    FourBins(freq);
    var full := FullReload(freq);
    var bins := BinsFrom(full, 1);
    DivAtLeastTwo(SYSTICK_BASE_FREQUENCY, freq);
    DivBounds(full, bins);
    assert full / 1 == full;
    assert full <= MAX_24_BIT ==> bins == 1;
  }

  // ----- the handler over runs

  function NextWrap(w: nat, bins: nat): (r: nat) {
    if w == bins then 1 else (w + 1) % 256
  }

  /** The wrap counter after k calls of the handler. */
  function WrapAfter(bins: nat, k: nat): (r: nat) {
    if k == 0 then 1 else NextWrap(WrapAfter(bins, k - 1), bins)
  }

  /** Whether call number k (counted from 1) raises preemption. */
  predicate Fires(bins: nat, k: nat)
    requires k > 0
  {
    WrapAfter(bins, k - 1) == bins
  }

  lemma {:induction false} WrapClosedForm(bins: nat, k: nat)
    requires 1 <= bins <= 255
    ensures WrapAfter(bins, k) == k % bins + 1
  {
    if k == 0 {
      DivSmall(0, bins);
    } else {
      WrapClosedForm(bins, k - 1);
      WrapStep(bins, k - 1);
    }
  }

  lemma WrapStep(bins: nat, k: nat)
    requires 1 <= bins <= 255
    ensures NextWrap(k % bins + 1, bins) == (k + 1) % bins + 1
    ensures k % bins + 1 == bins <==> (k + 1) % bins == 0
  {
    DivBounds(k, bins);
    if bins > 1 { DivStep(k, bins); }
  }

  /** After configuration the handler raises preemption on exactly every bins-th call, for ever. */
  lemma FiresEveryBins(bins: nat, k: nat)
    requires 1 <= bins <= 255 && k > 0
    ensures Fires(bins, k) <==> k % bins == 0
  {
    WrapClosedForm(bins, k - 1);
    WrapStep(bins, k - 1);
  }
}
