/** Fixed-point ratios of RT runtime to period, and the system-wide limit on them. */
module RtRatio {
  import opened Words

  const RUNTIME_INF := U64_RANGE - 1
  const NSEC_PER_USEC := 1000
  const EINVAL := 22
  const EBUSY := 16

  /** `1 << 20` stands for a runtime equal to the period. */
  const FULL := 0x10_0000

  /** `to_ratio`: a `u64` shift and division, returned as an `unsigned long`. */
  function ToRatio(period: nat, runtime: nat): nat {
    if runtime == RUNTIME_INF then FULL
    else if period == 0 then 0   // a division by zero; every caller has a positive period
    else Wrap32(Quotient(Wrap64(runtime * FULL), period))
  }

  /** `sysctl_sched_rt_period` (unsigned) and `sysctl_sched_rt_runtime` (signed, negative for no limit), in us. */
  datatype Setting = Setting(sysctlPeriod: nat, sysctlRuntime: int, userSched: bool) {
    function GlobalPeriod(): nat {
      sysctlPeriod * NSEC_PER_USEC
    }

    function GlobalRuntime(): nat {
      if sysctlRuntime < 0 then RUNTIME_INF else sysctlRuntime * NSEC_PER_USEC
    }

    function GlobalRatio(): nat {
      ToRatio(GlobalPeriod(), GlobalRuntime())
    }

    /** Both sysctls hold C integers. */
    predicate Fits() {
      sysctlPeriod < ULONG_RANGE && sysctlRuntime < ULONG_RANGE / 2
    }
  }

  /** Runtimes below this bound survive the 20-bit shift; every runtime set in microseconds is below it. */
  const SHIFT_BOUND := U64_RANGE / FULL

  /**
   With a runtime within the period, the ratio is `floor(runtime * 2^20 / period)` if and only
   if the runtime is below 2^44 ns. (The infinite runtime is treated apart.)
   */
  lemma RatioExactIffShiftFits(period: nat, runtime: nat)
    requires 0 < period < U64_RANGE && runtime <= period && runtime != RUNTIME_INF
    ensures ToRatio(period, runtime) == Quotient(runtime * FULL, period) <==> runtime < SHIFT_BOUND
  {
    var x, w := runtime * FULL, Wrap64(runtime * FULL);
    RatioAtMostFull(period, runtime);
    QuotientMonotone(w, x, period);
    MulLe(runtime, period, FULL);
    QuotientAtMost(x, period, FULL);
    if runtime >= SHIFT_BOUND {
      assert w + U64_RANGE <= x;
      if Quotient(w, period) >= Quotient(x, period) { MulLe(Quotient(x, period), Quotient(w, period), period); }
    }
  }

  /** A runtime within the period never gives more than the full ratio, even when the shift wraps. */
  lemma RatioAtMostFull(period: nat, runtime: nat)
    requires runtime <= period || runtime == RUNTIME_INF
    ensures ToRatio(period, runtime) <= FULL
    ensures period > 0 && runtime != RUNTIME_INF ==>
              ToRatio(period, runtime) == Quotient(Wrap64(runtime * FULL), period)
  {
    if period > 0 && runtime != RUNTIME_INF {
      MulLe(runtime, period, FULL);
      QuotientAtMost(Wrap64(runtime * FULL), period, FULL);
    }
  }

  /** A positive period, and a runtime within it or infinite. */
  predicate ValidSetting(setting: Setting) {
    setting.sysctlPeriod > 0
    && (setting.GlobalRuntime() <= setting.GlobalPeriod() || setting.GlobalRuntime() == RUNTIME_INF)
  }

  /**
   A nonnegative setting that fits its C integers has an exact ratio: microseconds stay below the
   shift bound.
   */
  lemma GlobalRatioIsExact(setting: Setting)
    requires setting.Fits() && ValidSetting(setting) && 0 <= setting.sysctlRuntime
    ensures setting.GlobalRatio() == Quotient(setting.sysctlRuntime * 0x10_0000, setting.sysctlPeriod)
  {
    RatioExactIffShiftFits(setting.GlobalPeriod(), setting.GlobalRuntime());
    var q := Quotient(setting.sysctlRuntime * 0x10_0000, setting.sysctlPeriod);
    Thousandfold(setting.sysctlRuntime * 0x10_0000, setting.sysctlPeriod, q);
    QuotientIs(setting.GlobalRuntime() * FULL, setting.GlobalPeriod(), q);
  }

  lemma Thousandfold(x: nat, y: nat, q: nat)
    requires q * y <= x < q * y + y
    ensures q * (y * 1000) <= x * 1000 < q * (y * 1000) + y * 1000
  {
    assert q * (y * 1000) == q * y * 1000;
  }

  /** No limit, for a group or for all, is the full ratio. */
  lemma InfiniteIsFull(setting: Setting, period: nat)
    ensures ToRatio(period, RUNTIME_INF) == 0x10_0000
    ensures setting.sysctlRuntime < 0 ==> setting.GlobalRatio() == 0x10_0000
  {
  }

  /** The check of a group gets to its ratios, and a period there is zero. */
  predicate DividesByZero(setting: Setting, period: nat, runtime: nat, hasRtTasks: bool) {
    && (runtime <= period || runtime == RUNTIME_INF)
    && !(setting.sysctlRuntime >= 0 && runtime == 0 && hasRtTasks)
    && ((period == 0 && runtime != RUNTIME_INF)
        || (setting.GlobalPeriod() == 0 && setting.GlobalRuntime() != RUNTIME_INF))
  }

  /** A valid setting never allows more than the full ratio. */
  lemma ValidSettingIsFull(setting: Setting)
    requires ValidSetting(setting)
    ensures setting.GlobalRatio() <= FULL
  {
    RatioAtMostFull(setting.GlobalPeriod(), setting.GlobalRuntime());
  }
}
