/**
 The decaying average of real-time execution on a runqueue (`rt_avg`, `age_stamp`) and the
 CPU power it leaves to the other classes (`scale_rt_power`).
 */
module RtAverage {
  import opened Words

  const SCHED_LOAD_SCALE := 1024

  /** `sched_avg_period()`: half of `sysctl_sched_time_avg` milliseconds, in nanoseconds. */
  function Period(time_avg_ms: nat): nat {
    time_avg_ms * 500_000
  }

  /** `rq->rt_avg` and `rq->age_stamp`; the clock is passed beside them. */
  datatype Average = Average(rtAvg: nat, ageStamp: nat)

  /** One pass of the decay loop. */
  function Halve(a: Average, period: nat): Average {
    Average(a.rtAvg / 2, a.ageStamp + period)
  }

  /** The decay loop ends at once or advances the stamp. */
  predicate Stops(a: Average, clock: nat, period: nat) {
    period > 0 || clock <= a.ageStamp
  }

  /** The decay loop: halve the average for every whole period that has gone by. */
  function Decayed(a: Average, clock: nat, period: nat): (d: Average)
    requires Stops(a, clock, period)
    decreases clock - a.ageStamp
  {
    if clock - a.ageStamp > period then Decayed(Halve(a, period), clock, period) else a
  }

  /** The average never exceeds the time it is an average over. */
  predicate Bounded(a: Average, clock: nat, period: nat) {
    a.ageStamp <= clock && a.rtAvg <= period + (clock - a.ageStamp)
  }

  class Rq {
    var rtAvg: nat
    var ageStamp: nat
    var clock: nat
    var timeAvgMs: nat   // sysctl_sched_time_avg

    constructor (timeAvgMs: nat)
      ensures rtAvg == 0 && ageStamp == 0 && clock == 0 && this.timeAvgMs == timeAvgMs
    {
      rtAvg, ageStamp, clock, this.timeAvgMs := 0, 0, 0, timeAvgMs;
    }

    function View(): Average
      reads this
    {
      Average(rtAvg, ageStamp)
    }

    method SchedAvgUpdate()
      requires Stops(View(), clock, Period(timeAvgMs)) && ageStamp <= clock < U64_RANGE / 2
      modifies this`rtAvg, this`ageStamp
      ensures View() == Decayed(old(View()), clock, Period(timeAvgMs))
    {
      var period := Period(timeAvgMs);
      while clock - ageStamp > period
        invariant Decayed(View(), clock, period) == Decayed(old(View()), clock, period)
        decreases clock - ageStamp
      {
        ageStamp := ageStamp + period;
        rtAvg := rtAvg / 2;
      }
    }

    method SchedRtAvgUpdate(rt_delta: nat)
      requires Stops(View(), clock, Period(timeAvgMs)) && ageStamp <= clock < U64_RANGE / 2
      modifies this`rtAvg, this`ageStamp
      ensures View() == Decayed(Average(old(rtAvg) + rt_delta, old(ageStamp)), clock, Period(timeAvgMs))
    {
      rtAvg := rtAvg + rt_delta;
      SchedAvgUpdate();
    }

    /** `total - rq->rt_avg` is a `u64` subtraction: it wraps when the average exceeds the total. */
    method ScaleRtPower() returns (power: nat)
      requires Stops(View(), clock, Period(timeAvgMs)) && ageStamp <= clock < U64_RANGE / 2
      modifies this`rtAvg, this`ageStamp
      ensures View() == Decayed(old(View()), clock, Period(timeAvgMs))
      ensures ageStamp <= clock
      ensures power == Wrap32(RtPower(Period(timeAvgMs) + (clock - ageStamp), rtAvg))
    {
      ghost var k := DecayedIs(View(), clock, Period(timeAvgMs));
      SchedAvgUpdate();
      var total := Period(timeAvgMs) + (clock - ageStamp);
      var available := Wrap64(total - rtAvg);
      if total < SCHED_LOAD_SCALE {
        total := SCHED_LOAD_SCALE;
      }
      var divisor := Wrap32(total / SCHED_LOAD_SCALE);
      power := if divisor == 0 then 0 else Wrap32(Quotient(available, divisor));
    }
  }

  function Max(a: nat, b: nat): nat {
    if a <= b then b else a
  }

  /** `div_u64(available, total >> 10)`, with the total raised to at least 1024: the divisor is a `u32`. */
  function RtPower(total: nat, rt_avg: nat): nat {
    var divisor := Wrap32(Max(total, SCHED_LOAD_SCALE) / SCHED_LOAD_SCALE);
    if divisor == 0 then 0 else Quotient(Wrap64(total - rt_avg), divisor)   // zero would trap
  }

  /** Totals below 2^42 ns, and only they, keep their divisor. */
  const TOTAL_BOUND := ULONG_RANGE * SCHED_LOAD_SCALE

  lemma DivisorFitsIff(total: nat)
    requires SCHED_LOAD_SCALE <= total
    ensures Wrap32(total / SCHED_LOAD_SCALE) == total / SCHED_LOAD_SCALE <==> total < TOTAL_BOUND
  {
  }

  /** `x` halved `k` times. */
  function Halvings(x: nat, k: nat): nat {
    if k == 0 then x else Halvings(x / 2, k - 1)
  }

  /**
   What the decay loop computes: `k` halvings and `k` periods of the stamp, where `k` is the
   least number that brings the stamp within one period of the clock.
   */
  lemma {:induction false} DecayedIs(a: Average, clock: nat, period: nat) returns (k: nat)
    requires Stops(a, clock, period) && a.ageStamp <= clock
    ensures Decayed(a, clock, period) == Average(Halvings(a.rtAvg, k), a.ageStamp + k * period)
    ensures a.ageStamp + k * period <= clock <= a.ageStamp + k * period + period
    ensures k > 0 ==> a.ageStamp + k * period < clock
    decreases clock - a.ageStamp
  {
    if clock - a.ageStamp > period {
      var j := DecayedIs(Halve(a, period), clock, period);
      k := j + 1;
      assert k * period == j * period + period;
    } else {
      k := 0;
    }
  }

  /** Halving `k` times is dividing by 2^k. */
  lemma {:induction false} HalvingsDivide(x: nat, k: nat)
    ensures Power2(k) > 0 && Halvings(x, k) * Power2(k) <= x < (Halvings(x, k) + 1) * Power2(k)
    decreases k
  {
    if k > 0 {
      HalvingsDivide(x / 2, k - 1);
      Doubled(x, Halvings(x / 2, k - 1), Power2(k - 1));
    }
  }

  lemma Doubled(x: nat, h: nat, p: nat)
    requires h * p <= x / 2 < (h + 1) * p
    ensures h * (2 * p) <= x < (h + 1) * (2 * p)
  {
    assert h * (2 * p) == 2 * (h * p);
    assert (h + 1) * (2 * p) == 2 * ((h + 1) * p);
  }

  function Power2(k: nat): nat {
    if k == 0 then 1 else 2 * Power2(k - 1)
  }

  /** `k` passes of the loop, whether it would go on or not. */
  function Passes(a: Average, period: nat, k: nat): Average
    decreases k
  {
    if k == 0 then a else Passes(Halve(a, period), period, k - 1)
  }

  lemma {:induction false} PassesIs(a: Average, period: nat, k: nat)
    ensures Passes(a, period, k) == Average(Halvings(a.rtAvg, k), a.ageStamp + k * period)
    decreases k
  {
    if k > 0 {
      PassesIs(Halve(a, period), period, k - 1);
      assert k * period == (k - 1) * period + period;
    }
  }

  /** After some number of passes the loop is over. */
  ghost predicate Ends(a: Average, clock: nat, period: nat) {
    exists k: nat :: clock - Passes(a, period, k).ageStamp <= period
  }

  /** With a zero period the loop ends only when the clock has not passed the stamp, and otherwise always. */
  lemma DecayEndsIff(a: Average, clock: nat, period: nat)
    ensures Ends(a, clock, period) <==> period > 0 || clock <= a.ageStamp
  {
    if clock <= a.ageStamp {
      assert clock - Passes(a, period, 0).ageStamp <= period;
    } else if period > 0 {
      var k := DecayedIs(a, clock, period);
      PassesIs(a, period, k);
      assert clock - Passes(a, period, k).ageStamp <= period;
    } else {
      forall k: nat ensures Passes(a, period, k).ageStamp == a.ageStamp {
        PassesIs(a, period, k);
        assert k * period == 0;
      }
    }
  }

  /** With `sysctl_sched_time_avg` at zero and the clock 1 ns past the stamp, no number of passes ends it. */
  lemma ZeroPeriodNeverEnds(k: nat)
    ensures 1 - Passes(Average(0, 0), Period(0), k).ageStamp > Period(0)
  {
    PassesIs(Average(0, 0), Period(0), k);
    assert k * 0 == 0;
  }

  /** Decaying keeps the average bounded. */
  lemma {:induction false} DecayKeepsBound(a: Average, clock: nat, period: nat)
    requires Stops(a, clock, period) && Bounded(a, clock, period)
    ensures Bounded(Decayed(a, clock, period), clock, period)
    decreases clock - a.ageStamp
  {
    if clock - a.ageStamp > period {
      DecayKeepsBound(Halve(a, period), clock, period);
    }
  }

  /** A runqueue with the period, and the time of its last charge or decay and of its last charge. */
  datatype State = State(avg: Average, clock: nat, period: nat, lastUpdate: nat, lastCharge: nat)

  /**
   Time passes; an RT task is charged `delta`; another CPU's balancing decays the average; or
   `sysctl_sched_time_avg` is written.
   */
  datatype Event = Advance(dt: nat) | Charge(delta: nat) | Decay | SetPeriod(period: nat)

  predicate Enabled(s: State, e: Event) {
    e.Charge? || e.Decay? ==> Stops(s.avg, s.clock, s.period)
  }

  function Step(s: State, e: Event): State
    requires Enabled(s, e)
  {
    match e
    case Advance(dt) => s.(clock := s.clock + dt)
    case Charge(delta) =>
      s.(avg := Decayed(s.avg.(rtAvg := s.avg.rtAvg + delta), s.clock, s.period),
         lastUpdate := s.clock, lastCharge := s.clock)
    case Decay => s.(avg := Decayed(s.avg, s.clock, s.period), lastUpdate := s.clock)
    case SetPeriod(period) => s.(period := period)
  }

  function Boot(period: nat): State {
    State(Average(0, 0), 0, period, 0, 0)
  }

  predicate Runs(s: State, events: seq<Event>)
    decreases |events|
  {
    events != [] ==> Enabled(s, events[0]) && Runs(Step(s, events[0]), events[1..])
  }

  function Exec(s: State, events: seq<Event>): State
    requires Runs(s, events)
    decreases |events|
  {
    if events == [] then s else Exec(Step(s, events[0]), events[1..])
  }

  /** No charge exceeds the time elapsed since the last charge or decay, and no new period is below the old one. */
  predicate Fits(s: State, e: Event) {
    && (e.Charge? ==> e.delta <= s.clock - s.lastUpdate)
    && (e.SetPeriod? ==> s.period <= e.period)
  }

  /** The weaker reading: no charge exceeds the time elapsed since the last charge. */
  predicate FitsSinceCharge(s: State, e: Event) {
    && (e.Charge? ==> e.delta <= s.clock - s.lastCharge)
    && (e.SetPeriod? ==> s.period <= e.period)
  }

  predicate AllFit(s: State, events: seq<Event>, sinceCharge: bool)
    requires Runs(s, events)
    decreases |events|
  {
    events != [] ==>
      (if sinceCharge then FitsSinceCharge(s, events[0]) else Fits(s, events[0]))
      && AllFit(Step(s, events[0]), events[1..], sinceCharge)
  }

  /** What holds between updates: the average is bounded by the time up to the last update. */
  predicate Inv(s: State) {
    s.avg.ageStamp <= s.lastUpdate <= s.clock && Bounded(s.avg, s.lastUpdate, s.period)
  }

  lemma StepKeepsInv(s: State, e: Event)
    requires Inv(s) && Enabled(s, e) && Fits(s, e)
    ensures Inv(Step(s, e))
  {
    match e
    case Advance(_) =>
    case Charge(delta) => DecayKeepsBound(s.avg.(rtAvg := s.avg.rtAvg + delta), s.clock, s.period);
    case Decay => DecayKeepsBound(s.avg, s.clock, s.period);
    case SetPeriod(_) =>
  }

  lemma {:induction false} RunKeepsInv(s: State, events: seq<Event>)
    requires Inv(s) && Runs(s, events) && AllFit(s, events, false)
    ensures Inv(Exec(s, events))
    decreases |events|
  {
    if events != [] {
      StepKeepsInv(s, events[0]);
      RunKeepsInv(Step(s, events[0]), events[1..]);
    }
  }

  /**
   In every run from boot whose charges fit the time since the last update and whose period never
   shrinks, the average never exceeds the total, so reading the power at the end of the run
   subtracts without wrapping.
   */
  lemma PowerNeverUnderflows(period: nat, events: seq<Event>)
    requires Runs(Boot(period), events) && AllFit(Boot(period), events, false)
    requires var s := Exec(Boot(period), events); Stops(s.avg, s.clock, s.period)
    ensures
      var s := Exec(Boot(period), events);
      var d := Decayed(s.avg, s.clock, s.period);
      var total := s.period + (s.clock - d.ageStamp);
      d.ageStamp <= s.clock && d.rtAvg <= total
      && (total < U64_RANGE ==> Wrap64(total - d.rtAvg) == total - d.rtAvg)
  {
    RunKeepsInv(Boot(period), events);
    var s := Exec(Boot(period), events);
    DecayKeepsBound(s.avg, s.clock, s.period);
  }

  /** The average is above the total, and the power read wraps. */
  predicate Underflows(s: State) {
    && s.avg.ageStamp <= s.clock <= s.avg.ageStamp + s.period
    && s.avg.rtAvg > s.period + (s.clock - s.avg.ageStamp)
    && RtPower(s.period + (s.clock - s.avg.ageStamp), s.avg.rtAvg) > SCHED_LOAD_SCALE
  }

  /**
   Charging up to the time since the last charge is not enough: if the average is decayed in
   between, it ends above the total and the subtraction wraps, although no charge exceeded
   the time that had elapsed since the charge before it.
   */
  lemma ChargeAfterDecayUnderflows()
    ensures
      var s, events := Boot(Period(1)), [Advance(1_500_000), Decay, Charge(1_500_000)];
      && Runs(s, events) && AllFit(s, events, true) && !AllFit(s, events, false)
      && Underflows(Exec(s, events))
  {
    var period := 500_000;
    var e1, e2, e3 := Advance(1_500_000), Decay, Charge(1_500_000);
    assert Step(Boot(period), e1) == State(Average(0, 0), 1_500_000, period, 0, 0);
    assert Decayed(Average(0, 0), 1_500_000, period) == Decayed(Average(0, 500_000), 1_500_000, period);
    var s2 := State(Average(0, 1_000_000), 1_500_000, period, 1_500_000, 0);
    assert Step(Step(Boot(period), e1), e2) == s2;
    assert Step(s2, e3).avg == Average(1_500_000, 1_000_000);
    RunOfThree(Boot(period), e1, e2, e3);
    QuotientIs(U64_RANGE - 500_000, 976, (U64_RANGE - 500_000) / 976);
  }

  /** Nor may the period shrink: after 1.5 ms of RT execution, going from 3 ms to 1 ms is enough. */
  lemma ShrunkPeriodUnderflows()
    ensures
      var s, events := Boot(Period(3)), [Advance(1_500_001), Charge(1_500_001), SetPeriod(Period(1))];
      && Runs(s, events) && Underflows(Exec(s, events))
      && AllFit(s, [Advance(1_500_001), Charge(1_500_001)], false)
  {
    var e1, e2, e3 := Advance(1_500_001), Charge(1_500_001), SetPeriod(500_000);
    var s1 := State(Average(0, 0), 1_500_001, 1_500_000, 0, 0);
    assert Step(Boot(1_500_000), e1) == s1;
    assert Decayed(Average(1_500_001, 0), 1_500_001, 1_500_000) == Average(750_000, 1_500_000);
    assert Step(s1, e2).avg == Average(750_000, 1_500_000);
    RunOfThree(Boot(1_500_000), e1, e2, e3);
    assert [e1, e2][1..] == [e2] && [e2][1..] == [];
    assert AllFit(s1, [e2], false);
    QuotientIs(U64_RANGE - 249_999, 488, (U64_RANGE - 249_999) / 488);
  }

  lemma RunOfThree(s: State, e1: Event, e2: Event, e3: Event)
    requires Enabled(s, e1) && Enabled(Step(s, e1), e2) && Enabled(Step(Step(s, e1), e2), e3)
    ensures var events := [e1, e2, e3];
            && Runs(s, events) && Exec(s, events) == Step(Step(Step(s, e1), e2), e3)
            && (AllFit(s, events, false) <==>
                  Fits(s, e1) && Fits(Step(s, e1), e2) && Fits(Step(Step(s, e1), e2), e3))
            && (AllFit(s, events, true) <==>
                  FitsSinceCharge(s, e1) && FitsSinceCharge(Step(s, e1), e2)
                  && FitsSinceCharge(Step(Step(s, e1), e2), e3))
  {
    hide Step, Enabled, Fits, FitsSinceCharge;
    assert [e1, e2, e3][1..] == [e2, e3] && [e2, e3][1..] == [e3] && [e3][1..] == [];
    var s1, s2 := Step(s, e1), Step(Step(s, e1), e2);
    assert Runs(Step(s2, e3), []) && Runs(s2, [e3]) && Runs(s1, [e2, e3]);
    assert Exec(s2, [e3]) == Step(s2, e3) && Exec(s1, [e2, e3]) == Exec(s2, [e3]);
    assert forall b :: AllFit(Step(s2, e3), [], b);
    assert AllFit(s2, [e3], false) <==> Fits(s2, e3);
    assert AllFit(s2, [e3], true) <==> FitsSinceCharge(s2, e3);
    assert AllFit(s1, [e2, e3], false) <==> Fits(s1, e2) && AllFit(s2, [e3], false);
    assert AllFit(s1, [e2, e3], true) <==> FitsSinceCharge(s1, e2) && AllFit(s2, [e3], true);
  }

  /** A charge of `delta` keeps every bounded average bounded, `elapsed` after its last update. */
  ghost predicate ChargeIsSafe(elapsed: nat, delta: nat, period: nat) {
    forall s: State | Inv(s) && s.period == period && s.clock - s.lastUpdate == elapsed ::
      Bounded(s.avg.(rtAvg := s.avg.rtAvg + delta), s.clock, period)
  }

  /** A write of `next` keeps every average bounded by `period` bounded. */
  ghost predicate PeriodIsSafe(period: nat, next: nat) {
    forall s: State | Inv(s) && s.period == period :: Inv(s.(period := next))
  }

  /** The guards on charges and on periods are exact. */
  lemma GuardsAreExact(elapsed: nat, delta: nat, period: nat, next: nat)
    ensures ChargeIsSafe(elapsed, delta, period) <==> delta <= elapsed
    ensures PeriodIsSafe(period, next) <==> period <= next
  {
    var saturated := State(Average(period, 0), elapsed, period, 0, 0);
    assert Inv(saturated);
    assert Bounded(saturated.avg.(rtAvg := period + delta), elapsed, period) <==> delta <= elapsed;
    assert Inv(saturated.(period := next)) <==> period <= next;
    assert PeriodIsSafe(period, next) ==> Inv(saturated.(period := next));
    if period <= next {
      forall s: State | Inv(s) && s.period == period ensures Inv(s.(period := next)) {
      }
    }
  }

  /**
   With the average within the total, the power is at least the exact share of time left over
   and at most 1024 once the total reaches 2^20; with an idle RT class, smaller totals exceed
   1024 exactly when the low ten bits of the total are not below its high bits.
   */
  lemma PowerRange(total: nat, rt_avg: nat)
    requires rt_avg <= total < TOTAL_BOUND && SCHED_LOAD_SCALE <= total
    ensures SCHED_LOAD_SCALE * (total - rt_avg) < (RtPower(total, rt_avg) + 1) * total
    ensures RtPower(total, rt_avg) * (total / SCHED_LOAD_SCALE) <= total - rt_avg
    ensures total >= 0x10_0000 ==> RtPower(total, rt_avg) <= SCHED_LOAD_SCALE
    ensures RtPower(total, 0) <= SCHED_LOAD_SCALE
            <==> total % SCHED_LOAD_SCALE < total / SCHED_LOAD_SCALE
  {
    hide RtPower;
    PowerNotBelowShare(total, rt_avg);
    PowerNotAboveShare(total, rt_avg);
    PowerAtMostScale(total, rt_avg);
    PowerAtMostScale(total, 0);
  }

  /** Nor above the time left over what the total counts for. */
  lemma PowerNotAboveShare(total: nat, rt_avg: nat)
    requires rt_avg <= total < TOTAL_BOUND && SCHED_LOAD_SCALE <= total
    ensures RtPower(total, rt_avg) * (total / SCHED_LOAD_SCALE) <= total - rt_avg
  {
    DivisorFitsIff(total);
    hide Wrap32;
    assert Wrap64(total - rt_avg) == total - rt_avg;
  }

  lemma PowerNotBelowShare(total: nat, rt_avg: nat)
    requires rt_avg <= total < TOTAL_BOUND && SCHED_LOAD_SCALE <= total
    ensures SCHED_LOAD_SCALE * (total - rt_avg) < (RtPower(total, rt_avg) + 1) * total
  {
    var q, power := total / SCHED_LOAD_SCALE, RtPower(total, rt_avg);
    assert power * q <= total - rt_avg < power * q + q;
    hide RtPower;
    ScaleUp(total, total - rt_avg, q, power);
  }

  lemma ScaleUp(total: nat, available: nat, q: nat, power: nat)
    requires available < power * q + q && SCHED_LOAD_SCALE * q <= total
    ensures SCHED_LOAD_SCALE * available < (power + 1) * total
  {
    MulLe(SCHED_LOAD_SCALE * q, total, power + 1);
    assert SCHED_LOAD_SCALE * q * (power + 1) == SCHED_LOAD_SCALE * (power * q + q);
  }

  lemma PowerAtMostScale(total: nat, rt_avg: nat)
    requires rt_avg <= total < TOTAL_BOUND && SCHED_LOAD_SCALE <= total
    ensures RtPower(total, rt_avg) <= SCHED_LOAD_SCALE
            <==> total - rt_avg < (SCHED_LOAD_SCALE + 1) * (total / SCHED_LOAD_SCALE)
  {
    var q, power := total / SCHED_LOAD_SCALE, RtPower(total, rt_avg);
    assert (power + 1) * q == power * q + q;
    if power > SCHED_LOAD_SCALE {
      MulLe(SCHED_LOAD_SCALE + 1, power, q);
    } else {
      MulLe(power + 1, SCHED_LOAD_SCALE + 1, q);
    }
  }
}
