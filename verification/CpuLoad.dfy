/**
 The decaying load history `rq->cpu_load[]` that `update_cpu_load` advances at every tick.
 Slot `i` keeps a fraction `(2^i - 1) / 2^i` of its distance to the current load.
 */
module CpuLoad {
  import opened Words

  const CPU_LOAD_IDX_MAX := 5

  /** `1 << i`. */
  function Scale(i: nat): (s: nat)
    ensures s > 0
  {
    if i == 0 then 1 else 2 * Scale(i - 1)
  }

  /** The dividend of the averaging division: rounded up when the load is rising. */
  function Dividend(old_load: nat, load: nat, i: nat): nat {
    old_load * (Scale(i) - 1) + load + (if load > old_load then Scale(i) - 1 else 0)
  }

  /** What one tick stores in slot `i`, in 32-bit arithmetic. */
  function Slot(old_load: nat, load: nat, i: nat): nat {
    Quotient(Wrap32(Dividend(old_load, load, i)), Scale(i))
  }

  /** The averaging expression itself, wrapping after each operation. */
  function Average(old_load: nat, new_load: nat, scale: nat): nat
    requires scale > 0
  {
    Quotient(Wrap32(Wrap32(old_load * (scale - 1)) + new_load), scale)
  }

  class LoadHistory {
    var loadWeight: nat          // this_rq->load.weight
    const cpuLoad: array<nat>    // this_rq->cpu_load[]
    var nrLoadUpdates: nat

    constructor ()
      ensures fresh(cpuLoad) && cpuLoad.Length == CPU_LOAD_IDX_MAX
      ensures forall i | 0 <= i < CPU_LOAD_IDX_MAX :: cpuLoad[i] == 0
      ensures loadWeight == 0 && nrLoadUpdates == 0
    {
      cpuLoad := new nat[CPU_LOAD_IDX_MAX](_ => 0);
      loadWeight, nrLoadUpdates := 0, 0;
    }

    method UpdateCpuLoad()
      requires cpuLoad.Length == CPU_LOAD_IDX_MAX
      requires loadWeight < ULONG_RANGE
      requires forall i | 0 <= i < CPU_LOAD_IDX_MAX :: cpuLoad[i] < ULONG_RANGE
      modifies this`nrLoadUpdates, cpuLoad
      ensures nrLoadUpdates == Wrap32(old(nrLoadUpdates) + 1)
      ensures forall i | 0 <= i < CPU_LOAD_IDX_MAX ::
        cpuLoad[i] == Slot(old(cpuLoad[i]), loadWeight, i) && cpuLoad[i] < ULONG_RANGE
    {
      hide Slot, Average;
      var this_load := loadWeight;
      nrLoadUpdates := Wrap32(nrLoadUpdates + 1);
      var i, scale := 0, 1;
      while i < CPU_LOAD_IDX_MAX
        invariant 0 <= i <= CPU_LOAD_IDX_MAX
        invariant scale == Scale(i)
        invariant nrLoadUpdates == Wrap32(old(nrLoadUpdates) + 1)
        invariant forall k | 0 <= k < i ::
          cpuLoad[k] == Slot(old(cpuLoad[k]), loadWeight, k) && cpuLoad[k] < ULONG_RANGE
        invariant forall k | i <= k < CPU_LOAD_IDX_MAX :: cpuLoad[k] == old(cpuLoad[k])
      {
        var old_load := cpuLoad[i];
        var new_load := this_load;
        if new_load > old_load {
          new_load := Wrap32(new_load + (scale - 1));
        }
        SlotWraps(old_load, this_load, new_load, i);
        cpuLoad[i] := Average(old_load, new_load, scale);
        i, scale := i + 1, scale + scale;
      }
    }
  }

  /** Wrapping after every operation is wrapping once at the end. */
  lemma SlotWraps(old_load: nat, load: nat, new_load: nat, i: nat)
    requires new_load == load || new_load == Wrap32(load + (Scale(i) - 1))
    requires load < ULONG_RANGE
    requires new_load == Wrap32(load + (if load > old_load then Scale(i) - 1 else 0))
    ensures Average(old_load, new_load, Scale(i)) == Slot(old_load, load, i)
    ensures Slot(old_load, load, i) < ULONG_RANGE
  {
    WrapSum(old_load * (Scale(i) - 1), load + (if load > old_load then Scale(i) - 1 else 0));
    QuotientBelow(Wrap32(Dividend(old_load, load, i)), Scale(i));
  }

  lemma WrapSum(a: int, b: int)
    ensures Wrap32(Wrap32(a) + Wrap32(b)) == Wrap32(a + b)
  {
  }

  function Distance(a: nat, b: nat): nat {
    if a <= b then b - a else a - b
  }

  /** `b` lies between `a` and `c`, in either direction. */
  predicate Between(a: nat, b: nat, c: nat) {
    a <= b <= c || c <= b <= a
  }

  /** What is left of a distance `d` after one tick at scale `s`. */
  function Left(d: nat, s: nat): nat
    requires s > 0
  {
    Quotient(d * (s - 1), s)
  }

  lemma LeftShrinks(d: nat, s: nat)
    requires s > 0
    ensures Left(d, s) * s <= d * s - d < Left(d, s) * s + s
    ensures Left(d, s) <= d
    ensures d > 0 ==> Left(d, s) < d
  {
    assert d * (s - 1) == d * s - d;
    assert (d + 1) * s == d * s + s;
    if Left(d, s) > d { MulLe(d + 1, Left(d, s), s); }
  }

  /** Exact arithmetic: one tick shrinks the distance to the load by the factor `(s - 1) / s`, rounded down. */
  lemma {:induction false} ExactSlot(old_load: nat, load: nat, i: nat)
    ensures
      var next := Quotient(Dividend(old_load, load, i), Scale(i));
      Between(old_load, next, load)
      && Distance(next, load) == Left(Distance(old_load, load), Scale(i))
  {
    hide Left, Scale;
    var s, d := Scale(i), Distance(old_load, load);
    assert old_load == if old_load < load then load - d else load + d;
    if old_load < load {
      RisingStep(load, d, s);
    } else {
      FallingStep(load, d, s);
    }
  }

  lemma RisingStep(load: nat, d: nat, s: nat)
    requires 0 < d <= load && s > 0
    ensures 0 <= (load - d) * (s - 1) && Left(d, s) <= d
    ensures Quotient((load - d) * (s - 1) + load + (s - 1), s) == load - Left(d, s)
  {
    LeftShrinks(d, s);
    MulSub(load, d, s);
    MulSub(load, Left(d, s), s + 1);
    hide Left;
    QuotientIs((load - d) * (s - 1) + load + (s - 1), s, load - Left(d, s));
  }

  lemma MulSub(a: int, b: int, s: int)
    ensures (a - b) * (s - 1) == a * s - a - (b * s - b)
    ensures b <= a && s >= 1 ==> 0 <= (a - b) * (s - 1)
  {
    assert (a - b) * (s - 1) == (a - b) * s - (a - b) == a * s - b * s - (a - b);
    if b <= a && s >= 1 { MulLe(0, a - b, s - 1); }
  }

  lemma FallingStep(load: nat, d: nat, s: nat)
    requires s > 0
    ensures Left(d, s) <= d
    ensures Quotient((load + d) * (s - 1) + load, s) == load + Left(d, s)
  {
    LeftShrinks(d, s);
    assert (load + d) * (s - 1) + load == load * s + (d * s - d);
    assert (load + Left(d, s)) * s == load * s + Left(d, s) * s;
    QuotientIs((load + d) * (s - 1) + load, s, load + Left(d, s));
  }

  /** Dropping the high word makes the quotient strictly smaller. */
  lemma HighWordMatters(v: nat, s: nat)
    requires ULONG_RANGE <= v && 0 < s < ULONG_RANGE
    ensures Quotient(Wrap32(v), s) < Quotient(v, s)
  {
    var w := Wrap32(v);
    assert w + ULONG_RANGE <= v;
    if Quotient(w, s) >= Quotient(v, s) { MulLe(Quotient(v, s), Quotient(w, s), s); }
  }

  /**
   The stored slot moves towards the load without overshoot, keeping exactly
   `floor(d * (2^i - 1) / 2^i)` of the distance `d`, if and only if the dividend
   fits an `unsigned long`.
   */
  lemma SlotDecaysIffNoOverflow(old_load: nat, load: nat, i: nat)
    requires i < CPU_LOAD_IDX_MAX
    ensures Dividend(old_load, load, i) < ULONG_RANGE <==>
            (Between(old_load, Slot(old_load, load, i), load)
             && Distance(Slot(old_load, load, i), load) == Left(Distance(old_load, load), Scale(i)))
  {
    hide Left, Scale, Dividend;
    ExactSlot(old_load, load, i);
    ScaleOfSlot(i);
    if Dividend(old_load, load, i) >= ULONG_RANGE {
      HighWordMatters(Dividend(old_load, load, i), Scale(i));
    }
  }

  lemma ScaleOfSlot(i: nat)
    requires i < CPU_LOAD_IDX_MAX
    ensures Scale(i) <= 16 && LoadBound(i) * Scale(i) == ULONG_RANGE
  {
    assert Scale(0) == 1 && Scale(1) == 2 * Scale(0) && Scale(2) == 2 * Scale(1);
    assert Scale(3) == 2 * Scale(2) && Scale(4) == 2 * Scale(3);
    QuotientIs(ULONG_RANGE, Scale(i), [0x1_0000_0000, 0x8000_0000, 0x4000_0000, 0x2000_0000, 0x1000_0000][i]);
  }

  /** Loads below this bound never overflow the dividend of slot `i`. */
  function LoadBound(i: nat): nat {
    Quotient(ULONG_RANGE, Scale(i))
  }

  predicate NeverOverflows(i: nat, bound: nat) {
    forall old_load: nat, load: nat | old_load < bound && load < bound :: Dividend(old_load, load, i) < ULONG_RANGE
  }

  /** The bound is exact for each slot: it is the largest one under which the slot cannot overflow. */
  lemma LoadBoundIsExact(i: nat, bound: nat)
    requires i < CPU_LOAD_IDX_MAX
    ensures NeverOverflows(i, bound) <==> bound <= LoadBound(i)
  {
    if bound <= LoadBound(i) {
      forall old_load: nat, load: nat | old_load < bound && load < bound
        ensures Dividend(old_load, load, i) < ULONG_RANGE
      {
        SmallLoadsFit(old_load, load, i);
      }
    } else {
      ScaleOfSlot(i);
      var b, s := LoadBound(i), Scale(i);
      assert b * (s - 1) + b == b * s;
      assert Dividend(b, b, i) == ULONG_RANGE;
    }
  }

  lemma SmallLoadsFit(old_load: nat, load: nat, i: nat)
    requires i < CPU_LOAD_IDX_MAX && old_load < LoadBound(i) && load < LoadBound(i)
    ensures Dividend(old_load, load, i) < ULONG_RANGE
  {
    ScaleOfSlot(i);
    var s, most := Scale(i), LoadBound(i) - 1;
    assert most * s == LoadBound(i) * s - s;
    assert most * s == most * (s - 1) + most;
    if load > old_load {
      MulLe(old_load + 1, most, s - 1);
      assert (old_load + 1) * (s - 1) == old_load * (s - 1) + (s - 1);
    } else {
      MulLe(old_load, most, s - 1);
    }
    hide LoadBound, Scale;
  }

  /** The slot after the loads `loads`, one per tick. */
  function Run(start: nat, loads: seq<nat>, i: nat): nat {
    if loads == [] then start else Slot(Run(start, loads[..|loads| - 1], i), loads[|loads| - 1], i)
  }

  /** With a varying load, a slot stays within the range of its start and the loads seen. */
  lemma {:induction false} RunStaysInRange(start: nat, loads: seq<nat>, i: nat, lo: nat, hi: nat)
    requires i < CPU_LOAD_IDX_MAX && hi < LoadBound(i)
    requires lo <= start <= hi && forall k | 0 <= k < |loads| :: lo <= loads[k] <= hi
    ensures lo <= Run(start, loads, i) <= hi
  {
    if loads != [] {
      var before, load := loads[..|loads| - 1], loads[|loads| - 1];
      RunStaysInRange(start, before, i, lo, hi);
      SmallLoadsFit(Run(start, before, i), load, i);
      SlotDecaysIffNoOverflow(Run(start, before, i), load, i);
    }
  }

  function Constant(load: nat, n: nat): (loads: seq<nat>)
    ensures |loads| == n && forall k | 0 <= k < n :: loads[k] == load
  {
    seq(n, _ => load)
  }

  /** Under a constant load the dividend fits at the larger of start and load. */
  predicate FitsThroughout(start: nat, load: nat, i: nat) {
    Dividend(if start <= load then load else start, load, i) < ULONG_RANGE
  }

  /** Then it fits at everything between them. */
  lemma BetweenFits(start: nat, now: nat, load: nat, i: nat)
    requires FitsThroughout(start, load, i) && Between(start, now, load)
    ensures Dividend(now, load, i) < ULONG_RANGE
  {
    var s := Scale(i);
    if load > now {
      MulLe(now + 1, load, s - 1);
      assert (now + 1) * (s - 1) == now * (s - 1) + (s - 1);
    } else {
      MulLe(now, if start <= load then load else start, s - 1);
    }
    hide Scale;
  }

  /** The tick after `n` moves the slot exactly as far towards the load as it should. */
  predicate ExactTick(start: nat, load: nat, i: nat, n: nat) {
    var now, next := Run(start, Constant(load, n), i), Run(start, Constant(load, n + 1), i);
    Between(now, next, load) && Distance(next, load) == Left(Distance(now, load), Scale(i))
  }

  lemma RunConstant(start: nat, load: nat, i: nat, n: nat)
    ensures Run(start, Constant(load, n + 1), i) == Slot(Run(start, Constant(load, n), i), load, i)
  {
    assert Constant(load, n + 1)[..n] == Constant(load, n);
  }

  /** As long as the ticks are exact, the slot stays between start and load, and gets to the load. */
  lemma {:induction false} ExactTicksConverge(start: nat, load: nat, i: nat, n: nat)
    requires forall k: nat | k < n :: ExactTick(start, load, i, k)
    ensures Between(start, Run(start, Constant(load, n), i), load)
    ensures Distance(Run(start, Constant(load, n), i), load) + n <= Distance(start, load)
            || Run(start, Constant(load, n), i) == load
  {
    if n > 0 {
      ExactTicksConverge(start, load, i, n - 1);
      LeftShrinks(Distance(Run(start, Constant(load, n - 1), i), load), Scale(i));
      assert ExactTick(start, load, i, n - 1);
      hide Left, Scale, Run;
    }
  }

  /**
   Under a constant load, every tick moves the slot closer without overshoot, and the
   load is reached after finitely many ticks and never left again, from any start.
   */
  lemma {:induction false} ConstantLoadConverges(start: nat, load: nat, i: nat, n: nat)
    requires i < CPU_LOAD_IDX_MAX && FitsThroughout(start, load, i)
    ensures forall k: nat | k <= n :: ExactTick(start, load, i, k)
    ensures Between(start, Run(start, Constant(load, n), i), load)
    ensures Distance(Run(start, Constant(load, n), i), load) + n <= Distance(start, load)
            || Run(start, Constant(load, n), i) == load
    ensures n >= Distance(start, load) ==> Run(start, Constant(load, n), i) == load
  {
    if n > 0 {
      ConstantLoadConverges(start, load, i, n - 1);
    }
    hide FitsThroughout;
    ExactTicksConverge(start, load, i, n);
    var now := Run(start, Constant(load, n), i);
    BetweenFits(start, now, load, i);
    SlotDecaysIffNoOverflow(now, load, i);
    RunConstant(start, load, i, n);
    hide Left, Slot, Scale, Run;
  }

  /** The condition is exact: if every tick is, the dividend fits at the larger of start and load. */
  lemma ConvergesIffFits(start: nat, load: nat, i: nat)
    requires i < CPU_LOAD_IDX_MAX
    ensures (forall n: nat :: ExactTick(start, load, i, n)) <==> FitsThroughout(start, load, i)
  {
    if FitsThroughout(start, load, i) {
      forall n: nat ensures ExactTick(start, load, i, n) {
        ConstantLoadConverges(start, load, i, n);
      }
    } else {
      var n := if start <= load then Distance(start, load) else 0;
      if forall k: nat | k < n :: ExactTick(start, load, i, k) {
        ExactTicksConverge(start, load, i, n);
        SlotDecaysIffNoOverflow(Run(start, Constant(load, n), i), load, i);
        RunConstant(start, load, i, n);
        assert !ExactTick(start, load, i, n);
      }
    }
  }
}
