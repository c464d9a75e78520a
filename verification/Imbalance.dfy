/** How much load to move: `calculate_imbalance` and `fix_small_imbalance`. */
module Imbalance {
  import opened Words
  import opened SchedGroups

  const SCHED_LOAD_SCALE := 1024

  /** `struct sd_lb_stats`, zeroed. */
  class SdLbStats {
    var busiest: SchedGroup?
    var this_: SchedGroup?
    var totalLoad: nat
    var totalPwr: nat
    var avgLoad: nat

    var thisLoad: nat
    var thisLoadPerTask: nat
    var thisNrRunning: nat

    var maxLoad: nat
    var busiestLoadPerTask: nat
    var busiestNrRunning: nat
    var groupImb: bool

    var powerSavingsBalance: bool
    var groupMin: SchedGroup?
    var groupLeader: SchedGroup?
    var minLoadPerTask: nat
    var leaderNrRunning: nat
    var minNrRunning: nat

    constructor ()
      ensures busiest == null && this_ == null && groupMin == null && groupLeader == null
      ensures totalLoad == totalPwr == thisLoad == thisNrRunning == maxLoad == leaderNrRunning == 0
    {
      busiest, this_, groupMin, groupLeader := null, null, null, null;
      totalLoad, totalPwr, avgLoad, thisLoad, thisLoadPerTask, thisNrRunning := 0, 0, 0, 0, 0, 0;
      maxLoad, busiestLoadPerTask, busiestNrRunning, groupImb := 0, 0, 0, false;
      powerSavingsBalance, minLoadPerTask, leaderNrRunning, minNrRunning := false, 0, 0, 0;
    }

    /** The numbers the imbalance is computed from, once `perTask` is the local load per task. */
    function LoadsWith(perTask: nat): (r: Loads)
      requires busiest != null && this_ != null
      reads this, busiest, this_
    {
      Loads(maxLoad, thisLoad, avgLoad, busiestLoadPerTask, perTask, thisNrRunning > 0,
                  busiest.cpuPower, this_.cpuPower)
    }

    /** What the guards of `find_busiest_group` establish before an imbalance is computed. */
    ghost predicate Guarded()
      reads this, busiest, this_
    {
      && busiest != null && this_ != null
      && thisLoad < maxLoad < ULONG_RANGE && thisLoad < avgLoad && busiestLoadPerTask < maxLoad
      && 0 < busiest.cpuPower && 0 < this_.cpuPower
    }

    /** The local load per task that `fix_small_imbalance` works with. */
    function LocalPerTask(idleAvg: nat): nat
      reads this
    {
      if thisNrRunning > 0 then Quotient(thisLoadPerTask, thisNrRunning) else idleAvg
    }

    /** `idleAvg` is `cpu_avg_load_per_task(this_cpu)`. Every `nat` here is a subtraction that does not wrap. */
    method FixSmallImbalance(idleAvg: nat, imbalance: nat) returns (r: nat)
      requires Guarded()
      modifies this`thisLoadPerTask
      ensures thisLoadPerTask == old(LocalPerTask(idleAvg))
      ensures r == if old(LoadsWith(LocalPerTask(idleAvg))).Bump() then busiestLoadPerTask else imbalance
    {
      hide Wrap32, Quotient, Throughput;
      ghost var s := LoadsWith(LocalPerTask(idleAvg));
      NothingDone(s.busiestPower, s.perTask);
      var imbn := 2;
      if thisNrRunning > 0 {
        thisLoadPerTask := Quotient(thisLoadPerTask, thisNrRunning);
        if busiestLoadPerTask > thisLoadPerTask {
          imbn := 1;
        }
      } else {
        thisLoadPerTask := idleAvg;
      }
      var gap: nat := maxLoad - thisLoad;
      if Wrap32(gap + busiestLoadPerTask) >= Wrap32(busiestLoadPerTask * imbn) {
        return busiestLoadPerTask;
      }
      assert s.Weight() == imbn;
      var pwr_now, pwr_move := Throughput(busiest.cpuPower, busiestLoadPerTask, maxLoad), 0;
      pwr_now := Wrap32(pwr_now + Throughput(this_.cpuPower, thisLoadPerTask, thisLoad));
      pwr_now := pwr_now / SCHED_LOAD_SCALE;

      var tmp := Quotient(Wrap32(busiestLoadPerTask * SCHED_LOAD_SCALE), busiest.cpuPower);
      if maxLoad > tmp {
        var left: nat := maxLoad - tmp;
        pwr_move := Throughput(busiest.cpuPower, busiestLoadPerTask, left);
      }
      if Wrap32(maxLoad * busiest.cpuPower) < Wrap32(busiestLoadPerTask * SCHED_LOAD_SCALE) {
        tmp := Quotient(Wrap32(maxLoad * busiest.cpuPower), this_.cpuPower);
      } else {
        tmp := Quotient(Wrap32(busiestLoadPerTask * SCHED_LOAD_SCALE), this_.cpuPower);
      }
      pwr_move := Wrap32(pwr_move + Throughput(this_.cpuPower, thisLoadPerTask, Wrap32(thisLoad + tmp)));
      pwr_move := pwr_move / SCHED_LOAD_SCALE;
      r := if pwr_move > pwr_now then busiestLoadPerTask else imbalance;
    }

    method CalculateImbalance(idleAvg: nat) returns (imbalance: nat)
      requires Guarded()
      modifies this`thisLoadPerTask
      ensures imbalance == old(LoadsWith(LocalPerTask(idleAvg))).Imbalance()
    {
      if maxLoad < avgLoad {
        imbalance := FixSmallImbalance(idleAvg, 0);
        return;
      }
      var overAvg: nat, overTask: nat := maxLoad - avgLoad, maxLoad - busiestLoadPerTask;
      var max_pull := Min(overAvg, overTask);
      var room: nat := avgLoad - thisLoad;
      imbalance := Min(Wrap32(max_pull * busiest.cpuPower), Wrap32(room * this_.cpuPower)) / SCHED_LOAD_SCALE;
      if imbalance < busiestLoadPerTask {
        imbalance := FixSmallImbalance(idleAvg, imbalance);
      }
    }
  }

  /** `power * min(task, load)`: what a group of this power gets done. */
  function Throughput(power: nat, task: nat, load: nat): nat {
    Wrap32(power * Min(task, load))
  }

  lemma NothingDone(power: nat, task: nat)
    ensures Throughput(power, task, 0) == 0
  {
  }

  datatype Loads = Loads(max: nat, local: nat, avg: nat, perTask: nat, localPerTask: nat, localBusy: bool,
                         busiestPower: nat, localPower: nat)
  {
    ghost predicate Guarded() {
      local < max < ULONG_RANGE && local < avg && perTask < max && 0 < busiestPower && 0 < localPower
    }

    ghost predicate Powered() {
      0 < busiestPower && 0 < localPower
    }

    /** The throughput of both groups as they are. */
    function PowerNow(): nat {
      Wrap32(Throughput(busiestPower, perTask, max) + Throughput(localPower, localPerTask, local)) / SCHED_LOAD_SCALE
    }

    /** The throughput once one task of the busiest group has moved. */
    function PowerMoved(): nat
      requires Powered()
    {
      var task := Wrap32(perTask * SCHED_LOAD_SCALE);
      var removed := Quotient(task, busiestPower);
      var added := Quotient(Min(task, Wrap32(max * busiestPower)), localPower);
      Wrap32(Throughput(busiestPower, perTask, if removed < max then max - removed else 0)
             + Throughput(localPower, localPerTask, Wrap32(local + added))) / SCHED_LOAD_SCALE
    }

    /** How many tasks the gap must be worth, one of them for free: one if ours are lighter than theirs. */
    function Weight(): nat {
      if localBusy && perTask > localPerTask then 1 else 2
    }

    /** `fix_small_imbalance` raises the imbalance to one task of the busiest group. */
    predicate Bump()
      requires Guarded()
    {
      || Wrap32(max - local + perTask) >= Wrap32(perTask * Weight())
      || PowerMoved() > PowerNow()
    }

    /** The load that brings one of the two groups to the average without emptying the busiest. */
    function Pull(): nat
      requires Guarded() && avg <= max
    {
      Min(Wrap32(Min(max - avg, max - perTask) * busiestPower), Wrap32((avg - local) * localPower)) / SCHED_LOAD_SCALE
    }

    function Imbalance(): nat
      requires Guarded()
    {
      if max < avg then if Bump() then perTask else 0
      else if Pull() < perTask && Bump() then perTask
      else Pull()
    }

    /** Short of wrapping, a gap of a task, or tasks heavier than ours, always moves one. */
    lemma BumpsOnGap()
      requires Guarded() && max - local + perTask < ULONG_RANGE && perTask * 2 < ULONG_RANGE
      requires perTask <= max - local || (localBusy && localPerTask < perTask)
      ensures Bump() && (Imbalance() == perTask || (avg <= max && Imbalance() == Pull() > perTask))
    {
      hide Quotient, Loads.PowerMoved, Loads.PowerNow, Loads.Pull;
    }
  }

  /** No product or sum behind the two throughputs wraps. */
  predicate Unwrapped(s: Loads) {
    && s.perTask * SCHED_LOAD_SCALE < ULONG_RANGE && s.max * s.busiestPower < ULONG_RANGE
    && s.busiestPower * s.perTask + s.localPower * s.localPerTask < ULONG_RANGE
    && s.local + s.perTask * SCHED_LOAD_SCALE < ULONG_RANGE
  }

  /** What both groups get done at these loads, as the sum of their exact products. */
  function Total(s: Loads, busiest: nat, local: nat): nat {
    s.busiestPower * Min(s.perTask, busiest) + s.localPower * Min(s.localPerTask, local)
  }

  /** The load that one task of the busiest group is worth to it, and to the local group. */
  function TaskThere(s: Loads): nat
    requires 0 < s.busiestPower
  {
    Quotient(s.perTask * SCHED_LOAD_SCALE, s.busiestPower)
  }

  function TaskHere(s: Loads): nat
    requires 0 < s.localPower
  {
    Quotient(Min(s.perTask * SCHED_LOAD_SCALE, s.max * s.busiestPower), s.localPower)
  }

  lemma ThroughputIsExact(power: nat, task: nat, load: nat)
    requires power * task < ULONG_RANGE
    ensures Throughput(power, task, load) == power * Min(task, load) <= power * task
  {
    MulLe(Min(task, load), task, power);
  }

  /** The throughputs of both groups at these loads, added up in an `unsigned long`. */
  lemma TotalIsExact(s: Loads, busiest: nat, local: nat)
    requires s.busiestPower * s.perTask + s.localPower * s.localPerTask < ULONG_RANGE
    ensures Wrap32(Throughput(s.busiestPower, s.perTask, busiest) + Throughput(s.localPower, s.localPerTask, local))
            == Total(s, busiest, local)
  {
    hide Throughput;
    var a, b := s.busiestPower * s.perTask, s.localPower * s.localPerTask;
    MulLe(0, s.busiestPower, s.perTask);
    MulLe(0, s.localPower, s.localPerTask);
    assert 0 <= a && 0 <= b;
    ThroughputIsExact(s.busiestPower, s.perTask, busiest);
    ThroughputIsExact(s.localPower, s.localPerTask, local);
  }

  /** The load left to the busiest group once a task has gone. */
  function Left(s: Loads): nat
    requires 0 < s.busiestPower
  {
    if TaskThere(s) < s.max then s.max - TaskThere(s) else 0
  }

  lemma TaskHereIsSmall(s: Loads)
    requires 0 < s.localPower
    ensures TaskHere(s) <= s.perTask * SCHED_LOAD_SCALE
  {
    MulLe(1, s.localPower, TaskHere(s));
  }

  lemma PowerMovedIs(s: Loads)
    requires s.Guarded() && Unwrapped(s)
    ensures s.PowerMoved() == Total(s, Left(s), s.local + TaskHere(s)) / SCHED_LOAD_SCALE
  {
    hide Throughput, Quotient, Wrap32, Total;
    TaskHereIsSmall(s);
    WrapFits(s.perTask * SCHED_LOAD_SCALE);
    WrapFits(s.max * s.busiestPower);
    WrapFits(s.local + TaskHere(s));
    TotalIsExact(s, Left(s), s.local + TaskHere(s));
  }

  lemma WrapFits(x: int)
    requires 0 <= x < ULONG_RANGE
    ensures Wrap32(x) == x
  {
  }

  /** A local group that already has a task's load gains nothing by another, and the busiest one never gains. */
  lemma BusyGroupGainsNothing(s: Loads, left: nat, local: nat)
    requires left <= s.max && s.localPerTask <= s.local <= local
    ensures Total(s, left, local) <= Total(s, s.max, s.local)
  {
    MulLe(Min(s.perTask, left), Min(s.perTask, s.max), s.busiestPower);
  }

  /** With a task more, the local group gets a unit of power more done. */
  predicate Gains(s: Loads)
    requires 0 < s.localPower
  {
    s.localPower * s.local + SCHED_LOAD_SCALE <= s.localPower * Min(s.localPerTask, s.local + TaskHere(s))
  }

  lemma IdleGroupGains(s: Loads, left: nat)
    requires s.perTask <= left <= s.max && 0 < s.localPower && Gains(s)
    ensures Total(s, s.max, s.local) + SCHED_LOAD_SCALE <= Total(s, left, s.local + TaskHere(s))
  {
    hide TaskHere;
    MulLe(Min(s.localPerTask, s.local), s.local, s.localPower);
  }

  /** The gap between the groups is worth a task, or their tasks are heavier than those of a busy local group. */
  predicate GapIsWide(s: Loads)
    requires s.Guarded()
  {
    s.perTask <= s.max - s.local || (s.localBusy && s.localPerTask < s.perTask)
  }

  lemma BumpIs(s: Loads)
    requires s.Guarded() && Unwrapped(s) && s.max - s.local + s.perTask < ULONG_RANGE && 2 * s.perTask < ULONG_RANGE
    ensures s.Bump() <==> GapIsWide(s) || Total(s, Left(s), s.local + TaskHere(s)) / SCHED_LOAD_SCALE
                                          > Total(s, s.max, s.local) / SCHED_LOAD_SCALE
  {
    hide Throughput, TaskThere, TaskHere, Total, Left, Loads.PowerMoved;
    PowerMovedIs(s);
    TotalIsExact(s, s.max, s.local);
  }

  /**
   Where the gap alone does not ask for it, a task is moved only if the local group is short of one
   task's load; and it is moved if the busiest group keeps its throughput and the local one gains a
   unit of power.
   */
  lemma BumpsOnThroughput(s: Loads)
    requires s.Guarded() && Unwrapped(s) && s.max - s.local + s.perTask < ULONG_RANGE && 2 * s.perTask < ULONG_RANGE
    ensures !GapIsWide(s) && s.localPerTask <= s.local ==> !s.Bump()
    ensures s.perTask + TaskThere(s) <= s.max && Gains(s) ==> s.Bump()
  {
    hide TaskThere, TaskHere, Total, Loads.Bump, GapIsWide, Gains, Unwrapped;
    BumpIs(s);
    if s.localPerTask <= s.local {
      BusyGroupGainsNothing(s, Left(s), s.local + TaskHere(s));
    }
    if s.perTask + TaskThere(s) <= s.max && Gains(s) {
      IdleGroupGains(s, if s.perTask == 0 && TaskThere(s) == s.max then 0 else Left(s));
    }
  }

  /** The load of a group relative to its power, when the product does not wrap. */
  function Relative(load: nat, power: nat): nat
    requires 0 < power
  {
    Quotient(load * SCHED_LOAD_SCALE, power)
  }

  lemma PullIsBounded(s: Loads)
    requires s.Guarded() && s.avg <= s.max
    ensures s.Pull() * SCHED_LOAD_SCALE <= (s.max - s.avg) * s.busiestPower
    ensures s.Pull() * SCHED_LOAD_SCALE <= (s.max - s.perTask) * s.busiestPower
    ensures s.Pull() * SCHED_LOAD_SCALE <= (s.avg - s.local) * s.localPower
  {
    hide Wrap32, Loads.Pull, Loads.Guarded;
    PullIs(s);
    var m := Min(s.max - s.avg, s.max - s.perTask);
    LesserScaled(m * s.busiestPower, (s.avg - s.local) * s.localPower);
    MulLe(m, s.max - s.avg, s.busiestPower);
    MulLe(m, s.max - s.perTask, s.busiestPower);
  }

  /** Moving `p` brings neither group past the average, and leaves the busiest one a task. */
  predicate Movable(s: Loads, p: nat) {
    && p * SCHED_LOAD_SCALE <= (s.max - s.avg) * s.busiestPower
    && p * SCHED_LOAD_SCALE <= (s.max - s.perTask) * s.busiestPower
    && p * SCHED_LOAD_SCALE <= (s.avg - s.local) * s.localPower
  }

  /** Short of wrapping the pull is the largest amount that may be moved. */
  lemma PullIsLargest(s: Loads, p: nat)
    requires s.Guarded() && s.avg <= s.max && (s.avg - s.local) * s.localPower < ULONG_RANGE
    requires Min(s.max - s.avg, s.max - s.perTask) * s.busiestPower < ULONG_RANGE
    requires Movable(s, p)
    ensures p <= s.Pull()
  {
    hide Loads.Pull, Loads.Guarded;
    PullIs(s);
    var m := Min(s.max - s.avg, s.max - s.perTask);
    var a, b: nat := m * s.busiestPower, (s.avg - s.local) * s.localPower;
    assert Wrap32(a) == a && Wrap32(b) == b && p * SCHED_LOAD_SCALE <= Min(a, b);
    DivBounds(Min(a, b), SCHED_LOAD_SCALE);
  }

  /**
   The amount to move: short of wrapping it is the largest that may be moved, or one task of the
   busiest group, and that only where nothing as large as a task may be moved.
   */
  lemma ImbalanceIsLargest(s: Loads)
    requires s.Guarded() && s.avg <= s.max && (s.avg - s.local) * s.localPower < ULONG_RANGE
    requires Min(s.max - s.avg, s.max - s.perTask) * s.busiestPower < ULONG_RANGE
    ensures forall p: nat | Movable(s, p) :: p <= s.Imbalance()
    ensures Movable(s, s.Imbalance())
            || (s.Bump() && s.Imbalance() == s.perTask && forall p: nat | Movable(s, p) :: p < s.perTask)
    ensures s.Bump() ==> s.perTask <= s.Imbalance()
  {
    hide Loads.Bump, Loads.Guarded, Loads.Pull;
    PullIsBounded(s);
    forall p: nat | Movable(s, p) ensures p <= s.Pull() {
      PullIsLargest(s, p);
    }
    hide Movable;
    assert Movable(s, s.Pull()) by { PullIsMovable(s); }
  }

  lemma PullIsMovable(s: Loads)
    requires s.Guarded() && s.avg <= s.max
    ensures Movable(s, s.Pull())
  {
    hide Loads.Pull;
    PullIsBounded(s);
  }

  /** A busiest group below the average gives up one task or nothing. */
  lemma BelowAverageMovesATaskOrNothing(s: Loads)
    requires s.Guarded() && s.max < s.avg
    ensures s.Imbalance() == if s.Bump() then s.perTask else 0
  {
  }

  lemma PullIs(s: Loads)
    requires s.Guarded() && s.avg <= s.max
    ensures s.local <= s.avg && s.perTask <= s.max
    ensures s.Pull() == Min(Wrap32(Min(s.max - s.avg, s.max - s.perTask) * s.busiestPower),
                            Wrap32((s.avg - s.local) * s.localPower)) / SCHED_LOAD_SCALE
  {
    hide Wrap32;
  }

  lemma LesserScaled(a: nat, b: nat)
    ensures var p := Min(Wrap32(a), Wrap32(b)) / SCHED_LOAD_SCALE;
            p * SCHED_LOAD_SCALE <= a && p * SCHED_LOAD_SCALE <= b
  {
    WrapBelow(a);
    WrapBelow(b);
    DivBounds(Min(Wrap32(a), Wrap32(b)), SCHED_LOAD_SCALE);
    hide Wrap32;
  }

  lemma WrapBelow(x: nat)
    ensures Wrap32(x) <= x
  {
  }

  /**
   Moving an imbalance that was not bumped keeps the local group at or below the average, and the
   busiest group at or above both the average and the load of one of its tasks, even where the
   products behind the imbalance wrap.
   */
  lemma PullKeepsAverage(s: Loads, busiestLoad: nat, localLoad: nat)
    requires s.Guarded() && s.avg <= s.max
    requires s.max == Relative(busiestLoad, s.busiestPower) && s.local == Relative(localLoad, s.localPower)
    ensures s.Pull() <= busiestLoad
    ensures Relative(localLoad + s.Pull(), s.localPower) <= s.avg
    ensures Relative(busiestLoad - s.Pull(), s.busiestPower) >= s.avg
    ensures Relative(busiestLoad - s.Pull(), s.busiestPower) >= s.perTask
  {
    PullIsBounded(s);
    var p := s.Pull();
    hide Loads.Pull;
    StaysBelow(localLoad * SCHED_LOAD_SCALE, p * SCHED_LOAD_SCALE, s.local, s.avg, s.localPower);
    StaysAbove(busiestLoad * SCHED_LOAD_SCALE, p * SCHED_LOAD_SCALE, s.max, s.avg, s.busiestPower);
    StaysAbove(busiestLoad * SCHED_LOAD_SCALE, p * SCHED_LOAD_SCALE, s.max, s.perTask, s.busiestPower);
  }

  lemma StaysBelow(x: nat, p: nat, from: nat, to: nat, power: nat)
    requires 0 < power && from == Quotient(x, power) && from <= to && p <= (to - from) * power
    ensures Quotient(x + p, power) <= to
  {
    assert (to - from) * power == to * power - from * power;
    QuotientAtMost(x + p, power, to);
  }

  lemma StaysAbove(x: nat, p: nat, from: nat, to: nat, power: nat)
    requires 0 < power && from == Quotient(x, power) && to <= from && p <= (from - to) * power
    ensures p <= x && to <= Quotient(x - p, power)
  {
    assert (from - to) * power == from * power - to * power;
    MulLe(0, to, power);
    QuotientAtLeast(x - p, power, to);
  }
}
