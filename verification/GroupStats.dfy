/** The statistics of one group, tallied over its runqueues: `update_sg_lb_stats`. */
module GroupStats {
  import opened Words
  import opened Imbalance
  import opened BusiestGroup

  /** What is read of a runqueue; every number is an `unsigned long`. */
  datatype Cpu = Cpu(nrRunning: nat, idle: bool, targetLoad: nat, sourceLoad: nat, weightedLoad: nat, loadPerTask: nat)

  /** The sum of `f` over the CPUs of `cpus` below `n`. */
  ghost function Sum(cpus: set<nat>, f: nat -> nat, n: nat): nat {
    if n == 0 then 0 else Sum(cpus, f, n - 1) + if n - 1 in cpus then f(n - 1) else 0
  }

  function CpuLoad(rq: nat -> Cpu, local: bool): nat -> nat {
    i => if local then rq(i).targetLoad else rq(i).sourceLoad
  }

  /** The four sums over the CPUs of `cpus` below `n`, each an `unsigned long`. */
  datatype Sums = Sums(load: nat, nrRunning: nat, weighted: nat, perTask: nat)
  {
    ghost predicate Over(cpus: set<nat>, rq: nat -> Cpu, local: bool, n: nat) {
      && load == Wrap32(Sum(cpus, CpuLoad(rq, local), n))
      && nrRunning == Wrap32(Sum(cpus, i => rq(i).nrRunning, n))
      && weighted == Wrap32(Sum(cpus, i => rq(i).weightedLoad, n))
      && perTask == Wrap32(Sum(cpus, i => rq(i).loadPerTask, n))
    }

    function Plus(c: Cpu, cpuLoad: nat): Sums {
      Sums(Wrap32(load + cpuLoad), Wrap32(nrRunning + c.nrRunning), Wrap32(weighted + c.weightedLoad),
           Wrap32(perTask + c.loadPerTask))
    }
  }

  lemma SumNext(cpus: set<nat>, f: nat -> nat, n: nat)
    ensures Wrap32(Sum(cpus, f, n + 1)) ==
            if n in cpus then Wrap32(Wrap32(Sum(cpus, f, n)) + f(n)) else Wrap32(Sum(cpus, f, n))
  {
  }

  lemma SumsNext(s: Sums, cpus: set<nat>, rq: nat -> Cpu, local: bool, n: nat)
    requires s.Over(cpus, rq, local, n)
    ensures (if n in cpus then s.Plus(rq(n), CpuLoad(rq, local)(n)) else s).Over(cpus, rq, local, n + 1)
  {
    SumNext(cpus, CpuLoad(rq, local), n);
    SumNext(cpus, i => rq(i).nrRunning, n);
    SumNext(cpus, i => rq(i).weightedLoad, n);
    SumNext(cpus, i => rq(i).loadPerTask, n);
    hide Sum, Wrap32;
  }

  /** The CPU of the group that balances for it: its first idle one, or else its first one. */
  function BalanceCpu(group: set<nat>, cpus: set<nat>, rq: nat -> Cpu, nr_cpu_ids: nat): nat {
    var idle := set i | i in group && i in cpus && rq(i).idle;
    if FirstCpu(idle, 0, nr_cpu_ids) < nr_cpu_ids then FirstCpu(idle, 0, nr_cpu_ids) else FirstCpu(group, 0, nr_cpu_ids)
  }

  /** `m` is the greatest and `l` the least load of the CPUs below `n`, or 0 and ULONG_MAX if there are none. */
  ghost predicate Spread(cpus: set<nat>, load: nat -> nat, n: nat, m: nat, l: nat) {
    && (forall i | i in cpus && i < n :: l <= load(i) <= m)
    && (if exists i :: i in cpus && i < n then
          (exists i :: i in cpus && i < n && load(i) == m) && (exists i :: i in cpus && i < n && load(i) == l)
        else m == 0 && l == ULONG_RANGE - 1)
  }

  function AverageTask(sum: nat, cpuPower: nat): nat
    requires cpuPower > 0
  {
    Quotient(Wrap32(sum * SCHED_LOAD_SCALE), cpuPower)
  }

  /** The tasks a group has room for: its power in full CPUs, rounded to the nearest. */
  function GroupCapacity(cpuPower: nat): nat {
    Wrap32(cpuPower + SCHED_LOAD_SCALE / 2) / SCHED_LOAD_SCALE
  }

  lemma GroupCapacityIsRounded(cpuPower: nat)
    requires cpuPower + 512 < ULONG_RANGE
    ensures cpuPower - 512 < GroupCapacity(cpuPower) * 1024 <= cpuPower + 512
  {
  }

  /** A group counts as unbalanced when its loads differ by more than two average tasks; the difference is unsigned. */
  predicate Unbalanced(max: nat, min: nat, averageTask: nat) {
    Wrap32(max - min) > Wrap32(2 * averageTask)
  }

  /** The idle CPU remembered is the first one below `n`, if there is one. */
  ghost predicate IdleFound(all: set<nat>, rq: nat -> Cpu, n: nat, found: bool, cpu: nat) {
    if found then cpu in all && cpu < n && rq(cpu).idle && forall j | j in all && j < cpu :: !rq(j).idle
    else forall j | j in all && j < n :: !rq(j).idle
  }

  lemma {:induction false} FirstCpuFrom(cpus: set<nat>, i: nat, n: nat, c: nat)
    requires i <= c <= n && (c < n ==> c in cpus) && forall j | j in cpus && i <= j < n :: c <= j
    ensures FirstCpu(cpus, i, n) == c
    decreases n - i
  {
    if i < c {
      FirstCpuFrom(cpus, i + 1, n, c);
    }
  }

  lemma BalanceCpuIs(group: set<nat>, cpus: set<nat>, rq: nat -> Cpu, n: nat, found: bool, cpu: nat)
    requires IdleFound(group * cpus, rq, n, found, cpu) && (!found ==> cpu == FirstCpu(group, 0, n))
    ensures BalanceCpu(group, cpus, rq, n) == cpu
  {
    var idle := set i | i in group && i in cpus && rq(i).idle;
    FirstCpuFrom(idle, 0, n, if found then cpu else n);
  }

  /** A CPU that looks at its own group with this mask and these idle flags goes on to balance. */
  predicate Elected(group: set<nat>, cpus: set<nat>, rq: nat -> Cpu, nr_cpu_ids: nat, thisCpu: nat) {
    thisCpu in group && thisCpu == BalanceCpu(group, cpus, rq, nr_cpu_ids)
  }

  /** Of the CPUs of a group that see the same mask and idle flags, exactly one balances for it. */
  lemma OneCpuBalances(group: set<nat>, cpus: set<nat>, rq: nat -> Cpu, nr_cpu_ids: nat) returns (c: nat)
    requires group != {} && forall i | i in group :: i < nr_cpu_ids
    ensures c in group
    ensures forall k | k in group :: Elected(group, cpus, rq, nr_cpu_ids, k) <==> k == c
  {
    c := BalanceCpu(group, cpus, rq, nr_cpu_ids);
    var g :| g in group;
    FirstCpuIsMember(group, 0, nr_cpu_ids, g);
    var idle := set i | i in group && i in cpus && rq(i).idle;
    if idle == {} {
      FirstCpuFrom(idle, 0, nr_cpu_ids, nr_cpu_ids);
    } else {
      var d :| d in idle;
      FirstCpuIsMember(idle, 0, nr_cpu_ids, d);
    }
  }

  /** The one that does is the first idle CPU of the group among the candidates, or the first of all if none is idle. */
  lemma ElectedIsFirst(group: set<nat>, cpus: set<nat>, rq: nat -> Cpu, nr_cpu_ids: nat, c: nat)
    requires c in group && forall i | i in group :: i < nr_cpu_ids
    ensures Elected(group, cpus, rq, nr_cpu_ids, c) <==>
            if exists i :: i in group && i in cpus && rq(i).idle then
              c in cpus && rq(c).idle && forall i | i in group && i in cpus && rq(i).idle :: c <= i
            else forall i | i in group :: c <= i
  {
    var idle := set i | i in group && i in cpus && rq(i).idle;
    assert BalanceCpu(group, cpus, rq, nr_cpu_ids) ==
           if FirstCpu(idle, 0, nr_cpu_ids) < nr_cpu_ids then FirstCpu(idle, 0, nr_cpu_ids)
           else FirstCpu(group, 0, nr_cpu_ids);
    if i :| i in group && i in cpus && rq(i).idle {
      assert i in idle;
      LeastIs(idle, nr_cpu_ids, i);
      var f := FirstCpu(idle, 0, nr_cpu_ids);
      assert f in group && f in cpus && rq(f).idle;
      assert forall k | k in group && k in cpus && rq(k).idle :: k in idle;
      hide FirstCpu, BalanceCpu;
      if c in cpus && rq(c).idle && (forall k | k in group && k in cpus && rq(k).idle :: c <= k) {
        assert c == f;
      }
    } else {
      assert idle == {};
      FirstCpuFrom(idle, 0, nr_cpu_ids, nr_cpu_ids);
      LeastIs(group, nr_cpu_ids, c);
      hide FirstCpu, BalanceCpu;
      if forall k | k in group :: c <= k {
        assert c == FirstCpu(group, 0, nr_cpu_ids);
      }
    }
  }

  lemma LeastIs(cpus: set<nat>, n: nat, i: nat)
    requires i in cpus && forall c | c in cpus :: c < n
    ensures FirstCpu(cpus, 0, n) in cpus && forall c | c in cpus :: FirstCpu(cpus, 0, n) <= c
  {
    FirstCpuIsMember(cpus, 0, n, i);
    FirstCpuIsLeast(cpus, 0, n);
  }

  lemma {:induction false} FirstCpuIsLeast(cpus: set<nat>, i: nat, n: nat)
    ensures forall c | c in cpus && i <= c :: FirstCpu(cpus, i, n) <= c || n <= c
    decreases n - i
  {
    if i < n && i !in cpus {
      FirstCpuIsLeast(cpus, i + 1, n);
    }
  }

  /** CPUs that see different idle flags may both balance: CPU 1 has just become idle, and CPU 0 has not seen it. */
  lemma TwoViewsElectTwo(rq: nat -> Cpu, later: nat -> Cpu)
    requires !rq(0).idle && !rq(1).idle && !later(0).idle && later(1).idle
    ensures Elected({0, 1}, {0, 1}, rq, 2, 0) && Elected({0, 1}, {0, 1}, later, 2, 1)
  {
    BalanceCpuIs({0, 1}, {0, 1}, rq, 2, false, 0);
    BalanceCpuIs({0, 1}, {0, 1}, later, 2, true, 1);
  }

  /** A remote group with no candidate CPU left counts as unbalanced, although it has no load. */
  lemma EmptyGroupLooksUnbalanced(rq: nat -> Cpu, nr_cpu_ids: nat, max: nat, min: nat, cpuPower: nat, perTask: nat)
    requires Spread({}, CpuLoad(rq, false), nr_cpu_ids, max, min) && cpuPower > 0
    requires perTask == Sum({}, i => rq(i).loadPerTask, nr_cpu_ids)
    ensures Unbalanced(max, min, AverageTask(perTask, cpuPower)) && Sum({}, CpuLoad(rq, false), nr_cpu_ids) == 0
  {
    SumOverNone(i => rq(i).loadPerTask, nr_cpu_ids);
    SumOverNone(CpuLoad(rq, false), nr_cpu_ids);
    QuotientIs(0, cpuPower, 0);
  }

  /**
   A remote group with candidates is unbalanced exactly when the loads of two of them differ by more
   than two average tasks; no difference wraps then.
   */
  lemma UnbalancedIff(cpus: set<nat>, rq: nat -> Cpu, nr_cpu_ids: nat, max: nat, min: nat, averageTask: nat)
    requires Spread(cpus, CpuLoad(rq, false), nr_cpu_ids, max, min) && exists i :: i in cpus && i < nr_cpu_ids
    requires 2 * averageTask < ULONG_RANGE && forall i :: rq(i).sourceLoad < ULONG_RANGE
    ensures Unbalanced(max, min, averageTask) <==>
            exists i, j | i in cpus && j in cpus && i < nr_cpu_ids && j < nr_cpu_ids ::
              rq(i).sourceLoad > rq(j).sourceLoad + 2 * averageTask
  {
    hide Spread;
    var i, j := SpreadIs(cpus, rq, nr_cpu_ids, max, min);
    assert Wrap32(max - min) == max - min && Wrap32(2 * averageTask) == 2 * averageTask;
    hide Wrap32;
  }

  /** The spread lies between two of the loads, and so do all the others. */
  lemma SpreadIs(cpus: set<nat>, rq: nat -> Cpu, n: nat, max: nat, min: nat) returns (i: nat, j: nat)
    requires Spread(cpus, CpuLoad(rq, false), n, max, min) && exists i :: i in cpus && i < n
    requires forall i :: rq(i).sourceLoad < ULONG_RANGE
    ensures i in cpus && i < n && rq(i).sourceLoad == max && j in cpus && j < n && rq(j).sourceLoad == min
    ensures min <= max < ULONG_RANGE && forall k | k in cpus && k < n :: min <= rq(k).sourceLoad <= max
  {
    var load := CpuLoad(rq, false);
    assert forall k :: load(k) == rq(k).sourceLoad;
    i :| i in cpus && i < n && load(i) == max;
    j :| j in cpus && j < n && load(j) == min;
  }

  /** The average task is the sum of the CPUs' averages relative to the power of the group, short of wrapping. */
  lemma AverageTaskIs(sum: nat, cpuPower: nat)
    requires cpuPower > 0 && sum * SCHED_LOAD_SCALE < ULONG_RANGE
    ensures AverageTask(sum, cpuPower) * cpuPower <= sum * SCHED_LOAD_SCALE
            < (AverageTask(sum, cpuPower) + 1) * cpuPower
  {
    var q := AverageTask(sum, cpuPower);
    assert (q + 1) * cpuPower == q * cpuPower + cpuPower;
  }

  lemma {:induction false} SumOverNone(f: nat -> nat, n: nat)
    ensures Sum({}, f, n) == 0
  {
    if n > 0 {
      SumOverNone(f, n - 1);
    }
  }

  /** What the loop remembers of the CPUs seen, apart from the sums. */
  datatype Seen = Seen(max: nat, min: nat, firstIdle: bool, balanceCpu: nat, sdIdle: bool)
  {
    ghost predicate Of(group: set<nat>, cpus: set<nat>, rq: nat -> Cpu, local: bool, nr_cpu_ids: nat, sd_idle: bool,
                       n: nat)
    {
      && (if local then max == 0 && min == ULONG_RANGE - 1 else Spread(group * cpus, CpuLoad(rq, local), n, max, min))
      && sdIdle == (sd_idle && forall j | j in group * cpus && j < n :: rq(j).nrRunning == 0)
      && (local ==> IdleFound(group * cpus, rq, n, firstIdle, balanceCpu)
                    && (!firstIdle ==> balanceCpu == FirstCpu(group, 0, nr_cpu_ids)))
    }

    /** After CPU `i` with runqueue `c`. */
    function Plus(c: Cpu, i: nat, local: bool): Seen {
      var busy := this.(sdIdle := sdIdle && c.nrRunning == 0);
      if !local then
        busy.(max := if c.sourceLoad > max then c.sourceLoad else max,
              min := if min > c.sourceLoad then c.sourceLoad else min)
      else if c.idle && !firstIdle then busy.(firstIdle := true, balanceCpu := i)
      else busy
    }
  }

  /** Exactly one CPU of the local group goes on, unless it is newly idle. */
  method UpdateSgLbStats(group: set<nat>, cpuPower: nat, thisCpu: nat, newlyIdle: bool, cpus: set<nat>,
                         rq: nat -> Cpu, nr_cpu_ids: nat, sd_idle: bool)
    returns (t: Valued, balance: bool, sdIdle: bool, ghost sums: Sums, ghost seen: Seen)
    requires 0 < cpuPower < ULONG_RANGE && forall i | i in group :: i < nr_cpu_ids
    requires forall i :: rq(i).targetLoad < ULONG_RANGE && rq(i).sourceLoad < ULONG_RANGE
    ensures sums.Over(group * cpus, rq, thisCpu in group, nr_cpu_ids)
    ensures seen.Of(group, cpus, rq, thisCpu in group, nr_cpu_ids, sd_idle, nr_cpu_ids)
    ensures t.groupLoad == sums.load && t.nrRunning == sums.nrRunning && t.weightedLoad == sums.weighted
    ensures sdIdle == seen.sdIdle
    ensures balance == (newlyIdle || thisCpu !in group || Elected(group, cpus, rq, nr_cpu_ids, thisCpu))
    ensures balance ==>
              && t.groupImb == Unbalanced(seen.max, seen.min, AverageTask(sums.perTask, cpuPower))
              && t.capacity == GroupCapacity(cpuPower)
  {
    hide Sums.Over, Seen.Of, FirstCpu, BalanceCpu, Quotient, IdleFound;
    var local := thisCpu in group;
    var total := Sums(0, 0, 0, 0);
    NothingSummed(group * cpus, rq, local);
    var max: nat, min: nat, first_idle_cpu := 0, ULONG_RANGE - 1, false;
    var balance_cpu: nat := if local then FirstCpu(group, 0, nr_cpu_ids) else ULONG_RANGE - 1;
    sdIdle := sd_idle;
    seen := Seen(max, min, first_idle_cpu, balance_cpu, sdIdle);
    NothingSeen(group, cpus, rq, local, nr_cpu_ids, sd_idle);
    for i := 0 to nr_cpu_ids
      invariant total.Over(group * cpus, rq, local, i)
      invariant seen == Seen(max, min, first_idle_cpu, balance_cpu, sdIdle)
      invariant seen.Of(group, cpus, rq, local, nr_cpu_ids, sd_idle, i)
    {
      SumsNext(total, group * cpus, rq, local, i);
      SeenNext(seen, group, cpus, rq, local, nr_cpu_ids, sd_idle, i);
      if i in group && i in cpus {
        if sdIdle && rq(i).nrRunning > 0 {
          sdIdle := false;
        }
        var load: nat;
        if local {
          if rq(i).idle && !first_idle_cpu {
            first_idle_cpu, balance_cpu := true, i;
          }
          load := rq(i).targetLoad;
        } else {
          load := rq(i).sourceLoad;
          if load > max { max := load; }
          if min > load { min := load; }
        }
        total := total.Plus(rq(i), load);
        seen := seen.Plus(rq(i), i, local);
      }
    }
    sums := total;
    balance := newlyIdle || !local || balance_cpu == thisCpu;
    SeenBalances(seen, group, cpus, rq, local, nr_cpu_ids, sd_idle);
    t := Finish(total, max, min, cpuPower, balance, group * cpus, rq, local, nr_cpu_ids);
  }

  /** The part that only a CPU which goes on gets to. */
  method Finish(total: Sums, max: nat, min: nat, cpuPower: nat, balance: bool,
                ghost cpus: set<nat>, ghost rq: nat -> Cpu, ghost local: bool, ghost n: nat) returns (t: Valued)
    requires cpuPower > 0 && total.Over(cpus, rq, local, n)
    ensures t.groupLoad == total.load && t.nrRunning == total.nrRunning && t.weightedLoad == total.weighted
    ensures balance ==>
              && t.groupImb == Unbalanced(max, min, AverageTask(total.perTask, cpuPower))
              && t.capacity == GroupCapacity(cpuPower)
  {
    SumsAreWords(total, cpus, rq, local, n);
    t := Tally(total.load, total.nrRunning, total.weighted, 0, false);
    if balance {
      var avg_load_per_task := AverageTask(total.perTask, cpuPower);
      t := t.(groupImb := Wrap32(max - min) > Wrap32(2 * avg_load_per_task),
              capacity := Wrap32(cpuPower + SCHED_LOAD_SCALE / 2) / SCHED_LOAD_SCALE);
    }
  }

  lemma NothingSeen(group: set<nat>, cpus: set<nat>, rq: nat -> Cpu, local: bool, nr_cpu_ids: nat, sd_idle: bool)
    ensures Seen(0, ULONG_RANGE - 1, false, if local then FirstCpu(group, 0, nr_cpu_ids) else ULONG_RANGE - 1, sd_idle).
              Of(group, cpus, rq, local, nr_cpu_ids, sd_idle, 0)
  {
  }

  lemma SeenNext(s: Seen, group: set<nat>, cpus: set<nat>, rq: nat -> Cpu, local: bool, nr_cpu_ids: nat,
                 sd_idle: bool, n: nat)
    requires s.Of(group, cpus, rq, local, nr_cpu_ids, sd_idle, n)
    requires rq(n).sourceLoad < ULONG_RANGE
    ensures (if n in group && n in cpus then s.Plus(rq(n), n, local) else s).
              Of(group, cpus, rq, local, nr_cpu_ids, sd_idle, n + 1)
  {
    hide FirstCpu, Spread;
    if !local {
      SpreadNext(group * cpus, CpuLoad(rq, local), n, s.max, s.min);
    }
  }

  lemma SpreadNext(cpus: set<nat>, load: nat -> nat, n: nat, m: nat, l: nat)
    requires Spread(cpus, load, n, m, l) && load(n) < ULONG_RANGE
    ensures if n in cpus then
              Spread(cpus, load, n + 1, if load(n) > m then load(n) else m, if l > load(n) then load(n) else l)
            else Spread(cpus, load, n + 1, m, l)
  {
    if exists i :: i in cpus && i < n {
      var i :| i in cpus && i < n && load(i) == m;
      var j :| j in cpus && j < n && load(j) == l;
      assert i < n + 1 && j < n + 1;
    }
  }

  lemma SeenBalances(s: Seen, group: set<nat>, cpus: set<nat>, rq: nat -> Cpu, local: bool, nr_cpu_ids: nat,
                     sd_idle: bool)
    requires s.Of(group, cpus, rq, local, nr_cpu_ids, sd_idle, nr_cpu_ids)
    ensures local ==> BalanceCpu(group, cpus, rq, nr_cpu_ids) == s.balanceCpu
  {
    hide FirstCpu, BalanceCpu;
    if local {
      BalanceCpuIs(group, cpus, rq, nr_cpu_ids, s.firstIdle, s.balanceCpu);
    }
  }

  lemma NothingSummed(cpus: set<nat>, rq: nat -> Cpu, local: bool)
    ensures Sums(0, 0, 0, 0).Over(cpus, rq, local, 0)
  {
  }

  lemma SumsAreWords(s: Sums, cpus: set<nat>, rq: nat -> Cpu, local: bool, n: nat)
    requires s.Over(cpus, rq, local, n)
    ensures s.load < ULONG_RANGE && s.nrRunning < ULONG_RANGE && s.weighted < ULONG_RANGE
  {
  }
}
