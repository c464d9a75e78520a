/** Choosing a group to pull from: `update_sd_lb_stats` and `find_busiest_group`. */
module BusiestGroup {
  import opened Words
  import opened SchedGroups
  import opened Imbalance

  /** What `update_sg_lb_stats` tallies over the runqueues of a group. */
  datatype Tally = Tally(groupLoad: nat, nrRunning: nat, weightedLoad: nat, capacity: nat, groupImb: bool)
  {
    predicate Valid() {
      groupLoad < ULONG_RANGE && nrRunning < ULONG_RANGE && weightedLoad < ULONG_RANGE && capacity < ULONG_RANGE
    }
  }

  type Valued = t: Tally | t.Valid() witness Tally(0, 0, 0, 0, false)

  /** `struct sched_domain`, the CPU that balances it, and what it finds on the runqueues. */
  datatype Scene = Scene(
    nr_cpu_ids: nat, groups: SchedGroup, imbalancePct: nat, powersavings: bool, childPrefersSibling: bool,
    thisCpu: nat, busy: bool,                // idle == CPU_NOT_IDLE
    tally: SchedGroup -> Valued,
    mayBalance: bool,                        // this CPU is the one of its group that balances
    idleAvg: nat)                            // cpu_avg_load_per_task(this_cpu)
  {
    ghost predicate Valid(ring: seq<SchedGroup>)
      reads ring
    {
      && Ring(ring) && ring[0] == groups && Disjoint(ring)
      && (exists k :: 0 <= k < |ring| && thisCpu in ring[k].cpus)
      && (forall k | 0 <= k < |ring| :: ring[k].cpuPower > 0 && forall c | c in ring[k].cpus :: c < nr_cpu_ids)
      && PowerSum(Rows(ring), |ring|) < ULONG_RANGE
    }

    /** `struct sg_lb_stats` of a group, its capacity lowered when tasks should move to siblings first. */
    function StatsOf(g: SchedGroup): (r: Row)
      reads g
    {
      var t := tally(g);
      Row(g, thisCpu in g.cpus, FirstCpu(g.cpus, 0, nr_cpu_ids), g.cpuPower, t.groupLoad,
          if g.cpuPower == 0 then 0 else Quotient(Wrap32(t.groupLoad * SCHED_LOAD_SCALE), g.cpuPower),
          t.nrRunning, t.weightedLoad,
          if childPrefersSibling then Min(t.capacity, 1) else t.capacity, t.groupImb)
    }

    ghost function Rows(ring: seq<SchedGroup>): (rows: seq<Row>)
      reads ring
      ensures |rows| == |ring|
    {
      seq(|ring|, k requires 0 <= k < |ring| reads ring => StatsOf(ring[k]))
    }
  }

  /** `cpumask_first`, scanning from `i`. */
  function FirstCpu(cpus: set<nat>, i: nat, nr_cpu_ids: nat): nat
    decreases nr_cpu_ids - i
  {
    if i >= nr_cpu_ids then nr_cpu_ids else if i in cpus then i else FirstCpu(cpus, i + 1, nr_cpu_ids)
  }

  /** A group and its statistics. */
  datatype Row = Row(group: SchedGroup, local: bool, first: nat, power: nat, groupLoad: nat, avgLoad: nat,
                     nrRunning: nat, weightedLoad: nat, capacity: nat, groupImb: bool)
  {
    /** A group that tasks should leave. */
    predicate Overloaded() {
      !local && (nrRunning > capacity || groupImb)
    }

    /** A group that is neither idle nor full. */
    predicate Spare() {
      0 < nrRunning < capacity
    }

    /** Preferred as the group to empty: fewer tasks, and on a tie the later CPUs. */
    predicate Emptier(o: Row) {
      nrRunning < o.nrRunning || (nrRunning == o.nrRunning && first >= o.first)
    }

    /** Preferred as the group to fill: more tasks, and on a tie the earlier CPUs. */
    predicate Fuller(o: Row) {
      nrRunning > o.nrRunning || (nrRunning == o.nrRunning && first <= o.first)
    }
  }

  ghost function LoadSum(rows: seq<Row>, k: nat): nat
    requires k <= |rows|
  {
    if k == 0 then 0 else LoadSum(rows, k - 1) + rows[k - 1].groupLoad
  }

  ghost function PowerSum(rows: seq<Row>, k: nat): nat
    requires k <= |rows|
  {
    if k == 0 then 0 else PowerSum(rows, k - 1) + rows[k - 1].power
  }

  /** Row `b` is the first overloaded one of the highest load, which is not zero. */
  ghost predicate Busiest(rows: seq<Row>, k: nat, b: nat)
    requires k <= |rows|
  {
    && b < k && rows[b].Overloaded() && rows[b].avgLoad > 0
    && (forall j | 0 <= j < k && rows[j].Overloaded() :: rows[j].avgLoad <= rows[b].avgLoad)
    && (forall j | 0 <= j < b && rows[j].Overloaded() :: rows[j].avgLoad < rows[b].avgLoad)
  }

  ghost predicate NoneBusy(rows: seq<Row>, k: nat)
    requires k <= |rows|
  {
    forall j | 0 <= j < k && rows[j].Overloaded() :: rows[j].avgLoad == 0
  }

  ghost predicate Emptiest(rows: seq<Row>, k: nat, m: nat)
    requires k <= |rows|
  {
    m < k && rows[m].Spare() && forall j | 0 <= j < k && rows[j].Spare() :: rows[m].Emptier(rows[j])
  }

  ghost predicate Fullest(rows: seq<Row>, k: nat, l: nat)
    requires k <= |rows|
  {
    l < k && rows[l].Spare() && forall j | 0 <= j < k && rows[j].Spare() :: rows[l].Fuller(rows[j])
  }

  /** The first `k` groups are summed up. */
  ghost predicate TotalsNoted(rows: seq<Row>, k: nat, sds: SdLbStats)
    requires k <= |rows|
    reads sds`totalLoad, sds`totalPwr
  {
    sds.totalLoad == Wrap32(LoadSum(rows, k)) && sds.totalPwr == Wrap32(PowerSum(rows, k))
  }

  /** Row `b` is recorded as the busiest. */
  ghost predicate BusiestIs(r: Row, sds: SdLbStats)
    reads sds`busiest, sds`maxLoad, sds`busiestNrRunning, sds`busiestLoadPerTask, sds`groupImb
  {
    && sds.busiest == r.group && sds.maxLoad == r.avgLoad && sds.busiestNrRunning == r.nrRunning
    && sds.busiestLoadPerTask == r.weightedLoad && sds.groupImb == r.groupImb
  }

  ghost predicate BusiestNoted(rows: seq<Row>, k: nat, sds: SdLbStats)
    requires k <= |rows|
    reads sds`busiest, sds`maxLoad, sds`busiestNrRunning, sds`busiestLoadPerTask, sds`groupImb
  {
    if sds.busiest == null then sds.maxLoad == 0 && NoneBusy(rows, k)
    else exists b: nat :: Busiest(rows, k, b) && BusiestIs(rows[b], sds)
  }

  ghost predicate LocalIs(r: Row, sds: SdLbStats)
    reads sds`this_, sds`thisLoad, sds`thisNrRunning, sds`thisLoadPerTask
  {
    && sds.this_ == r.group && sds.thisLoad == r.avgLoad && sds.thisNrRunning == r.nrRunning
    && sds.thisLoadPerTask == r.weightedLoad
  }

  /** At most one of the groups is local: it is recorded once it has been seen. */
  ghost predicate LocalNoted(rows: seq<Row>, k: nat, sds: SdLbStats)
    requires k <= |rows|
    reads sds`this_, sds`thisLoad, sds`thisNrRunning, sds`thisLoadPerTask
  {
    && (sds.this_ == null ==> forall j | 0 <= j < k :: !rows[j].local)
    && (sds.this_ != null ==> exists t :: 0 <= t < k && rows[t].local && LocalIs(rows[t], sds))
  }

  ghost predicate MinIs(r: Row, sds: SdLbStats)
    reads sds`groupMin, sds`minNrRunning, sds`minLoadPerTask
  {
    && r.Spare() && sds.groupMin == r.group && sds.minNrRunning == r.nrRunning
    && sds.minLoadPerTask == Quotient(r.weightedLoad, r.nrRunning)
  }

  ghost predicate LeaderIs(r: Row, sds: SdLbStats)
    reads sds`groupLeader, sds`leaderNrRunning
  {
    r.Spare() && sds.groupLeader == r.group && sds.leaderNrRunning == r.nrRunning
  }

  ghost predicate MinNoted(rows: seq<Row>, k: nat, sds: SdLbStats)
    requires k <= |rows|
    reads sds`powerSavingsBalance, sds`groupMin, sds`minNrRunning, sds`minLoadPerTask
  {
    if sds.groupMin == null then
      sds.minNrRunning == ULONG_RANGE - 1 && (sds.powerSavingsBalance ==> forall j | 0 <= j < k :: !rows[j].Spare())
    else exists m :: 0 <= m < k && MinIs(rows[m], sds) && (sds.powerSavingsBalance ==> Emptiest(rows, k, m))
  }

  ghost predicate LeaderNoted(rows: seq<Row>, k: nat, sds: SdLbStats)
    requires k <= |rows|
    reads sds`powerSavingsBalance, sds`groupLeader, sds`leaderNrRunning
  {
    if sds.groupLeader == null then
      sds.leaderNrRunning == 0 && (sds.powerSavingsBalance ==> forall j | 0 <= j < k :: !rows[j].Spare())
    else exists l :: 0 <= l < k && LeaderIs(rows[l], sds) && (sds.powerSavingsBalance ==> Fullest(rows, k, l))
  }

  /**
   Power savings stay possible while the local group is neither idle nor full; then the groups to
   empty and to fill are the right ones among those seen.
   */
  ghost predicate PowerNoted(rows: seq<Row>, k: nat, enabled: bool, sds: SdLbStats)
    requires k <= |rows|
    reads sds`powerSavingsBalance, sds`groupMin, sds`minNrRunning, sds`minLoadPerTask, sds`groupLeader,
          sds`leaderNrRunning
  {
    && sds.powerSavingsBalance == (enabled && forall j | 0 <= j < k && rows[j].local :: rows[j].Spare())
    && (enabled ==>
          (sds.groupMin == null <==> sds.groupLeader == null) && MinNoted(rows, k, sds) && LeaderNoted(rows, k, sds))
  }

  /** A group that is not considered changes nothing. */
  lemma NotConsidered(rows: seq<Row>, k: nat, sds: SdLbStats)
    requires k < |rows| && (sds.powerSavingsBalance ==> !rows[k].Spare())
    ensures MinNoted(rows, k, sds) ==> MinNoted(rows, k + 1, sds)
    ensures LeaderNoted(rows, k, sds) ==> LeaderNoted(rows, k + 1, sds)
  {
    hide Row.Emptier, Row.Fuller, MinIs, LeaderIs;
  }

  method NotePowerSavings(sds: SdLbStats, sgs: Row, ghost enabled: bool, ghost rows: seq<Row>, ghost k: nat)
    requires k < |rows| && sgs == rows[k] && PowerNoted(rows, k, enabled, sds) && sds.powerSavingsBalance
    requires sgs.local ==> sds.thisNrRunning == sgs.nrRunning
    modifies sds`powerSavingsBalance
    ensures sds.powerSavingsBalance == (!sgs.local || sgs.Spare()) && enabled
    ensures MinNoted(rows, k, sds) && LeaderNoted(rows, k, sds) && (sds.groupMin == null <==> sds.groupLeader == null)
  {
    if sgs.local && (sds.thisNrRunning >= sgs.capacity || sds.thisNrRunning == 0) {
      sds.powerSavingsBalance := false;
    }
    hide Emptiest, Fullest, MinIs, LeaderIs;
  }

  /** `update_sd_power_savings_stats` for the next group. */
  method UpdateSdPowerSavingsStats(scene: Scene, sds: SdLbStats, sgs: Row, ghost rows: seq<Row>, ghost k: nat)
    requires k < |rows| && sgs == rows[k] && PowerNoted(rows, k, scene.powersavings && !scene.busy, sds)
    requires sgs.local ==> sds.thisNrRunning == sgs.nrRunning
    requires sgs.capacity < ULONG_RANGE
    requires forall j | 0 <= j <= k :: rows[j] == scene.StatsOf(rows[j].group)
    modifies sds`powerSavingsBalance, sds`groupMin, sds`minNrRunning, sds`minLoadPerTask, sds`groupLeader,
             sds`leaderNrRunning
    ensures PowerNoted(rows, k + 1, scene.powersavings && !scene.busy, sds)
  {
    hide MinNoted, LeaderNoted, Scene.StatsOf;
    if !sds.powerSavingsBalance {
      NotConsidered(rows, k, sds);
      return;
    }
    NotePowerSavings(sds, sgs, scene.powersavings && !scene.busy, rows, k);
    if !sds.powerSavingsBalance || sgs.nrRunning >= sgs.capacity || sgs.nrRunning == 0 {
      NotConsidered(rows, k, sds);
      return;
    }
    NoteMin(scene, sds, sgs, rows, k);
    // There is room for one more task: the capacity exceeds the number of tasks already.
    NoteLeader(scene, sds, sgs, rows, k);
  }

  /** A group that is neither idle nor full may be the one to empty. */
  method NoteMin(scene: Scene, sds: SdLbStats, sgs: Row, ghost rows: seq<Row>, ghost k: nat)
    requires k < |rows| && sgs == rows[k] && MinNoted(rows, k, sds)
    requires sds.powerSavingsBalance && sgs.Spare() && sgs.capacity < ULONG_RANGE
    requires forall j | 0 <= j <= k :: rows[j] == scene.StatsOf(rows[j].group)
    modifies sds`groupMin, sds`minNrRunning, sds`minLoadPerTask
    ensures MinNoted(rows, k + 1, sds) && sds.groupMin != null
  {
    hide FirstCpu, Quotient;
    if sgs.nrRunning < sds.minNrRunning
       || (sgs.nrRunning == sds.minNrRunning
           && sgs.first > FirstCpu(sds.groupMin.cpus, 0, scene.nr_cpu_ids)) {
      sds.groupMin := sgs.group;
      sds.minNrRunning := sgs.nrRunning;
      sds.minLoadPerTask := Quotient(sgs.weightedLoad, sgs.nrRunning);
    }
  }

  /** And it may be the one to fill. */
  method NoteLeader(scene: Scene, sds: SdLbStats, sgs: Row, ghost rows: seq<Row>, ghost k: nat)
    requires k < |rows| && sgs == rows[k] && LeaderNoted(rows, k, sds)
    requires sds.powerSavingsBalance && sgs.Spare()
    requires forall j | 0 <= j <= k :: rows[j] == scene.StatsOf(rows[j].group)
    modifies sds`groupLeader, sds`leaderNrRunning
    ensures LeaderNoted(rows, k + 1, sds) && sds.groupLeader != null
  {
    hide FirstCpu, Quotient;
    if sgs.nrRunning > sds.leaderNrRunning
       || (sgs.nrRunning == sds.leaderNrRunning
           && sgs.first < FirstCpu(sds.groupLeader.cpus, 0, scene.nr_cpu_ids)) {
      sds.groupLeader := sgs.group;
      sds.leaderNrRunning := sgs.nrRunning;
    }
  }

  ghost predicate Noted(scene: Scene, rows: seq<Row>, k: nat, sds: SdLbStats)
    requires k <= |rows|
    reads sds
  {
    && TotalsNoted(rows, k, sds) && BusiestNoted(rows, k, sds) && LocalNoted(rows, k, sds)
    && PowerNoted(rows, k, scene.powersavings && !scene.busy, sds)
  }

  method NoteLocal(sds: SdLbStats, sgs: Row, ghost rows: seq<Row>, ghost k: nat)
    requires k < |rows| && sgs == rows[k] && sgs.local
    modifies sds`this_, sds`thisLoad, sds`thisNrRunning, sds`thisLoadPerTask
    ensures LocalNoted(rows, k + 1, sds) && LocalIs(sgs, sds)
  {
    sds.thisLoad, sds.this_ := sgs.avgLoad, sgs.group;
    sds.thisNrRunning, sds.thisLoadPerTask := sgs.nrRunning, sgs.weightedLoad;
    assert LocalIs(rows[k], sds);
  }

  method NoteBusiest(sds: SdLbStats, sgs: Row, ghost rows: seq<Row>, ghost k: nat)
    requires k < |rows| && sgs == rows[k] && !sgs.local && BusiestNoted(rows, k, sds)
    modifies sds`busiest, sds`maxLoad, sds`busiestNrRunning, sds`busiestLoadPerTask, sds`groupImb
    ensures BusiestNoted(rows, k + 1, sds)
  {
    if sgs.avgLoad > sds.maxLoad && (sgs.nrRunning > sgs.capacity || sgs.groupImb) {
      HighestSoFar(rows, k, sds);
      sds.maxLoad, sds.busiest := sgs.avgLoad, sgs.group;
      sds.busiestNrRunning, sds.busiestLoadPerTask := sgs.nrRunning, sgs.weightedLoad;
      sds.groupImb := sgs.groupImb;
      assert Busiest(rows, k + 1, k) && BusiestIs(rows[k], sds);
    } else {
      StillBusiest(rows, k, sds);
    }
  }

  lemma HighestSoFar(rows: seq<Row>, k: nat, sds: SdLbStats)
    requires k < |rows| && BusiestNoted(rows, k, sds)
    ensures forall j | 0 <= j < k && rows[j].Overloaded() :: rows[j].avgLoad <= sds.maxLoad
  {
    hide Row.Overloaded;
  }

  /** The part of the loop that tracks the local and the busiest group. */
  method UpdateLocalOrBusiest(sds: SdLbStats, sgs: Row, ghost rows: seq<Row>, ghost k: nat)
    requires k < |rows| && sgs == rows[k] && BusiestNoted(rows, k, sds) && LocalNoted(rows, k, sds)
    modifies sds`this_, sds`thisLoad, sds`thisNrRunning, sds`thisLoadPerTask,
             sds`busiest, sds`maxLoad, sds`busiestNrRunning, sds`busiestLoadPerTask, sds`groupImb
    ensures BusiestNoted(rows, k + 1, sds) && LocalNoted(rows, k + 1, sds)
    ensures sgs.local ==> LocalIs(sgs, sds)
  {
    if sgs.local {
      StillBusiest(rows, k, sds);
      hide BusiestNoted, LocalNoted, LocalIs;
      NoteLocal(sds, sgs, rows, k);
    } else {
      StillLocal(rows, k, sds);
      hide BusiestNoted, LocalNoted;
      NoteBusiest(sds, sgs, rows, k);
    }
  }

  lemma StillLocal(rows: seq<Row>, k: nat, sds: SdLbStats)
    requires k < |rows| && LocalNoted(rows, k, sds) && !rows[k].local
    ensures LocalNoted(rows, k + 1, sds)
  {
  }

  lemma StillBusiest(rows: seq<Row>, k: nat, sds: SdLbStats)
    requires k < |rows| && BusiestNoted(rows, k, sds)
    requires rows[k].Overloaded() ==> rows[k].avgLoad <= sds.maxLoad
    ensures BusiestNoted(rows, k + 1, sds)
  {
    hide Row.Overloaded;
    if sds.busiest != null {
      var b: nat :| Busiest(rows, k, b) && BusiestIs(rows[b], sds);
      assert sds.maxLoad == rows[b].avgLoad;
      hide BusiestIs;
      assert Busiest(rows, k + 1, b);
    }
  }

  /** One round of the `do` loop. */
  method NoteGroup(scene: Scene, sds: SdLbStats, group: SchedGroup, ghost rows: seq<Row>, ghost k: nat)
    requires k < |rows| && group == rows[k].group && Noted(scene, rows, k, sds)
    requires forall j | 0 <= j <= k :: rows[j] == scene.StatsOf(rows[j].group)
    modifies sds
    ensures Noted(scene, rows, k + 1, sds)
  {
    hide BusiestNoted, LocalNoted, PowerNoted, FirstCpu, Quotient, LoadSum, PowerSum;
    var sgs := scene.StatsOf(group);
    AddGroup(rows, k);
    sds.totalLoad := Wrap32(sds.totalLoad + sgs.groupLoad);
    sds.totalPwr := Wrap32(sds.totalPwr + group.cpuPower);
    UpdateLocalOrBusiest(sds, sgs, rows, k);
    UpdateSdPowerSavingsStats(scene, sds, sgs, rows, k);
  }

  lemma AddGroup(rows: seq<Row>, k: nat)
    requires k < |rows|
    ensures Wrap32(LoadSum(rows, k + 1)) == Wrap32(Wrap32(LoadSum(rows, k)) + rows[k].groupLoad)
    ensures Wrap32(PowerSum(rows, k + 1)) == Wrap32(Wrap32(PowerSum(rows, k)) + rows[k].power)
  {
  }

  method InitSdPowerSavingsStats(scene: Scene, sds: SdLbStats, ghost rows: seq<Row>)
    requires sds.busiest == null && sds.this_ == null && sds.groupMin == null && sds.groupLeader == null
    requires sds.totalLoad == sds.totalPwr == sds.thisLoad == sds.thisNrRunning == sds.maxLoad == 0
    requires sds.leaderNrRunning == 0
    modifies sds
    ensures Noted(scene, rows, 0, sds)
  {
    if scene.busy || !scene.powersavings {
      sds.powerSavingsBalance := false;
    } else {
      sds.powerSavingsBalance, sds.minNrRunning, sds.leaderNrRunning := true, ULONG_RANGE - 1, 0;
    }
  }

  /** Once around the ring, unless this CPU turns out not to be the one that balances for its group. */
  method UpdateSdLbStats(scene: Scene, sds: SdLbStats, ghost ring: seq<SchedGroup>) returns (balance: bool)
    requires scene.Valid(ring)
    requires sds.busiest == null && sds.this_ == null && sds.groupMin == null && sds.groupLeader == null
    requires sds.totalLoad == sds.totalPwr == sds.thisLoad == sds.thisNrRunning == sds.maxLoad == 0
    requires sds.leaderNrRunning == 0
    modifies sds
    ensures balance == scene.mayBalance
    ensures balance ==> Noted(scene, scene.Rows(ring), |ring|, sds)
  {
    hide *;
    RingStart(scene, ring);
    ghost var rows := scene.Rows(ring);
    InitSdPowerSavingsStats(scene, sds, rows);
    ghost var k := 0;
    var group := scene.groups;
    while true
      invariant 0 <= k < |ring| && group == ring[k] && rows == scene.Rows(ring)
      invariant Noted(scene, rows, k, sds)
      invariant !scene.mayBalance ==> forall j | 0 <= j < k :: !rows[j].local
      decreases |ring| - k
    {
      RowOfRing(scene, ring, k);
      RingNext(scene, ring, k);
      if scene.thisCpu in group.cpus && !scene.mayBalance {
        return false;
      }
      NoteGroup(scene, sds, group, rows, k);
      group := group.next;
      k := k + 1;
      if group == scene.groups {
        break;
      }
    }
    balance := true;
  }

  lemma RingStart(scene: Scene, ring: seq<SchedGroup>)
    requires scene.Valid(ring)
    ensures |ring| > 0 && ring[0] == scene.groups
    ensures exists t :: 0 <= t < |ring| && scene.Rows(ring)[t].local
  {
    var t :| 0 <= t < |ring| && scene.thisCpu in ring[t].cpus;
    RowOfRing(scene, ring, t);
  }

  lemma RingNext(scene: Scene, ring: seq<SchedGroup>, k: nat)
    requires scene.Valid(ring) && k < |ring|
    ensures if k + 1 < |ring| then ring[k].next == ring[k + 1] != scene.groups else ring[k].next == scene.groups
  {
    hide Disjoint, Scene.Rows, PowerSum;
  }

  lemma RowOfRing(scene: Scene, ring: seq<SchedGroup>, k: nat)
    requires k < |ring|
    ensures forall j | 0 <= j <= k :: scene.Rows(ring)[j] == scene.StatsOf(scene.Rows(ring)[j].group)
    ensures scene.Rows(ring)[k].group == ring[k]
    ensures scene.Rows(ring)[k].local == (scene.thisCpu in ring[k].cpus)
  {
    hide Quotient, FirstCpu;
  }

  /** The load of the whole domain relative to its power. */
  ghost function Average(rows: seq<Row>): nat
    requires 0 < PowerSum(rows, |rows|)
  {
    Quotient(Wrap32(SCHED_LOAD_SCALE * Wrap32(LoadSum(rows, |rows|))), PowerSum(rows, |rows|))
  }

  /** The load of one task of a busy group, not above the average when its tasks differ widely. */
  ghost function PerTask(rows: seq<Row>, b: nat): nat
    requires b < |rows| && 0 < PowerSum(rows, |rows|) && rows[b].nrRunning > 0
  {
    var task := Quotient(rows[b].weightedLoad, rows[b].nrRunning);
    if rows[b].groupImb then Min(task, Average(rows)) else task
  }

  /** The guards: the busiest group `b` is worth pulling from for the local group `t`. */
  ghost predicate Imbalanced(scene: Scene, rows: seq<Row>, b: nat, t: nat)
    requires t < |rows| && 0 < PowerSum(rows, |rows|)
  {
    && Busiest(rows, |rows|, b) && rows[b].nrRunning > 0
    && rows[t].avgLoad < rows[b].avgLoad && rows[t].avgLoad < Average(rows)
    && Wrap32(100 * rows[b].avgLoad) > Wrap32(scene.imbalancePct * rows[t].avgLoad)
    && PerTask(rows, b) < rows[b].avgLoad
  }

  /** The average of the domain is its load for each unit of power, short of wrapping. */
  lemma AverageIs(rows: seq<Row>)
    requires 0 < PowerSum(rows, |rows|) && LoadSum(rows, |rows|) * 1024 < ULONG_RANGE
    ensures Average(rows) * PowerSum(rows, |rows|) <= LoadSum(rows, |rows|) * 1024
            < Average(rows) * PowerSum(rows, |rows|) + PowerSum(rows, |rows|)
  {
    assert Wrap32(LoadSum(rows, |rows|)) == LoadSum(rows, |rows|);
    assert Wrap32(SCHED_LOAD_SCALE * LoadSum(rows, |rows|)) == LoadSum(rows, |rows|) * 1024;
    hide Wrap32;
  }

  /** A group without power or with sibling preference apart, its load is relative to its power. */
  lemma StatsAre(scene: Scene, g: SchedGroup)
    requires g.cpuPower > 0 && scene.tally(g).groupLoad * 1024 < ULONG_RANGE
    ensures var r, t := scene.StatsOf(g), scene.tally(g);
            && r.avgLoad * g.cpuPower <= t.groupLoad * 1024 < r.avgLoad * g.cpuPower + g.cpuPower
            && r.nrRunning == t.nrRunning && r.weightedLoad == t.weightedLoad && r.groupLoad == t.groupLoad
            && (scene.childPrefersSibling ==> r.capacity <= 1 && r.capacity <= t.capacity)
            && (!scene.childPrefersSibling || t.capacity <= 1 ==> r.capacity == t.capacity)
            && (r.local <==> scene.thisCpu in g.cpus)
  {
    assert Wrap32(scene.tally(g).groupLoad * SCHED_LOAD_SCALE) == scene.tally(g).groupLoad * 1024;
    hide Wrap32, FirstCpu;
  }

  /** One task of a busy group is the average of its tasks, capped by the domain's average where they differ widely. */
  lemma PerTaskIs(rows: seq<Row>, b: nat)
    requires b < |rows| && 0 < PowerSum(rows, |rows|) && rows[b].nrRunning > 0
    ensures PerTask(rows, b) * rows[b].nrRunning <= rows[b].weightedLoad
    ensures rows[b].groupImb ==> PerTask(rows, b) <= Average(rows)
    ensures rows[b].weightedLoad < PerTask(rows, b) * rows[b].nrRunning + rows[b].nrRunning
            || (rows[b].groupImb && PerTask(rows, b) == Average(rows))
  {
    var task := Quotient(rows[b].weightedLoad, rows[b].nrRunning);
    hide Average, Quotient, PowerSum;
    MulLe(PerTask(rows, b), task, rows[b].nrRunning);
  }

  /**
   The guards in so many words, short of wrapping: of the remote groups that have more tasks than
   they have room for, or tasks that differ widely, `b` has the highest load; the local group is
   below it by the margin of the domain and below the average; and `b` keeps more than one task.
   */
  lemma ImbalancedIff(scene: Scene, rows: seq<Row>, b: nat, t: nat)
    requires t < |rows| && b < |rows| && 0 < PowerSum(rows, |rows|) && rows[b].nrRunning > 0
    requires 100 * rows[b].avgLoad < ULONG_RANGE && scene.imbalancePct * rows[t].avgLoad < ULONG_RANGE
    ensures Imbalanced(scene, rows, b, t) <==>
            && !rows[b].local && (rows[b].nrRunning > rows[b].capacity || rows[b].groupImb)
            && (forall j | 0 <= j < |rows| && !rows[j].local
                           && (rows[j].nrRunning > rows[j].capacity || rows[j].groupImb) ::
                  rows[j].avgLoad < rows[b].avgLoad || (rows[j].avgLoad == rows[b].avgLoad && b <= j))
            && rows[t].avgLoad < rows[b].avgLoad && rows[t].avgLoad < Average(rows)
            && 100 * rows[b].avgLoad > scene.imbalancePct * rows[t].avgLoad
            && PerTask(rows, b) < rows[b].avgLoad
  {
    Unwrapped(100 * rows[b].avgLoad);
    MulLe(0, scene.imbalancePct, rows[t].avgLoad);
    Unwrapped(scene.imbalancePct * rows[t].avgLoad);
    hide Wrap32, Average, PerTask, PowerSum;
  }

  ghost function LoadsOf(scene: Scene, rows: seq<Row>, b: nat, t: nat): Loads
    requires t < |rows| && 0 < PowerSum(rows, |rows|) && b < |rows| && rows[b].nrRunning > 0
  {
    Loads(rows[b].avgLoad, rows[t].avgLoad, Average(rows), PerTask(rows, b),
          if rows[t].nrRunning > 0 then Quotient(rows[t].weightedLoad, rows[t].nrRunning) else scene.idleAvg,
          rows[t].nrRunning > 0, rows[b].power, rows[t].power)
  }

  /** The local group `t` is the one to fill and another group `m` the one to empty. */
  ghost predicate SavesPower(scene: Scene, rows: seq<Row>, m: nat, t: nat)
    requires t < |rows|
  {
    scene.powersavings && !scene.busy && Fullest(rows, |rows|, t) && Emptiest(rows, |rows|, m) && m != t
  }

  lemma BusiestIsUnique(rows: seq<Row>, k: nat, b: nat, c: nat)
    requires k <= |rows| && Busiest(rows, k, b) && Busiest(rows, k, c)
    ensures b == c
  {
  }

  /** What the rows of a scene satisfy. */
  ghost predicate Sound(rows: seq<Row>, t: nat) {
    && t < |rows| && rows[t].local
    && (forall j | 0 <= j < |rows| && j != t :: !rows[j].local)
    && (forall i, j | 0 <= i < j < |rows| :: rows[i].group != rows[j].group && rows[i].first != rows[j].first)
    && (forall j | 0 <= j < |rows| ::
          && rows[j].power > 0 && rows[j].avgLoad < ULONG_RANGE
          && rows[j].capacity < ULONG_RANGE && rows[j].nrRunning < ULONG_RANGE)
    && 0 < PowerSum(rows, |rows|) < ULONG_RANGE
  }

  lemma {:induction false} PowerSumPositive(rows: seq<Row>, k: nat)
    requires k <= |rows| && forall j | 0 <= j < k :: rows[j].power > 0
    ensures k > 0 ==> PowerSum(rows, k) > 0
  {
    if k > 1 {
      PowerSumPositive(rows, k - 1);
    }
  }

  lemma {:induction false} FirstCpuIsMember(cpus: set<nat>, i: nat, nr_cpu_ids: nat, c: nat)
    requires c in cpus && i <= c < nr_cpu_ids
    ensures FirstCpu(cpus, i, nr_cpu_ids) in cpus
    decreases c - i
  {
    if i !in cpus {
      FirstCpuIsMember(cpus, i + 1, nr_cpu_ids, c);
    }
  }

  lemma RowIsSound(scene: Scene, ring: seq<SchedGroup>, j: nat)
    requires scene.Valid(ring) && j < |ring|
    ensures var r := scene.Rows(ring)[j];
            && r.group == ring[j] && r.local == (scene.thisCpu in ring[j].cpus)
            && r.power == ring[j].cpuPower > 0 && r.first in ring[j].cpus
            && r.avgLoad < ULONG_RANGE && r.capacity < ULONG_RANGE && r.nrRunning < ULONG_RANGE
  {
    var g := ring[j];
    var c :| c in g.cpus;
    FirstCpuIsMember(g.cpus, 0, scene.nr_cpu_ids, c);
    var v := Wrap32(scene.tally(g).groupLoad * SCHED_LOAD_SCALE);
    QuotientBelow(v, g.cpuPower);
    hide Ring, PowerSum;
  }

  lemma RowsAreSound(scene: Scene, ring: seq<SchedGroup>) returns (t: nat)
    requires scene.Valid(ring)
    ensures Sound(scene.Rows(ring), t)
  {
    t :| 0 <= t < |ring| && scene.thisCpu in ring[t].cpus;
    var rows := scene.Rows(ring);
    forall j | 0 <= j < |ring|
      ensures rows[j].group == ring[j] && rows[j].local == (scene.thisCpu in ring[j].cpus)
      ensures rows[j].power > 0 && rows[j].first in ring[j].cpus
      ensures rows[j].avgLoad < ULONG_RANGE && rows[j].capacity < ULONG_RANGE && rows[j].nrRunning < ULONG_RANGE
    {
      RowIsSound(scene, ring, j);
    }
    hide Scene.Rows, PowerSum;
    PowerSumPositive(rows, |rows|);
  }

  /** The test of the guards, down to the imbalance. */
  method FindImbalance(scene: Scene, sds: SdLbStats, ghost rows: seq<Row>, ghost t: nat)
    returns (found: bool, imbalance: nat, ghost b: nat)
    requires Sound(rows, t) && TotalsNoted(rows, |rows|, sds) && BusiestNoted(rows, |rows|, sds)
    requires LocalIs(rows[t], sds)
    requires forall j | 0 <= j < |rows| :: rows[j].power == rows[j].group.cpuPower
    modifies sds`avgLoad, sds`busiestLoadPerTask, sds`thisLoadPerTask
    ensures found ==> Imbalanced(scene, rows, b, t) && sds.busiest == rows[b].group
                      && LoadsOf(scene, rows, b, t).Guarded() && imbalance == LoadsOf(scene, rows, b, t).Imbalance()
    ensures !found ==> forall c :: !Imbalanced(scene, rows, c, t)
  {
    hide Quotient, LoadSum, PowerSum;
    b := 0;
    if sds.busiest == null {
      NoneBusyIsBalanced(scene, rows, t);
      return false, 0, b;
    }
    b :| Busiest(rows, |rows|, b) && BusiestIs(rows[b], sds);
    forall c | Imbalanced(scene, rows, c, t) ensures c == b {
      BusiestIsUnique(rows, |rows|, b, c);
    }
    hide Busiest, BusiestIs, LocalIs, TotalsNoted, Sound, Imbalanced, Average, PerTask;
    found := PassesGuards(scene, sds, rows, b, t);
    imbalance := 0;
    if found {
      imbalance := sds.CalculateImbalance(scene.idleAvg);
    }
  }

  /** The guards on the busiest and the local group; behind them the loads per task and on average are set. */
  method PassesGuards(scene: Scene, sds: SdLbStats, ghost rows: seq<Row>, ghost b: nat, ghost t: nat) returns (ok: bool)
    requires Sound(rows, t) && TotalsNoted(rows, |rows|, sds) && LocalIs(rows[t], sds)
    requires Busiest(rows, |rows|, b) && BusiestIs(rows[b], sds)
    requires forall j | 0 <= j < |rows| :: rows[j].power == rows[j].group.cpuPower
    modifies sds`avgLoad, sds`busiestLoadPerTask
    ensures ok <==> Imbalanced(scene, rows, b, t)
    ensures ok ==> sds.Guarded() && sds.LoadsWith(sds.LocalPerTask(scene.idleAvg)) == LoadsOf(scene, rows, b, t)
    ensures ok ==> sds.busiest == rows[b].group && LoadsOf(scene, rows, b, t).Guarded()
  {
    assert b < |rows|;
    hide Busiest, Wrap32, Row.Overloaded, Quotient, LoadSum, PowerSum;
    assert sds.totalPwr == PowerSum(rows, |rows|) by { Unwrapped(PowerSum(rows, |rows|)); }
    if sds.busiestNrRunning == 0 || sds.thisLoad >= sds.maxLoad {
      return false;
    }
    sds.avgLoad := Quotient(Wrap32(SCHED_LOAD_SCALE * sds.totalLoad), sds.totalPwr);
    assert sds.avgLoad == Average(rows);
    if sds.thisLoad >= sds.avgLoad || Wrap32(100 * sds.maxLoad) <= Wrap32(scene.imbalancePct * sds.thisLoad) {
      return false;
    }
    sds.busiestLoadPerTask := Quotient(sds.busiestLoadPerTask, sds.busiestNrRunning);
    if sds.groupImb {
      sds.busiestLoadPerTask := Min(sds.busiestLoadPerTask, sds.avgLoad);
    }
    assert sds.busiestLoadPerTask == PerTask(rows, b);
    hide Average, PerTask;
    ok := sds.maxLoad > sds.busiestLoadPerTask;
  }

  lemma NoneBusyIsBalanced(scene: Scene, rows: seq<Row>, t: nat)
    requires t < |rows| && 0 < PowerSum(rows, |rows|) && NoneBusy(rows, |rows|)
    ensures forall c :: !Imbalanced(scene, rows, c, t)
  {
  }

  lemma Unwrapped(x: nat)
    requires x < ULONG_RANGE
    ensures Wrap32(x) == x
  {
  }

  /** `check_power_save_busiest_group`. */
  method CheckPowerSaveBusiestGroup(scene: Scene, sds: SdLbStats, ghost rows: seq<Row>, ghost t: nat)
    returns (found: bool, imbalance: nat, ghost m: nat)
    requires Sound(rows, t) && sds.this_ == rows[t].group
    requires PowerNoted(rows, |rows|, scene.powersavings && !scene.busy, sds)
    modifies sds`busiest
    ensures found ==> SavesPower(scene, rows, m, t) && sds.busiest == rows[m].group
                      && imbalance == Quotient(rows[m].weightedLoad, rows[m].nrRunning)
    ensures !found ==> forall c :: !SavesPower(scene, rows, c, t)
  {
    hide Quotient, PowerSum;
    m := 0;
    if !sds.powerSavingsBalance {
      return false, 0, m;
    }
    if sds.this_ != sds.groupLeader || sds.groupLeader == sds.groupMin {
      return false, 0, m;
    }
    m :| m < |rows| && MinIs(rows[m], sds) && Emptiest(rows, |rows|, m);
    imbalance := sds.minLoadPerTask;
    sds.busiest := sds.groupMin;
    found := true;
  }

  /** Why a group was chosen, with the rows of that group and of the local one. */
  datatype Choice = Nothing | Pull(b: nat, t: nat) | Save(m: nat, t: nat)
  {
    /** The choice the rows call for, with its group and its amount. */
    ghost predicate For(scene: Scene, rows: seq<Row>, group: SchedGroup?, imbalance: nat) {
      match this
      case Nothing =>
        && group == null && imbalance == 0
        && forall t | Sound(rows, t) && scene.mayBalance ::
             forall c :: !Imbalanced(scene, rows, c, t) && !SavesPower(scene, rows, c, t)
      case Pull(b, t) =>
        && scene.mayBalance && Sound(rows, t) && Imbalanced(scene, rows, b, t) && group == rows[b].group
        && LoadsOf(scene, rows, b, t).Guarded() && imbalance == LoadsOf(scene, rows, b, t).Imbalance()
      case Save(m, t) =>
        && scene.mayBalance && Sound(rows, t) && (forall c :: !Imbalanced(scene, rows, c, t))
        && SavesPower(scene, rows, m, t) && group == rows[m].group
        && imbalance == Quotient(rows[m].weightedLoad, rows[m].nrRunning)
    }
  }

  lemma OneLocalRow(rows: seq<Row>, t: nat, u: nat)
    requires Sound(rows, t) && Sound(rows, u)
    ensures u == t
  {
  }

  lemma LocalIsNoted(scene: Scene, rows: seq<Row>, t: nat, sds: SdLbStats)
    requires Sound(rows, t) && Noted(scene, rows, |rows|, sds)
    ensures LocalIs(rows[t], sds) && TotalsNoted(rows, |rows|, sds) && BusiestNoted(rows, |rows|, sds)
    ensures PowerNoted(rows, |rows|, scene.powersavings && !scene.busy, sds)
  {
    hide TotalsNoted, BusiestNoted, PowerNoted, LocalIs, PowerSum;
  }

  lemma NothingChosen(scene: Scene, rows: seq<Row>, t: nat)
    requires Sound(rows, t)
    requires scene.mayBalance ==> forall c :: !Imbalanced(scene, rows, c, t)
    requires scene.mayBalance ==> forall c :: !SavesPower(scene, rows, c, t)
    ensures Nothing.For(scene, rows, null, 0)
  {
    forall u: nat | Sound(rows, u) ensures u == t { OneLocalRow(rows, t, u); }
    hide Imbalanced, SavesPower, Sound;
  }

  method ChooseGroup(scene: Scene, sds: SdLbStats, ghost rows: seq<Row>, ghost t: nat)
    returns (group: SchedGroup?, imbalance: nat, ghost choice: Choice)
    requires scene.mayBalance && Sound(rows, t) && Noted(scene, rows, |rows|, sds)
    requires forall j | 0 <= j < |rows| :: rows[j].power == rows[j].group.cpuPower
    modifies sds
    ensures choice.For(scene, rows, group, imbalance)
  {
    LocalIsNoted(scene, rows, t, sds);
    assert t < |rows| && sds.this_ == rows[t].group;
    hide Sound, TotalsNoted, BusiestNoted, PowerNoted, LocalIs, Imbalanced, SavesPower, Quotient, PowerSum, Noted;
    var found: bool;
    ghost var b, m: nat;
    found, imbalance, b := FindImbalance(scene, sds, rows, t);
    if found {
      return sds.busiest, imbalance, Pull(b, t);
    }
    found, imbalance, m := CheckPowerSaveBusiestGroup(scene, sds, rows, t);
    if found {
      return sds.busiest, imbalance, Save(m, t);
    }
    NothingChosen(scene, rows, t);
    return null, 0, Nothing;
  }

  /** A chosen group is a row other than the local one. */
  lemma ChosenIsRemote(scene: Scene, ring: seq<SchedGroup>, group: SchedGroup, imbalance: nat, choice: Choice)
    requires scene.Valid(ring) && choice.For(scene, scene.Rows(ring), group, imbalance)
    ensures group in ring && scene.thisCpu !in group.cpus
  {
    var rows := scene.Rows(ring);
    var b := if choice.Pull? then choice.b else choice.m;
    assert b < |rows| && !rows[b].local && group == rows[b].group by {
      hide Quotient, PowerSum, Scene.Rows;
    }
    RowIsSound(scene, ring, b);
  }

  /** Chooses a group that does not contain this CPU, power savings included, and what to move. */
  method FindBusiestGroup(scene: Scene, ghost ring: seq<SchedGroup>)
    returns (group: SchedGroup?, imbalance: nat, ghost choice: Choice)
    requires scene.Valid(ring)
    ensures choice.For(scene, scene.Rows(ring), group, imbalance)
    ensures group != null ==> group in ring && scene.thisCpu !in group.cpus
  {
    hide *;
    ghost var rows := scene.Rows(ring);
    ghost var t := RowsAreSound(scene, ring);
    var sds := new SdLbStats();
    var balance := UpdateSdLbStats(scene, sds, ring);
    if !balance {
      NothingChosen(scene, rows, t);
      return null, 0, Nothing;
    }
    forall j | 0 <= j < |rows| ensures rows[j].power == rows[j].group.cpuPower {
      RowIsSound(scene, ring, j);
    }
    group, imbalance, choice := ChooseGroup(scene, sds, rows, t);
    if group != null {
      ChosenIsRemote(scene, ring, group, imbalance, choice);
    }
  }
}
