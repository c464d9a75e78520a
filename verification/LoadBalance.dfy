/** Pulling load to one CPU: `find_busiest_queue` and the redo loop of `load_balance`. */
module LoadBalance {
  import opened Common
  import opened Words
  import opened SchedGroups
  import opened Imbalance
  import opened BusiestGroup

  /** What `find_busiest_queue` reads of a CPU's runqueue. */
  datatype Queue = Queue(power: nat, weightedLoad: nat, nrRunning: nat)
  {
    function Load(): nat {
      if power == 0 then 0 else Quotient(Wrap32(weightedLoad * SCHED_LOAD_SCALE), power)
    }

    /** DIV_ROUND_CLOSEST(power, SCHED_LOAD_SCALE) */
    function Capacity(): nat {
      Wrap32(power + SCHED_LOAD_SCALE / 2) / SCHED_LOAD_SCALE
    }

    /** A single task heavier than the imbalance is left where it is, unless its CPU has no capacity. */
    predicate Eligible(imbalance: nat) {
      Capacity() == 0 || nrRunning != 1 || Load() <= imbalance
    }
  }

  /**
   Loads are weights relative to power: of two queues whose products fit, the one with no more weight
   and no less power is never the heavier; the load is the weight for each unit of power.
   */
  lemma LoadIsRelative(a: Queue, b: Queue)
    requires 0 < b.power <= a.power && a.weightedLoad <= b.weightedLoad
    requires b.weightedLoad * SCHED_LOAD_SCALE < ULONG_RANGE
    ensures a.Load() <= b.Load()
    ensures b.Load() * b.power <= b.weightedLoad * 1024 < b.Load() * b.power + b.power
  {
    var x, y := a.weightedLoad * SCHED_LOAD_SCALE, b.weightedLoad * SCHED_LOAD_SCALE;
    assert Wrap32(x) == x && Wrap32(y) == y;
    hide Wrap32, Quotient;
    LessOverMore(x, a.power, y, b.power);
  }

  lemma LessOverMore(x: nat, s: nat, y: nat, t: nat)
    requires 0 < t <= s && x <= y
    ensures Quotient(x, s) <= Quotient(y, t)
  {
    var q := Quotient(y, t);
    hide Quotient;
    MulLe(t, s, q + 1);
    assert t * (q + 1) == q * t + t && s * (q + 1) == q * s + s;
    QuotientAtMost(x, s, q);
  }

  /** One task heavier than the imbalance is passed over, unless half a CPU's power is not there for it. */
  lemma EligibleIff(q: Queue, imbalance: nat)
    requires q.power < ULONG_RANGE - SCHED_LOAD_SCALE
    ensures q.Eligible(imbalance) <==> q.power < SCHED_LOAD_SCALE / 2 || q.nrRunning != 1 || q.Load() <= imbalance
  {
    hide Queue.Load;
  }

  /** What one round of `load_balance` finds, and what `move_tasks` reports in it. */
  datatype Round = Round(scene: Scene, queue: nat -> Queue, moved: bool, allPinned: bool)

  /** CPU `c` has the heaviest of the queues worth looking at, and the first such one. */
  ghost predicate BusiestQueue(group: SchedGroup, queue: nat -> Queue, imbalance: nat, cpus: set<nat>, c: nat)
    reads group
  {
    && c in group.cpus && c in cpus && queue(c).Eligible(imbalance) && queue(c).Load() > 0
    && forall i | i in group.cpus && i in cpus && queue(i).Eligible(imbalance) ::
         queue(i).Load() < queue(c).Load() || (queue(i).Load() == queue(c).Load() && c <= i)
  }

  method FindBusiestQueue(group: SchedGroup, queue: nat -> Queue, nr_cpu_ids: nat, imbalance: nat, cpus: set<nat>)
    returns (busiest: Option<nat>)
    requires forall i | i in group.cpus :: i < nr_cpu_ids && queue(i).power > 0
    ensures busiest.Some? ==> BusiestQueue(group, queue, imbalance, cpus, busiest.value)
    ensures busiest.Some? ==> busiest.value in group.cpus && busiest.value in cpus
    ensures busiest.None? ==>
              forall i | i in group.cpus && i in cpus && queue(i).Eligible(imbalance) :: queue(i).Load() == 0
  {
    busiest := None;
    var max_load := 0;
    for i := 0 to nr_cpu_ids
      invariant busiest.None? ==> max_load == 0
      invariant busiest.Some? ==>
                  var c := busiest.value;
                  && c in group.cpus && c in cpus && queue(c).Eligible(imbalance) && max_load == queue(c).Load() > 0
                  && c < i && forall j | j in group.cpus && j in cpus && queue(j).Eligible(imbalance) && j < c ::
                                queue(j).Load() < max_load
      invariant forall j | j in group.cpus && j in cpus && queue(j).Eligible(imbalance) && j < i ::
                  queue(j).Load() <= max_load
    {
      if i in group.cpus && i in cpus {
        var rq := queue(i);
        var capacity := rq.Capacity();
        var wl := Quotient(Wrap32(rq.weightedLoad * SCHED_LOAD_SCALE), rq.power);
        if !(capacity > 0 && rq.nrRunning == 1 && wl > imbalance) && wl > max_load {
          max_load, busiest := wl, Some(i);
        }
      }
    }
  }

  datatype Outcome = Balanced | Unbalanced(busiest: nat, moved: bool)

  /** The scenes of all rounds agree on the domain: only the statistics and this CPU's turn differ. */
  ghost predicate SameDomain(rounds: nat -> Round, ring: seq<SchedGroup>, thisCpu: nat)
    reads ring
  {
    forall r: nat :: rounds(r).scene.Valid(ring) && rounds(r).scene.thisCpu == thisCpu
      && forall c :: rounds(r).queue(c).power > 0
  }

  /** `move_tasks` was tried on CPU `c` in this round and found everything pinned. */
  predicate AllPinned(now: Round, c: nat) {
    now.queue(c).nrRunning > 1 && now.allPinned
  }

  ghost predicate Spans(ring: seq<SchedGroup>, c: nat)
    reads ring
  {
    exists j :: 0 <= j < |ring| && c in ring[j].cpus
  }

  lemma GroupSpans(ring: seq<SchedGroup>, group: SchedGroup, c: nat)
    requires group in ring && c in group.cpus
    ensures Spans(ring, c)
  {
  }

  lemma InDomain(scene: Scene, ring: seq<SchedGroup>)
    requires scene.Valid(ring)
    ensures forall k, c | 0 <= k < |ring| && c in ring[k].cpus :: c < scene.nr_cpu_ids
  {
  }

  /**
   Every queue selected belongs to another CPU and to this domain, and none is selected twice: a
   round is repeated only after the CPU it selected has left the candidate mask.
   */
  method LoadBalance(thisCpu: nat, rounds: nat -> Round, possible: set<nat>, ghost ring: seq<SchedGroup>)
    returns (outcome: Outcome, picked: seq<nat>)
    requires SameDomain(rounds, ring, thisCpu)
    ensures thisCpu !in picked && Distinct(picked) && |picked| <= |possible|
    ensures forall k | 0 <= k < |picked| :: Spans(ring, picked[k])
    ensures forall k: nat | k < |picked| - 1 :: AllPinned(rounds(k), picked[k])
    ensures outcome.Unbalanced? ==> picked != [] && outcome.busiest == picked[|picked| - 1]
  {
    hide Scene.Valid, Choice.For, Queue.Eligible, Queue.Load, BusiestQueue, Spans;
    var cpus, round: nat := possible, 0;
    picked := [];
    while true
      invariant forall k | 0 <= k < |picked| :: picked[k] !in cpus && picked[k] in possible
      invariant cpus <= possible && thisCpu !in picked && |picked| == round && |picked| + |cpus| <= |possible|
      invariant forall k, l | 0 <= k < l < |picked| :: picked[k] != picked[l]
      invariant forall k | 0 <= k < |picked| :: Spans(ring, picked[k])
      invariant forall k: nat | k < |picked| :: AllPinned(rounds(k), picked[k])
      decreases |cpus|
    {
      var now := rounds(round);
      InDomain(now.scene, ring);
      var group, imbalance, _ := FindBusiestGroup(now.scene, ring);
      if !now.scene.mayBalance || group == null {
        return Balanced, picked;
      }
      var busiest := FindBusiestQueue(group, now.queue, now.scene.nr_cpu_ids, imbalance, cpus);
      if busiest.None? {
        return Balanced, picked;
      }
      var cpu := busiest.value;
      GroupSpans(ring, group, cpu);
      assert cpu != thisCpu;   // BUG_ON(busiest == this_rq)
      picked := picked + [cpu];
      assert |cpus - {cpu}| == |cpus| - 1;
      if AllPinned(now, cpu) {
        cpus := cpus - {cpu};
        if cpus == {} {
          return Balanced, picked;
        }
        round := round + 1;
      } else {
        return Unbalanced(cpu, now.queue(cpu).nrRunning > 1 && now.moved), picked;
      }
    }
  }
}
