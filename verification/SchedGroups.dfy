/** Scheduling groups: the circular list that `init_sched_build_groups` builds over a span of CPUs. */
module SchedGroups {
  import opened Common

  class SchedGroup {
    var cpus: set<nat>       // sched_group_cpus(sg)
    var next: SchedGroup?
    var cpuPower: nat
  }

  /** `ring` is one closed cycle of the `next` links. */
  ghost predicate Ring(ring: seq<SchedGroup>)
    reads ring
  {
    && |ring| > 0
    && Distinct(ring)
    && (forall k | 0 <= k < |ring| - 1 :: ring[k].next == ring[k + 1])
    && ring[|ring| - 1].next == ring[0]
  }

  /** No CPU is in two groups of the ring, and no group is empty. */
  ghost predicate Disjoint(ring: seq<SchedGroup>)
    reads ring
  {
    && (forall k | 0 <= k < |ring| :: ring[k].cpus != {})
    && (forall k, l | 0 <= k < l < |ring| :: ring[k].cpus !! ring[l].cpus)
  }

  /** The CPUs of `span` that `group_fn` sends to `group`. */
  function Fibre(span: set<nat>, group_fn: nat -> nat, group: nat): set<nat> {
    set j | j in span && group_fn(j) == group
  }

  /** The CPUs of `span` in the fibres of `ids`. */
  function Covered(span: set<nat>, group_fn: nat -> nat, ids: seq<nat>): set<nat> {
    set j | j in span && group_fn(j) in ids
  }

  /** The groups numbered `ids`, in the order they were linked. */
  function Members(pool: seq<SchedGroup>, ids: seq<nat>): (ring: seq<SchedGroup>)
    requires forall k | 0 <= k < |ids| :: ids[k] < |pool|
    ensures |ring| == |ids| && forall k | 0 <= k < |ids| :: ring[k] == pool[ids[k]]
  {
    seq(|ids|, k requires 0 <= k < |ids| => pool[ids[k]])
  }

  /** Each of `ids` is the group number of some CPU of the span. */
  predicate Numbers(span: set<nat>, group_fn: nat -> nat, ids: seq<nat>) {
    forall k | 0 <= k < |ids| :: exists i :: i in span && group_fn(i) == ids[k]
  }

  /** Every group of `ids` holds its fibre and no power yet. */
  ghost predicate Filled(span: set<nat>, group_fn: nat -> nat, pool: seq<SchedGroup>, ids: seq<nat>)
    reads pool
  {
    forall k | 0 <= k < |ids| ::
      ids[k] < |pool| && pool[ids[k]].cpus == Fibre(span, group_fn, ids[k]) && pool[ids[k]].cpuPower == 0
  }

  /** The groups of `ids` are linked in order. */
  ghost predicate Chained(pool: seq<SchedGroup>, ids: seq<nat>)
    requires forall k | 0 <= k < |ids| :: ids[k] < |pool|
    reads pool
  {
    forall k | 0 <= k < |ids| - 1 :: pool[ids[k]].next == pool[ids[k + 1]]
  }

  /**
   `group_fn(i)` names the group of CPU `i`, stored at `pool[group_fn(i)]`. The result is one
   closed ring whose groups are exactly the fibres of `group_fn` over the span.
   */
  method InitSchedBuildGroups(span: set<nat>, nr_cpu_ids: nat, group_fn: nat -> nat, pool: seq<SchedGroup>)
    returns (ids: seq<nat>)
    requires span != {} && forall i | i in span :: i < nr_cpu_ids && group_fn(i) < |pool|
    requires Distinct(pool)
    modifies pool
    ensures Distinct(ids) && Numbers(span, group_fn, ids) && forall i | i in span :: group_fn(i) in ids
    ensures Filled(span, group_fn, pool, ids)
    ensures Ring(Members(pool, ids)) && Disjoint(Members(pool, ids))
    ensures forall i :: i in span <==> exists k :: 0 <= k < |ids| && i in pool[ids[k]].cpus
  {
    hide *;
    var first, last;
    ids, first, last := CollectGroups(span, nr_cpu_ids, group_fn, pool);
    CloseRing(first, last, span, group_fn, pool, ids);
    FilledPartition(span, group_fn, pool, ids);
  }

  /** The outer loop: one group after the other, each linked behind the last. */
  method CollectGroups(span: set<nat>, nr_cpu_ids: nat, group_fn: nat -> nat, pool: seq<SchedGroup>)
    returns (ids: seq<nat>, first: SchedGroup?, last: SchedGroup?)
    requires span != {} && forall i | i in span :: i < nr_cpu_ids && group_fn(i) < |pool|
    requires Distinct(pool)
    modifies pool
    ensures ids != [] && Distinct(ids) && Numbers(span, group_fn, ids) && forall i | i in span :: group_fn(i) in ids
    ensures Filled(span, group_fn, pool, ids) && (forall k | 0 <= k < |ids| :: ids[k] < |pool|) && Chained(pool, ids)
    ensures first == pool[ids[0]] && last == pool[ids[|ids| - 1]] && last != null && last in pool && first != null
  {
    hide Numbers, Covered, Fibre, Filled, Chained, Distinct;
    NoNumbers(span, group_fn);
    NoGroups(span, group_fn, pool);
    first, last := null, null;
    var covered: set<nat> := {};
    ids := [];
    var i := 0;
    while i < nr_cpu_ids
      invariant 0 <= i <= nr_cpu_ids
      invariant Distinct(ids) && Numbers(span, group_fn, ids)
      invariant forall c | c in span && c < i :: group_fn(c) in ids
      invariant covered == Covered(span, group_fn, ids)
      invariant Filled(span, group_fn, pool, ids) && forall k | 0 <= k < |ids| :: ids[k] < |pool|
      invariant Chained(pool, ids)
      invariant if ids == [] then first == null && last == null
                else first == pool[ids[0]] && last == pool[ids[|ids| - 1]]
    {
      NextNumber(span, group_fn, ids, i);
      if i in span && i !in covered {
        var group := group_fn(i);
        AddNumber(ids, group);
        covered := AddGroup(span, nr_cpu_ids, group_fn, pool, group, last, covered, ids);
        last := pool[group];
        if first == null {
          first := last;
        }
        ids := ids + [group];
      }
      i := i + 1;
    }
    var c :| c in span;
    assert group_fn(c) in ids;
  }

  lemma FilledPartition(span: set<nat>, group_fn: nat -> nat, pool: seq<SchedGroup>, ids: seq<nat>)
    requires Filled(span, group_fn, pool, ids)
    requires Distinct(ids) && Numbers(span, group_fn, ids) && forall i | i in span :: group_fn(i) in ids
    ensures (forall k | 0 <= k < |ids| :: ids[k] < |pool|) && Disjoint(Members(pool, ids))
    ensures forall i :: i in span <==> exists k :: 0 <= k < |ids| && i in pool[ids[k]].cpus
  {
    var ring := Members(pool, ids);
    hide Numbers, Fibre, Disjoint, Distinct;
    FibresPartition(span, group_fn, ids, ring);
    assert forall k | 0 <= k < |ids| :: ring[k] == pool[ids[k]];
  }

  lemma NoGroups(span: set<nat>, group_fn: nat -> nat, pool: seq<SchedGroup>)
    ensures Distinct<nat>([]) && Filled(span, group_fn, pool, []) && Chained(pool, [])
  {
  }

  lemma AddNumber(ids: seq<nat>, group: nat)
    requires Distinct(ids) && group !in ids
    ensures Distinct(ids + [group])
  {
  }

  /** Fills a new group and links it behind the last one. */
  method AddGroup(span: set<nat>, nr_cpu_ids: nat, group_fn: nat -> nat, pool: seq<SchedGroup>, group: nat,
                  last: SchedGroup?, before: set<nat>, ghost ids: seq<nat>)
    returns (covered: set<nat>)
    requires forall i | i in span :: i < nr_cpu_ids
    requires Distinct(pool) && Distinct(ids) && group < |pool| && group !in ids
    requires Filled(span, group_fn, pool, ids) && (forall k | 0 <= k < |ids| :: ids[k] < |pool|) && Chained(pool, ids)
    requires if ids == [] then last == null else last == pool[ids[|ids| - 1]]
    modifies pool
    ensures Filled(span, group_fn, pool, ids + [group])
    ensures (forall k | 0 <= k < |ids + [group]| :: (ids + [group])[k] < |pool|) && Chained(pool, ids + [group])
    ensures covered == before + Fibre(span, group_fn, group)
  {
    covered := FillGroup(span, nr_cpu_ids, group_fn, group, pool[group], before);
    Link(last, pool[group], span, group_fn, pool, ids, group);
  }

  /** `last->next = first` closes the chain. */
  method CloseRing(first: SchedGroup, last: SchedGroup, ghost span: set<nat>, ghost group_fn: nat -> nat,
                   ghost pool: seq<SchedGroup>, ghost ids: seq<nat>)
    requires Distinct(pool) && Distinct(ids) && ids != [] && Filled(span, group_fn, pool, ids) && Chained(pool, ids)
    requires first == pool[ids[0]] && last == pool[ids[|ids| - 1]]
    modifies last`next
    ensures Filled(span, group_fn, pool, ids) && Ring(Members(pool, ids))
  {
    last.next := first;
  }

  /** Linking a new group behind the last one leaves every other link and all contents alone. */
  method Link(last: SchedGroup?, sg: SchedGroup, ghost span: set<nat>, ghost group_fn: nat -> nat,
              ghost pool: seq<SchedGroup>, ghost ids: seq<nat>, ghost group: nat)
    requires Distinct(pool) && Distinct(ids) && group !in ids
    requires Filled(span, group_fn, pool, ids + [group]) && (forall k | 0 <= k < |ids| :: ids[k] < |pool|)
    requires group < |pool| && sg == pool[group] && Chained(pool, ids)
    requires if ids == [] then last == null else last == pool[ids[|ids| - 1]]
    modifies if last == null then {} else {last}
    ensures Filled(span, group_fn, pool, ids + [group])
    ensures (forall k | 0 <= k < |ids + [group]| :: (ids + [group])[k] < |pool|) && Chained(pool, ids + [group])
  {
    if last != null {
      last.next := sg;
    }
  }

  lemma NoNumbers(span: set<nat>, group_fn: nat -> nat)
    ensures Numbers(span, group_fn, []) && Covered(span, group_fn, []) == {}
  {
  }

  /** A CPU not covered yet brings a new group number, whose fibre is then covered. */
  lemma NextNumber(span: set<nat>, group_fn: nat -> nat, ids: seq<nat>, i: nat)
    requires Numbers(span, group_fn, ids)
    ensures i in span ==> (i in Covered(span, group_fn, ids) <==> group_fn(i) in ids)
    ensures i in span && group_fn(i) !in ids ==>
              && Numbers(span, group_fn, ids + [group_fn(i)])
              && Covered(span, group_fn, ids + [group_fn(i)])
                 == Covered(span, group_fn, ids) + Fibre(span, group_fn, group_fn(i))
  {
  }

  /** The inner loop: collect one fibre and mark it covered. */
  method FillGroup(span: set<nat>, nr_cpu_ids: nat, group_fn: nat -> nat, group: nat, sg: SchedGroup, before: set<nat>)
    returns (covered: set<nat>)
    requires forall i | i in span :: i < nr_cpu_ids
    modifies sg`cpus, sg`cpuPower
    ensures sg.cpus == Fibre(span, group_fn, group) && sg.cpuPower == 0
    ensures covered == before + sg.cpus
  {
    sg.cpus := {};
    sg.cpuPower := 0;
    covered := before;
    for j := 0 to nr_cpu_ids
      invariant sg.cpus == set c | c in span && c < j && group_fn(c) == group
      invariant covered == before + sg.cpus && sg.cpuPower == 0
    {
      if group_fn(j) == group && j in span {
        covered := covered + {j};
        sg.cpus := sg.cpus + {j};
      }
    }
  }

  /** Fibres of distinct groups that together cover the span partition it. */
  lemma FibresPartition(span: set<nat>, group_fn: nat -> nat, ids: seq<nat>, ring: seq<SchedGroup>)
    requires |ids| == |ring| && forall k | 0 <= k < |ids| :: ring[k].cpus == Fibre(span, group_fn, ids[k])
    requires Distinct(ids) && Numbers(span, group_fn, ids) && forall i | i in span :: group_fn(i) in ids
    ensures Disjoint(ring)
    ensures forall i :: i in span <==> exists k :: 0 <= k < |ring| && i in ring[k].cpus
  {
    forall k | 0 <= k < |ring| ensures ring[k].cpus != {} {
      var i :| i in span && group_fn(i) == ids[k];
      assert i in ring[k].cpus;
    }
    forall i | i in span ensures exists k :: 0 <= k < |ring| && i in ring[k].cpus {
      var k :| 0 <= k < |ids| && ids[k] == group_fn(i);
      assert i in ring[k].cpus;
    }
  }
}
