/**
 Admission control for the RT bandwidth of task groups: `tg_set_bandwidth` and the sysctl
 `sched_rt_handler`, both built on a walk of the tree with `tg_schedulable`.
 */
module BandwidthControl {
  import opened Common
  import opened Words
  import opened RtRatio
  import opened TaskGroups
  import opened BandwidthRuns

  /** Every group passes the check for the request `d`. */
  ghost predicate Schedulable(d: RtSchedulableData, nodes: set<TaskGroup>)
    requires Linked(nodes) && nodes <= d.params.Keys
    reads nodes
  {
    forall g | g in nodes :: Verdict(d, nodes, g) == 0
  }

  /** Some group is answered this. */
  ghost predicate FailsWith(d: RtSchedulableData, nodes: set<TaskGroup>, err: int)
    requires Linked(nodes) && nodes <= d.params.Keys
    reads nodes
  {
    exists g | g in nodes :: Verdict(d, nodes, g) == err
  }

  /** The check of a tree as it stands, with no group replaced. */
  ghost predicate Admissible(params: map<TaskGroup, Params>, setting: Setting, root: TaskGroup, nodes: set<TaskGroup>)
    requires Linked(nodes) && nodes <= params.Keys
    reads nodes
  {
    Schedulable(Standing(params, setting, root), nodes)
  }

  /** `__rt_schedulable`: zero if and only if every group of the tree passes the check. */
  method RtSchedulable(tg: TaskGroup?, rt_period: nat, rt_runtime: nat, setting: Setting, root: TaskGroup,
                       ghost nodes: set<TaskGroup>) returns (err: int)
    requires Tree(nodes, root)
    ensures err == 0 <==>
            Schedulable(RtSchedulableData(tg, rt_period, rt_runtime, setting, root, ParamsOf(nodes)), nodes)
    ensures err in {0, -EINVAL, -EBUSY}
    ensures err != 0 ==>
              FailsWith(RtSchedulableData(tg, rt_period, rt_runtime, setting, root, ParamsOf(nodes)), nodes, err)
  {
    assert Linked(nodes);
    hide Schedulable, ToRatio, Verdict, Walk, Linked, Tree, Silent, Result;
    var d := RtSchedulableData(tg, rt_period, rt_runtime, setting, root, ParamsOf(nodes));
    var trace;
    err, trace := WalkTgTree(root, TgSchedulable(d), TgNop, nodes);
    WalkDecides(d, nodes, root, trace, err);
  }

  lemma WalkDecides(d: RtSchedulableData, nodes: set<TaskGroup>, root: TaskGroup, trace: seq<Event>, ret: int)
    requires Tree(nodes, root) && nodes <= d.params.Keys
    requires trace != [] && trace <= Walk(nodes, root) && forall k | 0 <= k < |trace| :: trace[k].g in nodes
    requires Silent(TgSchedulable(d), TgNop, nodes, trace)
    requires ret == Result(TgSchedulable(d), TgNop, nodes, trace)
    requires ret == 0 ==> trace == Walk(nodes, root)
    ensures ret == 0 <==> Schedulable(d, nodes)
    ensures ret in {0, -EINVAL, -EBUSY} && (ret != 0 ==> FailsWith(d, nodes, ret))
  {
    assert Linked(nodes);
    hide Verdict, Walk, Tree, Linked;
    var e := trace[|trace| - 1];
    VerdictCodes(d, nodes, e.g);
    if ret == 0 {
      forall g | g in nodes ensures Verdict(d, nodes, g) == 0 {
        VisitedWithZero(d, nodes, root, trace, g);
      }
    } else {
      assert e.Down? && ret == Verdict(d, nodes, e.g);
    }
  }

  /** In a full walk without a failure, the call on each group has answered zero. */
  lemma VisitedWithZero(d: RtSchedulableData, nodes: set<TaskGroup>, root: TaskGroup, trace: seq<Event>, g: TaskGroup)
    requires Tree(nodes, root) && nodes <= d.params.Keys && g in nodes
    requires trace == Walk(nodes, root) && trace != [] && forall k | 0 <= k < |trace| :: trace[k].g in nodes
    requires Silent(TgSchedulable(d), TgNop, nodes, trace) && Result(TgSchedulable(d), TgNop, nodes, trace) == 0
    ensures Verdict(d, nodes, g) == 0
  {
    assert Linked(nodes);
    hide Verdict, Walk, Tree, Linked;
    WalkVisitsEachOnce(nodes, root, g);
    assert Down(g) in multiset(trace);
    var k :| 0 <= k < |trace| && trace[k] == Down(g);
    assert trace[..k + 1][k] == Down(g);
    if k + 1 == |trace| {
      assert trace[..k + 1] == trace;
    }
    assert Result(TgSchedulable(d), TgNop, nodes, trace[..k + 1]) == 0;
  }

  lemma VerdictCodes(d: RtSchedulableData, nodes: set<TaskGroup>, g: TaskGroup)
    requires Linked(nodes) && g in nodes && nodes <= d.params.Keys
    ensures Verdict(d, nodes, g) in {0, -EINVAL, -EBUSY}
  {
  }

  /** Each group embeds its own bandwidth. */
  ghost predicate OwnBandwidths(nodes: set<TaskGroup>) {
    forall g, h | g in nodes && h in nodes && g != h :: g.rt != h.rt
  }

  /**
   Accepts exactly the requests under which every group passes the check. An accepted request
   changes the one group and leaves a tree that passes the check as it stands; a rejected one
   changes nothing. Nobody changes the setting in between here; `BandwidthRuns` drops that.
   */
  method TgSetBandwidth(tg: TaskGroup, rt_period: nat, rt_runtime: nat, setting: Setting, root: TaskGroup,
                        ghost nodes: set<TaskGroup>) returns (err: int)
    requires Tree(nodes, root) && tg in nodes && OwnBandwidths(nodes)
    modifies tg.rt, tg.rtRq
    ensures err == 0 <==>
            Schedulable(RtSchedulableData(tg, rt_period, rt_runtime, setting, root, old(ParamsOf(nodes))), nodes)
    ensures err in {0, -EINVAL, -EBUSY}
    ensures err != 0 ==> unchanged(tg.rt) && unchanged(tg.rtRq)
    ensures err == 0 ==>
              ParamsOf(nodes) == old(ParamsOf(nodes))[tg := Params(rt_period, rt_runtime, tg.hasRtTasks)]
    ensures err == 0 ==> forall i | 0 <= i < tg.rtRq.Length :: tg.rtRq[i] == rt_runtime
    ensures err == 0 ==> Admissible(ParamsOf(nodes), setting, root, nodes)
    ensures Requested(old(StateOf(nodes, setting, root)), tg, rt_period, rt_runtime, err == 0,
                      StateOf(nodes, setting, root))
  {
    hide Schedulable, Admissible, KidsOf, Tree, Requested, ToRatio, VerdictOf;
    ghost var d := RtSchedulableData(tg, rt_period, rt_runtime, setting, root, ParamsOf(nodes));
    RequestIsWritten(d, nodes);
    err := RtSchedulable(tg, rt_period, rt_runtime, setting, root, nodes);
    if err == 0 {
      WriteBandwidth(tg, rt_period, rt_runtime, nodes);
    }
  }

  method WriteBandwidth(tg: TaskGroup, rt_period: nat, rt_runtime: nat, ghost nodes: set<TaskGroup>)
    requires tg in nodes && OwnBandwidths(nodes)
    modifies tg.rt, tg.rtRq
    ensures ParamsOf(nodes) == old(ParamsOf(nodes))[tg := Params(rt_period, rt_runtime, tg.hasRtTasks)]
    ensures forall i | 0 <= i < tg.rtRq.Length :: tg.rtRq[i] == rt_runtime
  {
    tg.rt.period := rt_period;
    tg.rt.runtime := rt_runtime;
    WriteRunqueues(tg.rtRq, rt_runtime);
  }

  /** Checking a request and writing it if it is accepted is what the runs make of it. */
  lemma RequestIsWritten(d: RtSchedulableData, nodes: set<TaskGroup>)
    requires Tree(nodes, d.root) && nodes == d.params.Keys && d.tg != null && d.tg in nodes
    ensures var s := State(d.setting, d.root, d.params, KidsOf(nodes));
            Requested(s, d.tg, d.rtPeriod, d.rtRuntime, Schedulable(d, nodes),
                      if Schedulable(d, nodes) then s.(params := Written(d)) else s)
    ensures Schedulable(d, nodes) ==> Admissible(Written(d), d.setting, d.root, nodes)
  {
    hide Schedulable, Admissible, Accepted, KidsCovered, KidsHeld, KidsOf, Shaped, List, ToRatio;
    KidsAreShaped(nodes, d.root);
    SameOnKids(d, nodes);
    RequestWritten(d, nodes);
    RequestIsStep(State(d.setting, d.root, d.params, KidsOf(nodes)), d.tg, d.rtPeriod, d.rtRuntime);
  }

  method WriteRunqueues(rt_rq: array<nat>, rt_runtime: nat)
    modifies rt_rq
    ensures forall i | 0 <= i < rt_rq.Length :: rt_rq[i] == rt_runtime
  {
    for i := 0 to rt_rq.Length
      invariant forall k | 0 <= k < i :: rt_rq[k] == rt_runtime
    {
      rt_rq[i] := rt_runtime;
    }
  }

  lemma {:induction false} WrittenListRatio(d: RtSchedulableData, nodes: set<TaskGroup>, c: TaskGroup?)
    requires Linked(nodes) && nodes <= d.params.Keys && (c != null ==> c in nodes)
    requires d.tg != null && d.tg in d.params
    ensures ListRatio(d, nodes, c) == ListRatio(Standing(Written(d), d.setting, d.root), nodes, c)
    decreases Size(c)
  {
    hide ToRatio;
    if c != null {
      WrittenListRatio(d, nodes, c.siblings);
    }
  }

  /** Checking a request and then writing it is checking the tree that results. */
  lemma RequestWritten(d: RtSchedulableData, nodes: set<TaskGroup>)
    requires Linked(nodes) && nodes <= d.params.Keys && d.tg != null && d.tg in d.params
    ensures Schedulable(d, nodes) <==> Admissible(Written(d), d.setting, d.root, nodes)
  {
    hide VerdictOf;
    var plain := Standing(Written(d), d.setting, d.root);
    forall g | g in nodes ensures Verdict(d, nodes, g) == Verdict(plain, nodes, g) {
      WrittenListRatio(d, nodes, g.children);
    }
  }

  /** In a checked tree no ratio exceeds the system-wide one, which a valid setting keeps within 2^20. */
  lemma RatioBounded(d: RtSchedulableData, nodes: set<TaskGroup>, g: TaskGroup)
    requires Linked(nodes) && nodes <= d.params.Keys && g in nodes
    requires Verdict(d, nodes, g) == 0
    ensures d.Ratio(g) <= d.setting.GlobalRatio() && d.Ratio(g) <= FULL
    ensures Wrap32(ListRatio(d, nodes, g.children)) <= d.Ratio(g)
  {
    RatioAtMostFull(d.Period(g), d.Runtime(g));
  }

  /**
   The sum over the children is taken in 32 bits: a group that passes the check really covers
   its children if and only if the exact sum of their ratios fits 32 bits.
   */
  lemma ChildrenCoveredIffSumFits(d: RtSchedulableData, nodes: set<TaskGroup>, g: TaskGroup)
    requires Linked(nodes) && nodes <= d.params.Keys && g in nodes
    requires Verdict(d, nodes, g) == 0
    ensures ListRatio(d, nodes, g.children) <= d.Ratio(g) <==> ListRatio(d, nodes, g.children) < ULONG_RANGE
  {
    RatioBounded(d, nodes, g);
  }

  /**
   The ratio of every group is at least the exact sum of its children's, and at most the system-wide
   one and the full ratio.
   */
  ghost predicate Covered(d: RtSchedulableData, nodes: set<TaskGroup>)
    requires Linked(nodes) && nodes <= d.params.Keys
    reads nodes
  {
    forall g | g in nodes ::
      ListRatio(d, nodes, g.children) <= d.Ratio(g) <= d.setting.GlobalRatio() && d.Ratio(g) <= FULL
  }

  /** No group takes more than the whole time, nor its children more than the group. */
  ghost predicate Held(d: RtSchedulableData, nodes: set<TaskGroup>)
    requires Linked(nodes) && nodes <= d.params.Keys
    reads nodes
  {
    forall g | g in nodes :: ListRatio(d, nodes, g.children) <= Capacity(d, g) <= FULL
  }

  /** A tree that passes the check is covered if and only if no sum over children wraps. */
  lemma CheckedCovers(d: RtSchedulableData, nodes: set<TaskGroup>)
    requires Linked(nodes) && nodes <= d.params.Keys && Schedulable(d, nodes)
    ensures Covered(d, nodes) <==> forall g | g in nodes :: ListRatio(d, nodes, g.children) < ULONG_RANGE
  {
    forall g | g in nodes
      ensures d.Ratio(g) <= d.setting.GlobalRatio() && d.Ratio(g) <= FULL
      ensures ListRatio(d, nodes, g.children) <= d.Ratio(g) <==> ListRatio(d, nodes, g.children) < ULONG_RANGE
    {
      assert Verdict(d, nodes, g) == 0;
      RatioBounded(d, nodes, g);
      ChildrenCoveredIffSumFits(d, nodes, g);
    }
    hide ToRatio, ListRatio, Schedulable;
  }

  /** The children of every group, in the order of its list. */
  ghost function KidsOf(nodes: set<TaskGroup>): (kids: Kids)
    requires Linked(nodes)
    reads nodes
    ensures kids.Keys == nodes
  {
    map g | g in nodes :: List(nodes, g.children)
  }

  lemma {:induction false} ListIsDistinct(nodes: set<TaskGroup>, c: TaskGroup?)
    requires Linked(nodes) && (c != null ==> c in nodes)
    ensures Distinct(List(nodes, c))
    decreases Size(c)
  {
    if c != null && c.siblings != null {
      ListIsDistinct(nodes, c.siblings);
      ListFacts(nodes, c.siblings);
    }
  }

  lemma {:induction false} ListRatioIsSum(d: RtSchedulableData, nodes: set<TaskGroup>, c: TaskGroup?)
    requires Linked(nodes) && nodes <= d.params.Keys && (c != null ==> c in nodes)
    ensures forall g | g in List(nodes, c) :: g in nodes
    ensures ListRatio(d, nodes, c) == SumRatio(d, List(nodes, c))
    decreases Size(c)
  {
    hide ToRatio;
    if c != null {
      ListRatioIsSum(d, nodes, c.siblings);
      assert List(nodes, c)[1..] == List(nodes, c.siblings);
    }
  }

  /** The links of a tree give every group one place. */
  lemma KidsAreShaped(nodes: set<TaskGroup>, root: TaskGroup)
    requires Tree(nodes, root)
    ensures Shaped(KidsOf(nodes), root)
  {
    var kids := KidsOf(nodes);
    forall g | g in nodes ensures Distinct(kids[g]) && forall k | k in kids[g] :: k in nodes && k.parent == g {
      ListIsDistinct(nodes, g.children);
      if g.children != null { ListFacts(nodes, g.children); }
    }
    hide List, Distinct, KidsOf;
  }

  /** The predicates on the links say the same as those on the sequences of children. */
  lemma SameOnKids(d: RtSchedulableData, nodes: set<TaskGroup>)
    requires Linked(nodes) && nodes <= d.params.Keys
    ensures Within(d, KidsOf(nodes))
    ensures Covered(d, nodes) <==> KidsCovered(d, KidsOf(nodes))
    ensures Held(d, nodes) <==> KidsHeld(d, KidsOf(nodes))
    ensures Schedulable(d, nodes) <==> Accepted(d, KidsOf(nodes), Everywhere(nodes, d.setting))
  {
    var kids := KidsOf(nodes);
    forall g | g in nodes
      ensures (forall k | k in kids[g] :: k in nodes) && ListRatio(d, nodes, g.children) == SumRatio(d, kids[g])
    {
      ListRatioIsSum(d, nodes, g.children);
    }
    hide ToRatio, ListRatio, SumRatio, VerdictOf, List, RtSchedulableData.Ratio, Setting.GlobalRatio;
  }

  /** The state that the runs of `BandwidthRuns` are about. */
  ghost function StateOf(nodes: set<TaskGroup>, setting: Setting, root: TaskGroup): State
    requires Linked(nodes)
    reads nodes, set g | g in nodes :: g.rt
  {
    State(setting, root, ParamsOf(nodes), KidsOf(nodes))
  }

  lemma StateIsValid(nodes: set<TaskGroup>, setting: Setting, root: TaskGroup)
    requires Tree(nodes, root)
    ensures StateOf(nodes, setting, root).Valid()
    ensures IsCovered(StateOf(nodes, setting, root)) <==> Covered(Standing(ParamsOf(nodes), setting, root), nodes)
    ensures Holds(StateOf(nodes, setting, root)) <==> Held(Standing(ParamsOf(nodes), setting, root), nodes)
  {
    KidsAreShaped(nodes, root);
    SameOnKids(Standing(ParamsOf(nodes), setting, root), nodes);
    hide Covered, Held, KidsCovered, KidsHeld, Shaped, KidsOf;
  }

  /** So the check accepts a wrapped sum only in a tree that did not hold before. */
  lemma WrapNeedsOverfull(d: RtSchedulableData, nodes: set<TaskGroup>, g: TaskGroup)
    requires Tree(nodes, d.root) && nodes <= d.params.Keys && d.tg != null && d.tg in nodes && g in nodes
    requires Schedulable(d, nodes) && ListRatio(d, nodes, g.children) >= ULONG_RANGE
    ensures !Held(Standing(d.params, d.setting, d.root), nodes)
  {
    var plain, next := Standing(d.params, d.setting, d.root), Standing(Written(d), d.setting, d.root);
    KidsAreShaped(nodes, d.root);
    SameOnKids(d, nodes);
    SameOnKids(plain, nodes);
    SameOnKids(next, nodes);
    WrittenListRatio(d, nodes, g.children);
    RequestWritten(d, nodes);
    hide KidsCovered, KidsHeld, Accepted, ToRatio, ListRatio, KidsOf, VerdictOf, Tree;
    if Held(plain, nodes) {
      RequestKeepsHeld(d, KidsOf(nodes), Everywhere(nodes, d.setting), d.setting);
      CheckedCovers(next, nodes);
    }
  }

  /** `a` is a proper ancestor of `g`. */
  ghost predicate Above(nodes: set<TaskGroup>, a: TaskGroup, g: TaskGroup)
    requires Linked(nodes) && g in nodes
    reads nodes
    decreases g.depth
  {
    g.parent != null && (g.parent == a || Above(nodes, a, g.parent))
  }

  ghost predicate Unrelated(nodes: set<TaskGroup>, chosen: set<TaskGroup>)
    requires Linked(nodes) && chosen <= nodes
    reads nodes
  {
    forall a, g | a in chosen && g in chosen :: !Above(nodes, a, g)
  }

  /** The ratios of the chosen groups among the subtrees of `c` and its later siblings, added up. */
  ghost function ChosenRatio(d: RtSchedulableData, nodes: set<TaskGroup>, c: TaskGroup?, chosen: set<TaskGroup>): nat
    requires Linked(nodes) && (c != null ==> c in nodes) && nodes <= d.params.Keys
    reads nodes, c
    decreases Size(c)
  {
    if c == null then 0 else
      (if c in chosen then d.Ratio(c) else 0)
      + ChosenRatio(d, nodes, c.children, chosen) + ChosenRatio(d, nodes, c.siblings, chosen)
  }

  /** `ChosenRatio` adds each chosen group of the subtrees exactly once. */
  lemma {:induction false} ChosenRatioInsert(d: RtSchedulableData, nodes: set<TaskGroup>, root: TaskGroup,
                                             c: TaskGroup?, chosen: set<TaskGroup>, x: TaskGroup)
    requires Tree(nodes, root) && (c != null ==> c in nodes) && nodes <= d.params.Keys
    requires x in nodes && x !in chosen
    ensures ChosenRatio(d, nodes, c, chosen + {x})
         == ChosenRatio(d, nodes, c, chosen) + UnderCount(nodes, c, x) * d.Ratio(x)
    ensures ChosenRatio(d, nodes, c, {}) == 0
    decreases Size(c)
  {
    hide ToRatio;
    if c != null {
      UnderSplits(nodes, root, c, x);
      ChosenRatioInsert(d, nodes, root, c.children, chosen, x);
      ChosenRatioInsert(d, nodes, root, c.siblings, chosen, x);
      hide UnderCount;
    }
  }

  /** Nothing below a chosen group is chosen. */
  lemma {:induction false} NothingBelow(d: RtSchedulableData, nodes: set<TaskGroup>, c: TaskGroup?,
                                        chosen: set<TaskGroup>, a: TaskGroup)
    requires Linked(nodes) && (c != null ==> c in nodes && Above(nodes, a, c)) && nodes <= d.params.Keys
    requires chosen <= nodes && Unrelated(nodes, chosen) && a in chosen
    ensures ChosenRatio(d, nodes, c, chosen) == 0
    decreases Size(c)
  {
    hide ToRatio;
    if c != null {
      NothingBelow(d, nodes, c.children, chosen, a);
      NothingBelow(d, nodes, c.siblings, chosen, a);
    }
  }

  /** Every group but the root covers its children. */
  ghost predicate CoveredBelow(d: RtSchedulableData, nodes: set<TaskGroup>, root: TaskGroup)
    requires Linked(nodes) && nodes <= d.params.Keys
    reads nodes
  {
    forall g | g in nodes && g != root :: ListRatio(d, nodes, g.children) <= d.Ratio(g)
  }

  /** The chosen groups below a list take no more than the groups of the list. */
  lemma {:induction false} ChosenWithinList(d: RtSchedulableData, nodes: set<TaskGroup>, root: TaskGroup,
                                            c: TaskGroup?, chosen: set<TaskGroup>)
    requires Tree(nodes, root) && nodes <= d.params.Keys && CoveredBelow(d, nodes, root)
    requires c != null ==> c in nodes && c.parent != null
    requires chosen <= nodes && Unrelated(nodes, chosen)
    ensures ChosenRatio(d, nodes, c, chosen) <= ListRatio(d, nodes, c)
    decreases Size(c)
  {
    hide ToRatio, Schedulable;
    if c != null {
      ChosenWithinList(d, nodes, root, c.siblings, chosen);
      if c in chosen {
        NothingBelow(d, nodes, c.children, chosen, c);
      } else {
        ChosenWithinList(d, nodes, root, c.children, chosen);
      }
    }
  }

  /** Any set of pairwise unrelated groups takes no more than the root, or than the children of the root. */
  lemma ChosenWithinRoot(d: RtSchedulableData, nodes: set<TaskGroup>, root: TaskGroup, chosen: set<TaskGroup>)
    requires Tree(nodes, root) && nodes <= d.params.Keys && CoveredBelow(d, nodes, root)
    requires chosen <= nodes && Unrelated(nodes, chosen)
    ensures ChosenRatio(d, nodes, root, chosen) <= d.Ratio(root)
            || ChosenRatio(d, nodes, root, chosen) <= ListRatio(d, nodes, root.children)
  {
    hide ToRatio, CoveredBelow;
    if root in chosen {
      NothingBelow(d, nodes, root.children, chosen, root);
    } else {
      ChosenWithinList(d, nodes, root, root.children, chosen);
    }
  }

  /** Any set of pairwise unrelated groups together takes no more than the system-wide ratio. */
  lemma UnrelatedWithinGlobal(d: RtSchedulableData, nodes: set<TaskGroup>, root: TaskGroup, chosen: set<TaskGroup>)
    requires Tree(nodes, root) && nodes <= d.params.Keys && Covered(d, nodes)
    requires chosen <= nodes && Unrelated(nodes, chosen)
    ensures ChosenRatio(d, nodes, root, chosen) <= d.setting.GlobalRatio()
  {
    ChosenWithinRoot(d, nodes, root, chosen);
  }

  lemma {:induction false} AboveIsShallower(nodes: set<TaskGroup>, a: TaskGroup, g: TaskGroup)
    requires Linked(nodes) && g in nodes && Above(nodes, a, g)
    ensures a.depth < g.depth
    decreases g.depth
  {
    if g.parent != a {
      AboveIsShallower(nodes, a, g.parent);
    }
  }

  /** Choosing one group more adds its ratio. */
  lemma OneMoreChosen(d: RtSchedulableData, nodes: set<TaskGroup>, root: TaskGroup, chosen: set<TaskGroup>,
                      x: TaskGroup)
    requires Tree(nodes, root) && nodes <= d.params.Keys && x in nodes && x !in chosen
    ensures ChosenRatio(d, nodes, root, chosen + {x}) == ChosenRatio(d, nodes, root, chosen) + d.Ratio(x)
    ensures ChosenRatio(d, nodes, root, {}) == 0
  {
    ChosenRatioInsert(d, nodes, root, root, chosen, x);
    AllUnderRoot(nodes, root, x);
    hide ToRatio, UnderCount, ChosenRatio;
    assert 1 * d.Ratio(x) == d.Ratio(x);
  }

  /** A group and its later siblings. */
  ghost function Siblings(nodes: set<TaskGroup>, c: TaskGroup?): set<TaskGroup>
    requires Linked(nodes) && (c != null ==> c in nodes)
    reads nodes, c
  {
    set g | g in List(nodes, c)
  }

  lemma SiblingsUnrelated(nodes: set<TaskGroup>, c: TaskGroup?)
    requires Linked(nodes) && (c != null ==> c in nodes)
    ensures Siblings(nodes, c) <= nodes && Unrelated(nodes, Siblings(nodes, c))
    ensures c != null ==> Siblings(nodes, c) == Siblings(nodes, c.siblings) + {c} && c !in Siblings(nodes, c.siblings)
  {
    if c != null {
      ListFacts(nodes, c);
      if c.siblings != null {
        ListFacts(nodes, c.siblings);
      }
    }
    forall a, g | a in Siblings(nodes, c) && g in Siblings(nodes, c) ensures !Above(nodes, a, g) {
      hide List;
      if Above(nodes, a, g) {
        AboveIsShallower(nodes, a, g);
      }
    }
  }

  /** Siblings chosen together take the sum of their ratios. */
  lemma {:induction false} SiblingsChosen(d: RtSchedulableData, nodes: set<TaskGroup>, root: TaskGroup, c: TaskGroup?)
    requires Tree(nodes, root) && nodes <= d.params.Keys && (c != null ==> c in nodes)
    ensures ChosenRatio(d, nodes, root, Siblings(nodes, c)) == ListRatio(d, nodes, c)
    decreases Size(c)
  {
    SiblingsUnrelated(nodes, c);
    if c == null {
      assert Siblings(nodes, c) == {};
      OneMoreChosen(d, nodes, root, {}, root);
    } else {
      hide ToRatio, ChosenRatio, Siblings, Unrelated;
      SiblingsChosen(d, nodes, root, c.siblings);
      OneMoreChosen(d, nodes, root, Siblings(nodes, c.siblings), c);
    }
  }

  /** Every set of pairwise unrelated groups fits the system-wide ratio. */
  ghost predicate AllWithinGlobal(d: RtSchedulableData, nodes: set<TaskGroup>, root: TaskGroup)
    requires Linked(nodes) && root in nodes && nodes <= d.params.Keys
    reads nodes
  {
    forall chosen | chosen <= nodes && Unrelated(nodes, chosen) ::
      ChosenRatio(d, nodes, root, chosen) <= d.setting.GlobalRatio()
  }

  /** A tree that holds is covered if and only if all unrelated groups fit together. */
  lemma AllWithinIffCovered(d: RtSchedulableData, nodes: set<TaskGroup>)
    requires Tree(nodes, d.root) && nodes <= d.params.Keys && Held(d, nodes) && ValidSetting(d.setting)
    ensures AllWithinGlobal(d, nodes, d.root) <==> Covered(d, nodes)
  {
    var root := d.root;
    if Covered(d, nodes) {
      forall chosen | chosen <= nodes && Unrelated(nodes, chosen)
        ensures ChosenRatio(d, nodes, root, chosen) <= d.setting.GlobalRatio()
      {
        UnrelatedWithinGlobal(d, nodes, root, chosen);
      }
    }
    if AllWithinGlobal(d, nodes, root) {
      ValidSettingIsFull(d.setting);
      SiblingsUnrelated(nodes, root.children);
      SiblingsChosen(d, nodes, root, root.children);
      forall g | g in nodes ensures d.Ratio(g) <= d.setting.GlobalRatio() {
        AloneWithinGlobal(d, nodes, g);
      }
      hide ToRatio, ListRatio, ChosenRatio, AllWithinGlobal, ValidSetting;
    }
  }

  lemma AloneWithinGlobal(d: RtSchedulableData, nodes: set<TaskGroup>, g: TaskGroup)
    requires Tree(nodes, d.root) && nodes <= d.params.Keys && g in nodes && AllWithinGlobal(d, nodes, d.root)
    ensures d.Ratio(g) <= d.setting.GlobalRatio()
  {
    hide ToRatio, ChosenRatio;
    OneMoreChosen(d, nodes, d.root, {}, g);
    assert {} + {g} == {g};
    if Above(nodes, g, g) {
      AboveIsShallower(nodes, g, g);
    }
    assert Unrelated(nodes, {g});
  }

  /**
   In every tree that operations lead to from boot on, however they interleave with the steps of the
   handler, any pairwise unrelated groups together take no more than the whole time.
   */
  lemma ReachableWithinFull(m0: Machine, init: TaskGroup, operations: seq<Operation>, nodes: set<TaskGroup>,
                            setting: Setting, root: TaskGroup, chosen: set<TaskGroup>)
    requires Booted(m0, init) && m0.s.Valid() && Runs(m0, operations)
    requires Tree(nodes, root) && Exec(m0, operations).s == StateOf(nodes, setting, root)
    requires chosen <= nodes && Unrelated(nodes, chosen)
    ensures ChosenRatio(Standing(ParamsOf(nodes), Exec(m0, operations).Settled(), root), nodes, root, chosen) <= FULL
  {
    BootIsCovered(m0, init);
    EveryRunHolds(m0, operations);
    hide KidsOf, Runs, Exec, Unrelated, Booted, KidsHeld, Held;
    var m := Exec(m0, operations);
    var d := Standing(ParamsOf(nodes), m.Settled(), root);
    ValidSettingIsFull(m.Settled());
    SameOnKids(d, nodes);
    HeldWithinFull(d, nodes, chosen);
  }

  lemma HeldWithinFull(d: RtSchedulableData, nodes: set<TaskGroup>, chosen: set<TaskGroup>)
    requires Tree(nodes, d.root) && nodes <= d.params.Keys && d.setting.GlobalRatio() <= FULL
    requires Held(d, nodes) && chosen <= nodes && Unrelated(nodes, chosen)
    ensures ChosenRatio(d, nodes, d.root, chosen) <= FULL
  {
    hide Unrelated, ToRatio;
    ChosenWithinRoot(d, nodes, d.root, chosen);
  }

  /**
   Outside the handler they take no more than the system-wide ratio if and only if the stray groups
   fit it and, with groups per user, so do the children of the root together; so without strays they
   always do.
   */
  lemma ReachableWithinGlobalIff(m0: Machine, init: TaskGroup, operations: seq<Operation>, nodes: set<TaskGroup>,
                                 setting: Setting, root: TaskGroup)
    requires Booted(m0, init) && m0.s.Valid() && Runs(m0, operations) && Exec(m0, operations).handler.Idle?
    requires Tree(nodes, root) && Exec(m0, operations).s == StateOf(nodes, setting, root)
    ensures var m, d := Exec(m0, operations), Standing(ParamsOf(nodes), setting, root);
            && m.s.Valid()
            && (AllWithinGlobal(d, nodes, root) <==>
                  StraysFit(m) && (setting.userSched ==> ListRatio(d, nodes, root.children) <= setting.GlobalRatio()))
            && (m.stray == {} ==> AllWithinGlobal(d, nodes, root))
  {
    BootIsCovered(m0, init);
    EveryRunHolds(m0, operations);
    hide Runs, Exec, Unrelated, Booted, AllWithinGlobal, StraysFit;
    var m := Exec(m0, operations);
    var d := Standing(ParamsOf(nodes), setting, root);
    CoveredIffStraysFit(m);
    SameOnKids(d, nodes);
    ListRatioIsSum(d, nodes, root.children);
    hide Fitting, ValidSetting, KidsHeld, KidsCovered, Held, Covered, Setting.GlobalRatio, List, ListRatio;
    AllWithinIffCovered(d, nodes);
  }

  /** `sched_group_set_rt_runtime`: microseconds, negative for an infinite runtime. */
  method SchedGroupSetRtRuntime(tg: TaskGroup, rt_runtime_us: int, setting: Setting, root: TaskGroup,
                                ghost nodes: set<TaskGroup>) returns (err: int)
    requires Tree(nodes, root) && tg in nodes && OwnBandwidths(nodes)
    requires -ULONG_RANGE / 2 <= rt_runtime_us < ULONG_RANGE / 2
    modifies tg.rt, tg.rtRq
    ensures err != 0 ==> unchanged(tg.rt) && unchanged(tg.rtRq)
    ensures err == 0 ==> tg.rt.period == old(tg.rt.period) && Admissible(ParamsOf(nodes), setting, root, nodes)
    ensures Holds(old(StateOf(nodes, setting, root))) ==>
              Holds(StateOf(nodes, setting, root)) && (err == 0 ==> IsCovered(StateOf(nodes, setting, root)))
    ensures err == 0 ==> if rt_runtime_us < 0 then tg.rt.runtime == RUNTIME_INF
                         else tg.rt.runtime == rt_runtime_us * NSEC_PER_USEC < SHIFT_BOUND
  {
    hide Admissible, Schedulable, StateOf, AfterRequest, State.Valid, Tree, Holds, IsCovered;
    var rt_period, rt_runtime := tg.rt.period, Wrap64(rt_runtime_us * NSEC_PER_USEC);
    if rt_runtime_us < 0 {
      rt_runtime := RUNTIME_INF;
    }
    err := TgSetBandwidth(tg, rt_period, rt_runtime, setting, root, nodes);
    assert err == 0 ==> ParamsOf(nodes)[tg] == Params(rt_period, rt_runtime, tg.hasRtTasks);
  }

  /** `sched_group_set_rt_period`: a period of zero is refused before the tree is looked at. */
  method SchedGroupSetRtPeriod(tg: TaskGroup, rt_period_us: int, setting: Setting, root: TaskGroup,
                               ghost nodes: set<TaskGroup>) returns (err: int)
    requires Tree(nodes, root) && tg in nodes && OwnBandwidths(nodes)
    requires -ULONG_RANGE / 2 <= rt_period_us < ULONG_RANGE / 2
    modifies tg.rt, tg.rtRq
    ensures err != 0 ==> unchanged(tg.rt) && unchanged(tg.rtRq)
    ensures rt_period_us == 0 ==> err == -EINVAL
    ensures err == 0 ==> tg.rt.runtime == old(tg.rt.runtime) && Admissible(ParamsOf(nodes), setting, root, nodes)
    ensures Holds(old(StateOf(nodes, setting, root))) ==>
              Holds(StateOf(nodes, setting, root)) && (err == 0 ==> IsCovered(StateOf(nodes, setting, root)))
    ensures err == 0 ==> tg.rt.period == Wrap64(rt_period_us * NSEC_PER_USEC) > 0
  {
    hide Admissible, Schedulable, StateOf, AfterRequest, State.Valid, Tree, Holds, IsCovered;
    var rt_period, rt_runtime := Wrap64(rt_period_us * NSEC_PER_USEC), tg.rt.runtime;
    if rt_period == 0 {
      return -EINVAL;
    }
    err := TgSetBandwidth(tg, rt_period, rt_runtime, setting, root, nodes);
    assert err == 0 ==> ParamsOf(nodes)[tg] == Params(rt_period, rt_runtime, tg.hasRtTasks);
  }

  /** The handler's steps, with nothing in between, keep a setting if and only if it is valid and the tree passes. */
  lemma SettingIsHandled(nodes: set<TaskGroup>, setting: Setting, next: Setting, root: TaskGroup)
    requires Tree(nodes, root) && setting.userSched == next.userSched
    ensures var ok := ValidSetting(next) && Admissible(ParamsOf(nodes), next, root, nodes);
            Handled(StateOf(nodes, setting, root), next, ok, StateOf(nodes, if ok then next else setting, root))
  {
    hide Schedulable, Accepted, KidsOf, List, Shaped, ToRatio, Handled;
    KidsAreShaped(nodes, root);
    SameOnKids(Standing(ParamsOf(nodes), next, root), nodes);
    HandlerSteps(StateOf(nodes, setting, root), next);
  }

  /** `sysctl_sched_rt_period`, `sysctl_sched_rt_runtime` and the default bandwidth they feed. */
  class RtSysctl {
    var period: nat
    var runtime: int
    const userSched: bool
    const def: RtBandwidth

    constructor (userSched: bool)
      ensures period == 1_000_000 && runtime == 950_000 && this.userSched == userSched && fresh(def)
    {
      period, runtime, this.userSched := 1_000_000, 950_000, userSched;
      def := new RtBandwidth(1_000_000 * NSEC_PER_USEC, 950_000 * NSEC_PER_USEC);
    }

    function View(): Setting
      reads this
    {
      Setting(period, runtime, userSched)
    }

    /** `sched_rt_global_constraints`: zero exactly for a valid setting under which the tree passes the check. */
    method GlobalConstraints(root: TaskGroup, ghost nodes: set<TaskGroup>) returns (ret: int)
      requires Tree(nodes, root)
      ensures ret == 0 <==> ValidSetting(View()) && Admissible(ParamsOf(nodes), View(), root, nodes)
      ensures ret in {0, -EINVAL, -EBUSY}
    {
      hide Schedulable;
      if period <= 0 {
        return -EINVAL;
      }
      var global := View();
      if global.GlobalRuntime() > global.GlobalPeriod() && global.GlobalRuntime() != RUNTIME_INF {
        return -EINVAL;
      }
      ret := RtSchedulable(null, 0, 0, global, root, nodes);
    }

    /**
     `sched_rt_handler`. `status` and the new values are what parsing the write delivers. A write
     is kept, and copied to the default bandwidth, exactly when the whole tree passes the check
     under the new setting; otherwise the old period and runtime are back.
     */
    method SchedRtHandler(write: bool, status: int, new_period: nat, new_runtime: int,
                          root: TaskGroup, ghost nodes: set<TaskGroup>) returns (ret: int)
      requires Tree(nodes, root) && def !in (set g | g in nodes :: g.rt)
      modifies this`period, this`runtime, def
      ensures !write || status != 0 ==> ret == status && View() == old(View()) && unchanged(def)
      ensures write && status == 0 ==>
                (ret == 0 <==> ValidSetting(Setting(new_period, new_runtime, userSched))
                               && Admissible(ParamsOf(nodes), Setting(new_period, new_runtime, userSched), root, nodes))
      ensures write && status == 0 && ret != 0 ==> View() == old(View()) && unchanged(def)
      ensures write && ret == 0 && status == 0 ==>
                && View() == Setting(new_period, new_runtime, userSched)
                && def.period == View().GlobalPeriod() && def.runtime == View().GlobalRuntime()
      ensures write && status == 0 ==>
                Handled(StateOf(nodes, old(View()), root), Setting(new_period, new_runtime, userSched), ret == 0,
                        StateOf(nodes, View(), root))
    {
      hide Admissible, Handled, StateOf, ValidSetting, Tree;
      ret := status;
      if ret == 0 && write {
        SettingIsHandled(nodes, View(), Setting(new_period, new_runtime, userSched), root);
        ret := TrySetting(new_period, new_runtime, root, nodes);
        if ret == 0 {
          SetDefault();
        }
      }
    }

    /** Sets both values, and puts the old ones back if the tree does not pass the check under them. */
    method TrySetting(new_period: nat, new_runtime: int, root: TaskGroup, ghost nodes: set<TaskGroup>)
      returns (ret: int)
      requires Tree(nodes, root)
      modifies this`period, this`runtime
      ensures ret == 0 <==> ValidSetting(Setting(new_period, new_runtime, userSched))
                            && Admissible(ParamsOf(nodes), Setting(new_period, new_runtime, userSched), root, nodes)
      ensures View() == if ret == 0 then Setting(new_period, new_runtime, userSched) else old(View())
    {
      hide Admissible, ValidSetting;
      var old_period, old_runtime := period, runtime;
      period, runtime := new_period, new_runtime;
      ret := GlobalConstraints(root, nodes);
      if ret != 0 {
        period, runtime := old_period, old_runtime;
      }
    }

    method SetDefault()
      modifies def
      ensures def.runtime == View().GlobalRuntime() && def.period == View().GlobalPeriod()
    {
      def.runtime := View().GlobalRuntime();
      def.period := View().GlobalPeriod();
    }
  }
}
