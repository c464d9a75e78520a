/**
 The task-group tree and `walk_tg_tree`, its traversal without a stack: two labels, `down`
 and `up`, and a `continue` that re-enters the sibling loop of the parent.
 */
module TaskGroups {
  import opened Words
  import opened RtRatio

  /** `struct rt_bandwidth`: nanoseconds of RT execution per period. */
  class RtBandwidth {
    var period: nat
    var runtime: nat

    constructor (period: nat, runtime: nat)
      ensures this.period == period && this.runtime == runtime
    {
      this.period, this.runtime := period, runtime;
    }
  }

  class TaskGroup {
    var parent: TaskGroup?
    var children: TaskGroup?    // first entry of the list of children
    var siblings: TaskGroup?    // next entry of the parent's list

    const rt: RtBandwidth       // the embedded rt_bandwidth
    const rtRq: array<nat>      // rt_rq[i]->rt_runtime
    var hasRtTasks: bool        // tg_has_rt_tasks

    ghost var rank: nat         // decreases along children and siblings
    ghost var depth: nat        // grows by one from a parent to its children

    /** A group with no runtime of its own yet and the default period. */
    constructor (defaultPeriod: nat, cpus: nat)
      ensures parent == null && children == null && siblings == null && !hasRtTasks
      ensures fresh(rt) && rt.period == defaultPeriod && rt.runtime == 0
      ensures fresh(rtRq) && rtRq.Length == cpus && forall i | 0 <= i < cpus :: rtRq[i] == 0
    {
      parent, children, siblings, hasRtTasks := null, null, null, false;
      rt := new RtBandwidth(defaultPeriod, 0);
      rtRq := new nat[cpus](_ => 0);
    }
  }

  /** The links of `nodes` form a tree below `root`. */
  ghost predicate Tree(nodes: set<TaskGroup>, root: TaskGroup)
    reads nodes
  {
    && root in nodes && root.parent == null && root.siblings == null
    && Linked(nodes)
    && (forall g {:trigger g.parent} | g in nodes && g != root ::
          g.parent != null && g in List(nodes, g.parent.children))
  }

  /** The list links stay inside `nodes`, agree on the parent and descend in rank; depth counts parents. */
  ghost predicate Linked(nodes: set<TaskGroup>)
    reads nodes
  {
    && (forall g {:trigger g.children} | g in nodes && g.children != null ::
          g.children in nodes && g.children.parent == g && g.children.rank < g.rank)
    && (forall g {:trigger g.siblings} | g in nodes && g.siblings != null ::
          g.siblings in nodes && g.siblings.parent == g.parent && g.siblings.rank < g.rank)
    && (forall g {:trigger g.parent} | g in nodes && g.parent != null ::
          g.parent in nodes && g.depth == g.parent.depth + 1)
  }

  ghost function Size(c: TaskGroup?): nat
    reads c
  {
    if c == null then 0 else c.rank + 1
  }

  /** A group and the siblings after it. */
  ghost function List(nodes: set<TaskGroup>, c: TaskGroup?): seq<TaskGroup>
    requires Linked(nodes) && (c != null ==> c in nodes)
    reads nodes, c
    decreases Size(c)
  {
    if c == null then [] else [c] + List(nodes, c.siblings)
  }

  /** A call the walk makes: `(*down)(g, data)` or `(*up)(g, data)`. */
  datatype Event = Down(g: TaskGroup) | Up(g: TaskGroup)

  /** The recursive walk of `c` and its later siblings: down on a group, its children, up on the group. */
  ghost function Forest(nodes: set<TaskGroup>, c: TaskGroup?): seq<Event>
    requires Linked(nodes) && (c != null ==> c in nodes)
    reads nodes, c
    decreases Size(c)
  {
    if c == null then [] else
      [Down(c)] + Forest(nodes, c.children) + [Up(c)] + Forest(nodes, c.siblings)
  }

  /** All calls of the recursive walk of the whole tree. */
  ghost function Walk(nodes: set<TaskGroup>, root: TaskGroup): seq<Event>
    requires Tree(nodes, root)
    reads nodes
  {
    Forest(nodes, root)
  }

  /** What the recursive walk still has to do once it is finished with `g` itself. */
  ghost function After(nodes: set<TaskGroup>, g: TaskGroup): seq<Event>
    requires Linked(nodes) && g in nodes
    reads nodes
    decreases g.depth
  {
    if g.parent == null then [] else
      Forest(nodes, g.siblings) + [Up(g.parent)] + After(nodes, g.parent)
  }

  /** A function pointer of type `tg_visitor`, with its data. */
  datatype Visitor =
    | TgNop
    | TgSchedulable(data: RtSchedulableData)
    | Callback(f: seq<Event> -> int)   // any other visitor: its result may depend on every call so far

  /** What the check reads of a group. */
  datatype Params = Params(period: nat, runtime: nat, hasRtTasks: bool)

  /** The parameters of all groups. */
  ghost function ParamsOf(nodes: set<TaskGroup>): map<TaskGroup, Params>
    reads nodes, set g | g in nodes :: g.rt
  {
    map g | g in nodes :: Params(g.rt.period, g.rt.runtime, g.hasRtTasks)
  }

  /**
   The request `tg_schedulable` checks: `tg` with a new period and runtime, under the system-wide
   setting. `params` records the groups' own parameters, for the specification only.
   */
  datatype RtSchedulableData = RtSchedulableData(
    tg: TaskGroup?, rtPeriod: nat, rtRuntime: nat, setting: Setting, root: TaskGroup,
    ghost params: map<TaskGroup, Params>)
  {
    /** The period and runtime the check uses for a group. */
    ghost function Period(g: TaskGroup): nat
      requires g in params
    {
      if setting.userSched && g == root then setting.GlobalPeriod()
      else if g == tg then rtPeriod else params[g].period
    }

    ghost function Runtime(g: TaskGroup): nat
      requires g in params
    {
      if setting.userSched && g == root then setting.GlobalRuntime()
      else if g == tg then rtRuntime else params[g].runtime
    }

    ghost function Ratio(g: TaskGroup): nat
      requires g in params
    {
      ToRatio(Period(g), Runtime(g))
    }
  }

  /** The exact sum of the ratios of `c` and its later siblings. */
  ghost function ListRatio(d: RtSchedulableData, nodes: set<TaskGroup>, c: TaskGroup?): nat
    requires Linked(nodes) && (c != null ==> c in nodes) && nodes <= d.params.Keys
    reads nodes, c
    decreases Size(c)
  {
    if c == null then 0 else d.Ratio(c) + ListRatio(d, nodes, c.siblings)
  }

  /** The checks of `tg_schedulable`, with the exact sum `children` of the children's ratios. */
  function VerdictOf(setting: Setting, period: nat, runtime: nat, children: nat, hasRtTasks: bool): int {
    if runtime > period && runtime != RUNTIME_INF then -EINVAL
    else if setting.sysctlRuntime >= 0 && runtime == 0 && hasRtTasks then -EBUSY
    else if ToRatio(period, runtime) > setting.GlobalRatio() then -EINVAL
    else if Wrap32(children) > ToRatio(period, runtime) then -EINVAL
    else 0
  }

  /** What `tg_schedulable` answers for `g`. */
  ghost function Verdict(d: RtSchedulableData, nodes: set<TaskGroup>, g: TaskGroup): int
    requires Linked(nodes) && g in nodes && nodes <= d.params.Keys
    reads nodes
  {
    VerdictOf(d.setting, d.Period(g), d.Runtime(g), ListRatio(d, nodes, g.children), d.params[g].hasRtTasks)
  }

  /** The visitor's record of the groups' parameters is up to date. */
  ghost predicate Current(v: Visitor, nodes: set<TaskGroup>)
    reads nodes, set g | g in nodes :: g.rt
  {
    v.TgSchedulable? ==>
      v.data.params == ParamsOf(nodes) && v.data.root in nodes && v.data.root.parent == null
  }

  /** The visitor's record covers the groups. */
  ghost predicate Covers(v: Visitor, nodes: set<TaskGroup>) {
    v.TgSchedulable? ==> nodes <= v.data.params.Keys
  }

  /** The sum over the children is kept in an `unsigned long`. */
  method TgSchedulableVisit(tg: TaskGroup, d: RtSchedulableData, ghost nodes: set<TaskGroup>) returns (ret: int)
    requires Linked(nodes) && tg in nodes && Current(TgSchedulable(d), nodes)
    ensures ret == Verdict(d, nodes, tg)
  {
    hide ToRatio, Wrap32;
    var period, runtime := tg.rt.period, tg.rt.runtime;
    if tg == d.tg {
      period, runtime := d.rtPeriod, d.rtRuntime;
    }
    if d.setting.userSched && tg == d.root {
      period, runtime := d.setting.GlobalPeriod(), d.setting.GlobalRuntime();
    }
    if runtime > period && runtime != RUNTIME_INF {
      return -EINVAL;
    }
    if d.setting.sysctlRuntime >= 0 && runtime == 0 && tg.hasRtTasks {
      return -EBUSY;
    }
    var total, sum := ToRatio(period, runtime), 0;
    if total > d.setting.GlobalRatio() {
      return -EINVAL;
    }
    sum := SumOfChildren(tg, d, nodes);
    ret := if sum > total then -EINVAL else 0;
  }

  /** The loop over the children: each with its own bandwidth, but the requested one for `d.tg`. */
  method SumOfChildren(tg: TaskGroup, d: RtSchedulableData, ghost nodes: set<TaskGroup>) returns (sum: nat)
    requires Linked(nodes) && tg in nodes && Current(TgSchedulable(d), nodes)
    ensures sum == Wrap32(ListRatio(d, nodes, tg.children))
  {
    hide ToRatio, Wrap32;
    sum := 0;
    var child := tg.children;
    WrapMiddle(0, 0, 0);
    while child != null
      invariant child != null ==> child in nodes && child.parent == tg
      invariant sum == Wrap32(sum)
      invariant Wrap32(sum + ListRatio(d, nodes, child)) == Wrap32(ListRatio(d, nodes, tg.children))
      decreases Size(child)
    {
      var period, runtime := child.rt.period, child.rt.runtime;
      if child == d.tg {
        period, runtime := d.rtPeriod, d.rtRuntime;
      }
      WrapMiddle(sum, ToRatio(period, runtime), ListRatio(d, nodes, child.siblings));
      sum := Wrap32(sum + ToRatio(period, runtime));
      child := child.siblings;
    }
    WrapMiddle(0, sum, 0);
  }

  lemma WrapMiddle(a: int, b: int, c: int)
    ensures Wrap32(Wrap32(a + b) + c) == Wrap32(a + (b + c))
    ensures Wrap32(Wrap32(a + b)) == Wrap32(a + b) && Wrap32(0) == 0
  {
  }

  /** What visitor `v` returns for the last call of `trace`, whose history is `trace`. */
  ghost function VisitorResult(v: Visitor, nodes: set<TaskGroup>, trace: seq<Event>): int
    requires Linked(nodes) && trace != [] && trace[|trace| - 1].g in nodes
    requires Covers(v, nodes)
    reads nodes
  {
    match v
    case TgNop => 0
    case TgSchedulable(d) => Verdict(d, nodes, trace[|trace| - 1].g)
    case Callback(f) => f(trace)
  }

  /** The result of the last call of `trace`: `down` or `up` makes it. */
  ghost function Result(down: Visitor, up: Visitor, nodes: set<TaskGroup>, trace: seq<Event>): int
    requires Linked(nodes) && trace != [] && trace[|trace| - 1].g in nodes
    requires Covers(down, nodes) && Covers(up, nodes)
    reads nodes
  {
    VisitorResult(if trace[|trace| - 1].Down? then down else up, nodes, trace)
  }

  /** Every call before the last one returned zero. */
  ghost predicate Silent(down: Visitor, up: Visitor, nodes: set<TaskGroup>, trace: seq<Event>)
    requires Linked(nodes) && Covers(down, nodes) && Covers(up, nodes)
    requires forall k | 0 <= k < |trace| :: trace[k].g in nodes
    reads nodes
  {
    forall k | 0 < k < |trace| :: Result(down, up, nodes, trace[..k]) == 0
  }

  lemma SilentStart(down: Visitor, up: Visitor, nodes: set<TaskGroup>)
    requires Linked(nodes) && Covers(down, nodes) && Covers(up, nodes)
    ensures Silent(down, up, nodes, [])
  {
  }

  lemma SilentNext(down: Visitor, up: Visitor, nodes: set<TaskGroup>, trace: seq<Event>, e: Event)
    requires Linked(nodes) && (forall k | 0 <= k < |trace| :: trace[k].g in nodes) && e.g in nodes
    requires Covers(down, nodes) && Covers(up, nodes)
    requires Silent(down, up, nodes, trace)
    requires trace != [] ==> Result(down, up, nodes, trace) == 0
    ensures Silent(down, up, nodes, trace + [e])
  {
    assert trace[..|trace|] == trace;
    forall k | 0 < k < |trace + [e]| ensures Result(down, up, nodes, (trace + [e])[..k]) == 0 {
      assert (trace + [e])[..k] == trace[..k];
    }
  }

  /** `(*down)(g, data)` or `(*up)(g, data)`: dispatch on the function pointer. */
  method Call(down: Visitor, up: Visitor, trace: seq<Event>, e: Event, ghost nodes: set<TaskGroup>)
    returns (ret: int, calls: seq<Event>)
    requires Linked(nodes) && (forall k | 0 <= k < |trace| :: trace[k].g in nodes) && e.g in nodes
    requires Current(down, nodes) && Current(up, nodes)
    requires Silent(down, up, nodes, trace)
    requires trace != [] ==> Result(down, up, nodes, trace) == 0
    ensures calls == trace + [e] && forall k | 0 <= k < |calls| :: calls[k].g in nodes
    ensures Silent(down, up, nodes, calls)
    ensures ret == Result(down, up, nodes, calls)
  {
    SilentNext(down, up, nodes, trace, e);
    calls := trace + [e];
    match if e.Down? then down else up
    case TgNop => ret := 0;
    case TgSchedulable(d) => ret := TgSchedulableVisit(e.g, d, nodes);
    case Callback(f) => ret := f(calls);
  }

  /** The calls made are silent but for the last, whose result is `ret`, and those in `pending` are left. */
  ghost predicate Walking(down: Visitor, up: Visitor, nodes: set<TaskGroup>, whole: seq<Event>,
                          trace: seq<Event>, ret: int, pending: seq<Event>)
    requires Linked(nodes) && Covers(down, nodes) && Covers(up, nodes)
    reads nodes
  {
    && trace + pending == whole && (forall k | 0 <= k < |trace| :: trace[k].g in nodes)
    && Silent(down, up, nodes, trace) && (if trace == [] then ret == 0 else ret == Result(down, up, nodes, trace))
  }

  /** Makes the next pending call. */
  method MakeCall(down: Visitor, up: Visitor, trace: seq<Event>, e: Event, ghost rest: seq<Event>,
                  ghost whole: seq<Event>, ghost nodes: set<TaskGroup>)
    returns (ret: int, calls: seq<Event>)
    requires Linked(nodes) && e.g in nodes && Current(down, nodes) && Current(up, nodes)
    requires Walking(down, up, nodes, whole, trace, 0, [e] + rest)
    ensures calls == trace + [e] && Walking(down, up, nodes, whole, calls, ret, rest)
  {
    hide Silent, Result;
    ret, calls := Call(down, up, trace, e, nodes);
    assert (trace + [e]) + rest == trace + ([e] + rest);
  }

  /** What is left inside the loop over the children of `g` that has come to `child`. */
  ghost function Inside(nodes: set<TaskGroup>, g: TaskGroup, child: TaskGroup?): seq<Event>
    requires Linked(nodes) && g in nodes && (child != null ==> child in nodes)
    reads nodes, child
  {
    Forest(nodes, child) + [Up(g)] + After(nodes, g)
  }

  lemma WalkStarts(down: Visitor, up: Visitor, nodes: set<TaskGroup>, root: TaskGroup)
    requires Tree(nodes, root) && Current(down, nodes) && Current(up, nodes)
    ensures Linked(nodes) && Covers(down, nodes) && Covers(up, nodes)
    ensures Going(nodes, down, up, Walk(nodes, root), AtDown, root, null, [], 0, Walk(nodes, root))
  {
    assert After(nodes, root) == [] && Forest(nodes, root.siblings) == [];
    SilentStart(down, up, nodes);
    assert [] + Walk(nodes, root) == Walk(nodes, root);
  }

  datatype Label = AtDown | AtLoop | Out

  /** What is left at a label, for the group and the child the walk has come to. */
  ghost predicate Place(nodes: set<TaskGroup>, label_: Label, g: TaskGroup, child: TaskGroup?, pending: seq<Event>)
    requires Linked(nodes)
    reads nodes, child
  {
    && g in nodes
    && match label_
       case AtDown => pending == [Down(g)] + Inside(nodes, g, g.children)
       case AtLoop => (child != null ==> child in nodes && child.parent == g) && pending == Inside(nodes, g, child)
       case Out => true
  }

  /** Past the call of `down` on a group comes the loop over its children. */
  lemma StartGroup(nodes: set<TaskGroup>, g: TaskGroup, child: TaskGroup?, pending: seq<Event>)
    returns (rest: seq<Event>)
    requires Linked(nodes) && Place(nodes, AtDown, g, child, pending)
    ensures g in nodes && pending == [Down(g)] + rest && Place(nodes, AtLoop, g, g.children, rest)
    ensures Place(nodes, Out, g, g.children, rest)
  {
    rest := Inside(nodes, g, g.children);
    hide Inside;
  }

  /** Entering a child: what was left for the parent's loop is what is left at the child's entry. */
  lemma StartChild(nodes: set<TaskGroup>, g: TaskGroup, child: TaskGroup, pending: seq<Event>)
    requires Linked(nodes) && Place(nodes, AtLoop, g, child, pending)
    ensures Place(nodes, AtDown, child, child, pending)
  {
    Regroup([Down(child)], Forest(nodes, child.children), [Up(child)], Forest(nodes, child.siblings), [Up(g)],
            After(nodes, g));
  }

  lemma Regroup(a: seq<Event>, b: seq<Event>, c: seq<Event>, d: seq<Event>, e: seq<Event>, f: seq<Event>)
    ensures (a + b + c + d) + e + f == a + (b + c + (d + e + f))
  {
  }

  /** Past the call of `up` comes the loop of the parent, or nothing for the root. */
  lemma EndGroup(nodes: set<TaskGroup>, g: TaskGroup, pending: seq<Event>) returns (rest: seq<Event>)
    requires Linked(nodes) && Place(nodes, AtLoop, g, null, pending)
    ensures g in nodes && pending == [Up(g)] + rest && Place(nodes, Out, g, g, rest)
    ensures if g.parent == null then rest == [] else Place(nodes, AtLoop, g.parent, g.siblings, rest)
  {
    rest := After(nodes, g);
  }

  /** The locals of the walk: at a label, with a result, and with the calls made and left. */
  ghost predicate Going(nodes: set<TaskGroup>, down: Visitor, up: Visitor, whole: seq<Event>, label_: Label,
                        parent: TaskGroup, child: TaskGroup?, trace: seq<Event>, ret: int, pending: seq<Event>)
    requires Linked(nodes) && Covers(down, nodes) && Covers(up, nodes)
    reads nodes, child
  {
    && Place(nodes, label_, parent, child, pending) && Walking(down, up, nodes, whole, trace, ret, pending)
    && (trace == [] ==> label_ == AtDown) && (ret == 0 || label_ == Out)
    && (label_ == Out && ret == 0 ==> pending == [])
  }

  /** From one label to the next: a call, or the way into a child. */
  method Advance(ghost nodes: set<TaskGroup>, down: Visitor, up: Visitor, ghost whole: seq<Event>, label0: Label,
                 parent0: TaskGroup, child0: TaskGroup?, trace0: seq<Event>, ghost pending0: seq<Event>)
    returns (label_: Label, parent: TaskGroup, child: TaskGroup?, trace: seq<Event>, ret: int,
             ghost pending: seq<Event>)
    requires Linked(nodes) && Current(down, nodes) && Current(up, nodes) && label0 != Out
    requires Going(nodes, down, up, whole, label0, parent0, child0, trace0, 0, pending0)
    ensures Going(nodes, down, up, whole, label_, parent, child, trace, ret, pending)
    ensures |pending| < |pending0| || (pending == pending0 && label0 == AtLoop && label_ == AtDown)
  {
    hide Place, Walking, Linked, Current;
    parent, child, trace, ret, pending := parent0, child0, trace0, 0, pending0;
    match label0
    case AtDown =>
      pending := StartGroup(nodes, parent, child, pending);
      ret, trace := MakeCall(down, up, trace, Down(parent), pending, whole, nodes);
      child := parent.children;
      label_ := if ret != 0 then Out else AtLoop;
    case AtLoop =>
      if child != null {
        StartChild(nodes, parent, child, pending);
        parent, label_ := child, AtDown;
      } else {
        pending := EndGroup(nodes, parent, pending);
        ret, trace := MakeCall(down, up, trace, Up(parent), pending, whole, nodes);
        child := parent;
        if ret != 0 || parent.parent == null {
          label_ := Out;
        } else {
          label_ := AtLoop;
          parent := parent.parent;
          child := child.siblings;
        }
      }
  }

  /**
   Makes exactly the calls of the recursive walk, in its order, up to and including the first
   one with a nonzero result, and returns the result of the last call made.
   */
  method WalkTgTree(root: TaskGroup, down: Visitor, up: Visitor, ghost nodes: set<TaskGroup>)
    returns (ret: int, trace: seq<Event>)
    requires Tree(nodes, root)
    requires Current(down, nodes) && Current(up, nodes)
    ensures trace != [] && trace <= Walk(nodes, root)
    ensures forall k | 0 <= k < |trace| :: trace[k].g in nodes
    ensures Silent(down, up, nodes, trace)
    ensures ret == Result(down, up, nodes, trace)
    ensures ret == 0 ==> trace == Walk(nodes, root)
  {
    hide *;
    WalkStarts(down, up, nodes, root);
    ghost var whole := Walk(nodes, root);
    ghost var pending := whole;
    trace, ret := [], 0;
    var parent, child: TaskGroup?, label_ := root, null, AtDown;
    while label_ != Out
      invariant Going(nodes, down, up, whole, label_, parent, child, trace, ret, pending)
      invariant label_ != Out ==> ret == 0
      decreases |pending|, if label_ == AtLoop then 1 else 0
    {
      label_, parent, child, trace, ret, pending :=
        Advance(nodes, down, up, whole, label_, parent, child, trace, pending);
      GoingOn(nodes, down, up, whole, label_, parent, child, trace, ret, pending);
    }
    WalkEnds(nodes, down, up, whole, parent, child, trace, ret, pending);
  }

  lemma GoingOn(nodes: set<TaskGroup>, down: Visitor, up: Visitor, whole: seq<Event>, label_: Label,
                parent: TaskGroup, child: TaskGroup?, trace: seq<Event>, ret: int, pending: seq<Event>)
    requires Linked(nodes) && Covers(down, nodes) && Covers(up, nodes)
    requires Going(nodes, down, up, whole, label_, parent, child, trace, ret, pending)
    ensures label_ != Out ==> ret == 0
  {
    hide Place, Walking;
  }

  lemma WalkEnds(nodes: set<TaskGroup>, down: Visitor, up: Visitor, whole: seq<Event>,
                 parent: TaskGroup, child: TaskGroup?, trace: seq<Event>, ret: int, pending: seq<Event>)
    requires Linked(nodes) && Covers(down, nodes) && Covers(up, nodes)
    requires Going(nodes, down, up, whole, Out, parent, child, trace, ret, pending)
    ensures trace != [] && trace <= whole
    ensures (forall k | 0 <= k < |trace| :: trace[k].g in nodes) && Silent(down, up, nodes, trace)
    ensures ret == Result(down, up, nodes, trace) && (ret == 0 ==> trace == whole)
  {
    hide Silent, Result, Place;
  }

  /** The ancestor of `x` at depth `d`, or `x` itself when it is no deeper. */
  ghost function AncestorAt(nodes: set<TaskGroup>, x: TaskGroup, d: nat): TaskGroup
    requires Linked(nodes) && x in nodes
    reads nodes
    decreases x.depth
  {
    if x.depth <= d || x.parent == null then x else AncestorAt(nodes, x.parent, d)
  }

  lemma {:induction false} AncestorFacts(nodes: set<TaskGroup>, root: TaskGroup, x: TaskGroup, d: nat)
    requires Tree(nodes, root) && x in nodes && root.depth <= d <= x.depth
    ensures AncestorAt(nodes, x, d) in nodes && AncestorAt(nodes, x, d).depth == d
    ensures d < x.depth ==> AncestorAt(nodes, x, d + 1).parent == AncestorAt(nodes, x, d)
    decreases x.depth
  {
    if d < x.depth {
      assert x.parent != null;
      AncestorFacts(nodes, root, x.parent, d);
    }
  }

  lemma {:induction false} ListFacts(nodes: set<TaskGroup>, c: TaskGroup)
    requires Linked(nodes) && c in nodes
    ensures forall y | y in List(nodes, c) ::
              y in nodes && y.parent == c.parent && y.rank <= c.rank && (c.parent != null ==> y.depth == c.depth)
    decreases c.rank
  {
    if c.siblings != null {
      ListFacts(nodes, c.siblings);
    }
  }

  lemma {:induction false} RootIsShallowest(nodes: set<TaskGroup>, root: TaskGroup, x: TaskGroup)
    requires Tree(nodes, root) && x in nodes
    ensures root.depth <= x.depth && (x != root ==> root.depth < x.depth)
    decreases x.depth
  {
    if x != root {
      RootIsShallowest(nodes, root, x.parent);
    }
  }

  /** `x` is in the subtree of one of `c` and its later siblings. */
  ghost predicate Under(nodes: set<TaskGroup>, c: TaskGroup?, x: TaskGroup)
    requires Linked(nodes) && (c != null ==> c in nodes) && x in nodes
    reads nodes, c
  {
    c != null && c.depth <= x.depth && AncestorAt(nodes, x, c.depth) in List(nodes, c)
  }

  lemma UnderSelf(nodes: set<TaskGroup>, c: TaskGroup)
    requires Linked(nodes) && c in nodes
    requires c.siblings != null ==> c.parent != null
    ensures Under(nodes, c, c) && !Under(nodes, c.children, c) && !Under(nodes, c.siblings, c)
  {
    assert AncestorAt(nodes, c, c.depth) == c;
    assert c in List(nodes, c);
    if c.siblings != null {
      ListFacts(nodes, c.siblings);
      assert c !in List(nodes, c.siblings);
    }
  }

  lemma UnderChild(nodes: set<TaskGroup>, root: TaskGroup, c: TaskGroup, x: TaskGroup)
    requires Tree(nodes, root) && c in nodes && x in nodes
    requires root.depth <= c.depth < x.depth && AncestorAt(nodes, x, c.depth) == c
    ensures Under(nodes, c, x) && Under(nodes, c.children, x) && !Under(nodes, c.siblings, x)
  {
    AncestorFacts(nodes, root, x, c.depth);
    AncestorFacts(nodes, root, x, c.depth + 1);
    var z := AncestorAt(nodes, x, c.depth + 1);
    hide AncestorAt;
    assert c in List(nodes, c);
    hide List;
    assert z.parent == c && z in List(nodes, c.children);
    if c.siblings != null { ListFacts(nodes, c.siblings); }
  }

  lemma UnderSibling(nodes: set<TaskGroup>, root: TaskGroup, c: TaskGroup, x: TaskGroup)
    requires Tree(nodes, root) && c in nodes && x in nodes && root.depth <= c.depth
    requires x.depth < c.depth || AncestorAt(nodes, x, c.depth) != c
    ensures !Under(nodes, c.children, x)
    ensures Under(nodes, c, x) <==> Under(nodes, c.siblings, x)
  {
    if c.depth <= x.depth { AncestorFacts(nodes, root, x, c.depth); }
    NotUnderChildren(nodes, root, c, x);
    hide AncestorAt, Tree;
    assert List(nodes, c) == [c] + List(nodes, c.siblings);
    hide List;
  }

  lemma NotUnderChildren(nodes: set<TaskGroup>, root: TaskGroup, c: TaskGroup, x: TaskGroup)
    requires Tree(nodes, root) && c in nodes && x in nodes && root.depth <= c.depth
    requires x.depth < c.depth || AncestorAt(nodes, x, c.depth) != c
    ensures !Under(nodes, c.children, x)
  {
    if c.depth <= x.depth { AncestorFacts(nodes, root, x, c.depth); }
    hide AncestorAt;
    if c.children != null && c.children.depth <= x.depth {
      ListFacts(nodes, c.children);
    }
    hide List;
  }

  ghost function UnderCount(nodes: set<TaskGroup>, c: TaskGroup?, x: TaskGroup): nat
    requires Linked(nodes) && (c != null ==> c in nodes) && x in nodes
    reads nodes, c
  {
    if Under(nodes, c, x) then 1 else 0
  }

  /** `x` is below `c` itself, or below one of its children or later siblings, in exactly one way. */
  lemma UnderSplits(nodes: set<TaskGroup>, root: TaskGroup, c: TaskGroup, x: TaskGroup)
    requires Tree(nodes, root) && c in nodes && x in nodes
    ensures UnderCount(nodes, c, x)
         == (if c == x then 1 else 0) + UnderCount(nodes, c.children, x) + UnderCount(nodes, c.siblings, x)
  {
    RootIsShallowest(nodes, root, c);
    if x == c {
      UnderSelf(nodes, c);
    } else if c.depth <= x.depth && AncestorAt(nodes, x, c.depth) == c {
      UnderChild(nodes, root, c, x);
    } else {
      UnderSibling(nodes, root, c, x);
    }
    hide Under;
  }

  lemma CountParts(d: Event, f: seq<Event>, u: Event, g: seq<Event>, e: Event)
    ensures multiset([d] + f + [u] + g)[e]
         == (if d == e then 1 else 0) + multiset(f)[e] + (if u == e then 1 else 0) + multiset(g)[e]
  {
    assert multiset([d] + f + [u] + g) == multiset{d} + multiset(f) + multiset{u} + multiset(g);
  }

  lemma ForestCount(nodes: set<TaskGroup>, c: TaskGroup, e: Event)
    requires Linked(nodes) && c in nodes
    ensures multiset(Forest(nodes, c))[e]
         == (if Down(c) == e || Up(c) == e then 1 else 0)
          + multiset(Forest(nodes, c.children))[e] + multiset(Forest(nodes, c.siblings))[e]
  {
    CountParts(Down(c), Forest(nodes, c.children), Up(c), Forest(nodes, c.siblings), e);
  }

  /** Each group of the subtrees is entered exactly once and left exactly once, and no other group is. */
  lemma {:induction false} ForestCounts(nodes: set<TaskGroup>, root: TaskGroup, c: TaskGroup?, e: Event)
    requires Tree(nodes, root) && (c != null ==> c in nodes) && e.g in nodes
    ensures multiset(Forest(nodes, c))[e] == UnderCount(nodes, c, e.g)
    decreases Size(c)
  {
    if c != null {
      UnderSplits(nodes, root, c, e.g);
      ForestCount(nodes, c, e);
      hide Under, Forest, UnderCount;
      ForestCounts(nodes, root, c.children, e);
      ForestCounts(nodes, root, c.siblings, e);
    }
  }

  /** The whole tree is below the root. */
  lemma AllUnderRoot(nodes: set<TaskGroup>, root: TaskGroup, x: TaskGroup)
    requires Tree(nodes, root) && x in nodes
    ensures UnderCount(nodes, root, x) == 1
  {
    RootIsShallowest(nodes, root, x);
    AncestorFacts(nodes, root, x, root.depth);
    var y := AncestorAt(nodes, x, root.depth);
    RootIsShallowest(nodes, root, y);
    assert y == root;
  }

  /** The full walk calls `down` once and `up` once on every group of the tree. */
  lemma WalkVisitsEachOnce(nodes: set<TaskGroup>, root: TaskGroup, x: TaskGroup)
    requires Tree(nodes, root) && x in nodes
    ensures multiset(Walk(nodes, root))[Down(x)] == 1 && multiset(Walk(nodes, root))[Up(x)] == 1
  {
    ForestCounts(nodes, root, root, Down(x));
    ForestCounts(nodes, root, root, Up(x));
    AllUnderRoot(nodes, root, x);
    hide UnderCount;
  }
}
