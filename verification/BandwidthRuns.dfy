/**
 RT bandwidth over whole runs: groups are created and destroyed, and bandwidths and system-wide
 settings requested. The children of a group are a sequence here; the links are in `TaskGroups`.
 */
module BandwidthRuns {
  import opened Common
  import opened Words
  import opened RtRatio
  import opened TaskGroups

  type Kids = map<TaskGroup, seq<TaskGroup>>

  /** The tree as it stands, with no request on it. */
  function Standing(params: map<TaskGroup, Params>, setting: Setting, root: TaskGroup): RtSchedulableData {
    RtSchedulableData(null, 0, 0, setting, root, params)
  }

  /** The exact sum of the ratios of the groups of `s`. */
  ghost function SumRatio(d: RtSchedulableData, s: seq<TaskGroup>): nat
    requires forall g | g in s :: g in d.params
  {
    if s == [] then 0 else d.Ratio(s[0]) + SumRatio(d, s[1..])
  }

  /** Every group is in at most one list, once, and the root in none. */
  ghost predicate Shaped(kids: Kids, root: TaskGroup) {
    && root in kids
    && (forall g | g in kids :: Distinct(kids[g]))
    && (forall g, k | g in kids && k in kids[g] :: k in kids && k != root)
    && (forall g, h, k | g in kids && h in kids && k in kids[g] && k in kids[h] :: g == h)
  }

  /** Every child has parameters. */
  ghost predicate Within(d: RtSchedulableData, kids: Kids) {
    kids.Keys <= d.params.Keys && forall g, k | g in kids && k in kids[g] :: k in d.params
  }

  /**
   The ratio of every group is at least the exact sum of its children's, and at most the system-wide
   one and the full ratio.
   */
  ghost predicate KidsCovered(d: RtSchedulableData, kids: Kids)
    requires Within(d, kids)
  {
    forall g | g in kids :: SumRatio(d, kids[g]) <= d.Ratio(g) <= d.setting.GlobalRatio() && d.Ratio(g) <= FULL
  }

  /** What the children of a group may take: at the root of groups per user, the whole time. */
  ghost function Capacity(d: RtSchedulableData, g: TaskGroup): nat
    requires g in d.params
  {
    if d.setting.userSched && g == d.root then FULL else d.Ratio(g)
  }

  /** No group takes more than the whole time, nor its children more than the group. */
  ghost predicate KidsHeld(d: RtSchedulableData, kids: Kids)
    requires Within(d, kids)
  {
    forall g | g in kids :: SumRatio(d, kids[g]) <= Capacity(d, g) <= FULL
  }

  /** One setting for every group. */
  function Everywhere(groups: set<TaskGroup>, setting: Setting): map<TaskGroup, Setting> {
    map g | g in groups :: setting
  }

  /**
   `__rt_schedulable` accepts the request `d`. The walk reads the setting anew for every group, and
   nothing keeps it from changing in between: `seen` is what it reads.
   */
  ghost predicate Accepted(d: RtSchedulableData, kids: Kids, seen: map<TaskGroup, Setting>)
    requires Within(d, kids) && kids.Keys <= seen.Keys
  {
    forall g | g in kids ::
      VerdictOf(seen[g], d.Period(g), d.Runtime(g), SumRatio(d, kids[g]), d.params[g].hasRtTasks) == 0
  }

  /** A group that passes the check covers its children if and only if the exact sum fits 32 bits. */
  lemma AcceptedCovers(d: RtSchedulableData, g: TaskGroup, seen: Setting, sum: nat)
    requires g in d.params && VerdictOf(seen, d.Period(g), d.Runtime(g), sum, d.params[g].hasRtTasks) == 0
    ensures d.Ratio(g) <= seen.GlobalRatio() && d.Ratio(g) <= FULL
    ensures sum <= d.Ratio(g) <==> sum < ULONG_RANGE
  {
    RatioAtMostFull(d.Period(g), d.Runtime(g));
  }

  lemma {:induction false} SameSum(d: RtSchedulableData, e: RtSchedulableData, s: seq<TaskGroup>)
    requires forall g | g in s :: g in d.params && g in e.params && d.Ratio(g) == e.Ratio(g)
    ensures SumRatio(d, s) == SumRatio(e, s)
  {
    hide ToRatio;
    if s != [] {
      SameSum(d, e, s[1..]);
    }
  }

  /** A request changes one group of a list at most, so it adds at most the full ratio to the sum. */
  lemma {:induction false} OneMore(d: RtSchedulableData, e: RtSchedulableData, s: seq<TaskGroup>)
    requires Distinct(s) && forall g | g in s :: g in d.params && g in e.params
    requires forall g | g in s && g != d.tg :: d.Ratio(g) == e.Ratio(g)
    requires forall g | g in s && g == d.tg :: d.Ratio(g) <= FULL
    ensures SumRatio(d, s) <= SumRatio(e, s) + FULL
  {
    hide ToRatio;
    if s != [] {
      assert Distinct(s[1..]) && s[0] !in s[1..];
      if s[0] == d.tg {
        SameSum(d, e, s[1..]);
      } else {
        OneMore(d, e, s[1..]);
      }
    }
  }

  /** The parameters once the request `d` is written. */
  ghost function Written(d: RtSchedulableData): map<TaskGroup, Params>
    requires d.tg != null && d.tg in d.params
  {
    d.params[d.tg := Params(d.rtPeriod, d.rtRuntime, d.params[d.tg].hasRtTasks)]
  }

  lemma WrittenRatio(d: RtSchedulableData, g: TaskGroup)
    requires d.tg != null && d.tg in d.params && g in d.params
    ensures d.Ratio(g) == Standing(Written(d), d.setting, d.root).Ratio(g)
    ensures g != d.tg ==> d.Ratio(g) == Standing(d.params, d.setting, d.root).Ratio(g)
  {
    hide ToRatio;
  }

  /** Ratios other than that of the root of groups per user do not depend on the setting. */
  lemma OtherSetting(params: map<TaskGroup, Params>, setting: Setting, next: Setting, root: TaskGroup, kids: Kids)
    requires setting.userSched == next.userSched
    requires Within(Standing(params, setting, root), kids) && forall g | g in kids :: root !in kids[g]
    ensures var d, e := Standing(params, setting, root), Standing(params, next, root);
            forall g | g in kids ::
              SumRatio(d, kids[g]) == SumRatio(e, kids[g]) && Capacity(d, g) == Capacity(e, g)
              && (g != root || !next.userSched ==> d.Ratio(g) == e.Ratio(g))
  {
    var d, e := Standing(params, setting, root), Standing(params, next, root);
    assert forall g | g in params && (g != root || !next.userSched) :: d.Ratio(g) == e.Ratio(g);
    hide RtSchedulableData.Ratio, SumRatio;
    forall g | g in kids ensures SumRatio(d, kids[g]) == SumRatio(e, kids[g]) {
      SameSum(d, e, kids[g]);
    }
  }

  /**
   What an accepted request leaves in a tree that holds, however many children its groups have and
   whatever settings its walk read: each sum was at most 2^20 before and is at most 2^21 in the
   check, so it cannot wrap there.
   */
  lemma RequestFits(d: RtSchedulableData, kids: Kids, seen: map<TaskGroup, Setting>)
    requires Within(d, kids) && d.tg != null && d.tg in kids && (forall g | g in kids :: Distinct(kids[g]))
    requires kids.Keys <= seen.Keys
    requires KidsHeld(Standing(d.params, d.setting, d.root), kids) && Accepted(d, kids, seen)
    ensures var r := Standing(Written(d), d.setting, d.root);
            forall g | g in kids :: SumRatio(r, kids[g]) <= r.Ratio(g) <= seen[g].GlobalRatio() && r.Ratio(g) <= FULL
  {
    var old_, new_ := Standing(d.params, d.setting, d.root), Standing(Written(d), d.setting, d.root);
    AcceptedCovers(d, d.tg, seen[d.tg], SumRatio(d, kids[d.tg]));
    forall g | g in d.params ensures d.Ratio(g) == new_.Ratio(g) && (g != d.tg ==> d.Ratio(g) == old_.Ratio(g)) {
      WrittenRatio(d, g);
    }
    hide ToRatio, VerdictOf, SumRatio, Written, RtSchedulableData.Ratio, Setting.GlobalRatio;
    forall g | g in kids
      ensures SumRatio(new_, kids[g]) <= new_.Ratio(g) <= seen[g].GlobalRatio() && new_.Ratio(g) <= FULL
    {
      OneMore(d, old_, kids[g]);
      AcceptedCovers(d, g, seen[g], SumRatio(d, kids[g]));
      SameSum(d, new_, kids[g]);
    }
  }

  /** The same under the settled setting: the tree still holds, and is covered if the walk read no other. */
  lemma RequestKeepsHeld(d: RtSchedulableData, kids: Kids, seen: map<TaskGroup, Setting>, settled: Setting)
    requires Within(d, kids) && d.tg != null && d.tg in kids
    requires forall g | g in kids :: Distinct(kids[g]) && d.root !in kids[g]
    requires kids.Keys <= seen.Keys && settled.userSched == d.setting.userSched
    requires KidsHeld(Standing(d.params, settled, d.root), kids) && Accepted(d, kids, seen)
    ensures var r := Standing(Written(d), settled, d.root);
            && KidsHeld(r, kids)
            && (forall g | g in kids && g != d.tg :: r.Ratio(g) == Standing(d.params, settled, d.root).Ratio(g))
            && (settled == d.setting && (forall g | g in kids :: seen[g] == settled) ==> KidsCovered(r, kids))
  {
    OtherSetting(d.params, settled, d.setting, d.root, kids);
    OtherSetting(Written(d), d.setting, settled, d.root, kids);
    forall g | g in d.params && g != d.tg
      ensures Standing(Written(d), settled, d.root).Ratio(g) == Standing(d.params, settled, d.root).Ratio(g)
    {
      WrittenRatio(d.(setting := settled), g);
    }
    hide ToRatio, RtSchedulableData.Ratio, SumRatio, Written, Accepted, Setting.GlobalRatio;
    RequestFits(d, kids, seen);
  }

  /** A setting that the standing tree passes covers it. */
  lemma CheckCovers(params: map<TaskGroup, Params>, setting: Setting, root: TaskGroup, kids: Kids)
    requires Within(Standing(params, setting, root), kids)
    requires KidsHeld(Standing(params, setting, root), kids)
    requires Accepted(Standing(params, setting, root), kids, Everywhere(kids.Keys, setting))
    ensures KidsCovered(Standing(params, setting, root), kids)
  {
    var d := Standing(params, setting, root);
    forall g | g in kids
      ensures SumRatio(d, kids[g]) <= d.Ratio(g) <= setting.GlobalRatio() && d.Ratio(g) <= FULL
    {
      AcceptedCovers(d, g, setting, SumRatio(d, kids[g]));
      hide ToRatio, VerdictOf, SumRatio;
    }
  }

  /** The runtime of a group is within its period, or infinite. */
  ghost predicate Sound(d: RtSchedulableData, g: TaskGroup)
    requires g in d.params
  {
    d.Runtime(g) <= d.Period(g) || d.Runtime(g) == RUNTIME_INF
  }

  /** RT tasks of the group would be left without any runtime, while runtimes are enforced. */
  ghost predicate Starves(d: RtSchedulableData, g: TaskGroup)
    requires g in d.params
  {
    d.setting.sysctlRuntime >= 0 && d.Runtime(g) == 0 && d.params[g].hasRtTasks
  }

  /** The verdict on a group, by what is wrong with it: -EBUSY exactly for a sound group that starves. */
  lemma VerdictMeans(d: RtSchedulableData, g: TaskGroup, sum: nat)
    requires g in d.params && sum < ULONG_RANGE
    ensures var v := VerdictOf(d.setting, d.Period(g), d.Runtime(g), sum, d.params[g].hasRtTasks);
            && (v == 0 <==> Sound(d, g) && !Starves(d, g) && sum <= d.Ratio(g) <= d.setting.GlobalRatio())
            && (v == -EBUSY <==> Sound(d, g) && Starves(d, g))
            && v in {0, -EBUSY, -EINVAL}
  {
    hide ToRatio;
  }

  /**
   A request over a tree that holds is accepted, under one setting throughout, if and only if every
   runtime is within its period, no group starves, and the tree is covered with the request on it.
   */
  lemma AcceptedIff(d: RtSchedulableData, kids: Kids)
    requires Within(d, kids) && (d.tg != null ==> d.tg in kids) && (forall g | g in kids :: Distinct(kids[g]))
    requires KidsHeld(Standing(d.params, d.setting, d.root), kids)
    ensures Accepted(d, kids, Everywhere(kids.Keys, d.setting)) <==>
            KidsCovered(d, kids) && forall g | g in kids :: Sound(d, g) && !Starves(d, g)
  {
    var seen := Everywhere(kids.Keys, d.setting);
    if Accepted(d, kids, seen) {
      if d.tg != null {
        AcceptedCovers(d, d.tg, d.setting, SumRatio(d, kids[d.tg]));
      }
      forall g | g in kids ensures SumRatio(d, kids[g]) < ULONG_RANGE && d.Ratio(g) <= FULL {
        SumBelow(d, kids, g);
        AcceptedCovers(d, g, d.setting, SumRatio(d, kids[g]));
      }
    }
    hide ToRatio, VerdictOf, SumRatio, RtSchedulableData.Ratio, Setting.GlobalRatio, Sound, Starves;
    forall g | g in kids && SumRatio(d, kids[g]) < ULONG_RANGE
      ensures VerdictOf(d.setting, d.Period(g), d.Runtime(g), SumRatio(d, kids[g]), d.params[g].hasRtTasks) == 0 <==>
              Sound(d, g) && !Starves(d, g) && SumRatio(d, kids[g]) <= d.Ratio(g) <= d.setting.GlobalRatio()
    {
      VerdictMeans(d, g, SumRatio(d, kids[g]));
    }
  }

  /** With one group replaced by one of at most the full ratio, no sum of a tree that holds comes near to wrapping. */
  lemma SumBelow(d: RtSchedulableData, kids: Kids, g: TaskGroup)
    requires Within(d, kids) && g in kids && Distinct(kids[g])
    requires KidsHeld(Standing(d.params, d.setting, d.root), kids)
    requires d.tg != null ==> d.tg in kids && d.Ratio(d.tg) <= FULL
    ensures SumRatio(d, kids[g]) < ULONG_RANGE
  {
    var plain := Standing(d.params, d.setting, d.root);
    forall k | k in d.params && k != d.tg ensures d.Ratio(k) == plain.Ratio(k) {
      hide ToRatio;
    }
    hide ToRatio, RtSchedulableData.Ratio, SumRatio;
    OneMore(d, plain, kids[g]);
  }

  datatype State = State(setting: Setting, root: TaskGroup, params: map<TaskGroup, Params>, kids: Kids)
  {
    function Plain(): RtSchedulableData {
      Standing(params, setting, root)
    }

    ghost predicate Valid() {
      kids.Keys == params.Keys && Shaped(kids, root)
    }
  }

  /** The call of `sched_rt_handler` in progress, which remembers the setting before its write. */
  datatype Handler =
    | Idle
    | Wrote(old_: Setting)     // the new setting is there for all to read, and not checked yet
    | Refused(old_: Setting)   // the check failed, and the old setting is not back yet

  /**
   The tree and the live setting, and the handler. `stray` is a history: the groups set since the
   settled setting was last checked against all groups, by requests that read another one.
   */
  datatype Machine = Machine(s: State, handler: Handler, stray: set<TaskGroup>)
  {
    /** The setting that stands unless the write in progress is accepted. */
    function Settled(): Setting {
      if handler.Idle? then s.setting else handler.old_
    }

    /** The tree under the settled setting. */
    function Plain(): RtSchedulableData {
      Standing(s.params, Settled(), s.root)
    }
  }

  datatype Operation =
    | Create(parent: TaskGroup, tg: TaskGroup, period: nat)            // sched_create_group()
    | Destroy(parent: TaskGroup, tg: TaskGroup)                        // sched_destroy_group()
    | RtTasks(tg: TaskGroup, any: bool)                                // RT tasks come and go
    | Request(tg: TaskGroup, period: nat, runtime: nat, seen: map<TaskGroup, Setting>) // tg_set_bandwidth()
    | Write(next: Setting)                                             // sched_rt_handler() sets the sysctls,
    | Check                                                            // looks at the tree under them,
    | Restore                                                          // and puts the old ones back

  ghost predicate Enabled(m: Machine, e: Operation) {
    var s := m.s;
    match e
    case Create(parent, tg, period) => parent in s.kids && tg !in s.kids
    case Destroy(parent, tg) =>
      parent in s.kids && tg in s.kids && tg != parent && tg in s.kids[parent] && s.kids[tg] == []
    case RtTasks(tg, any) => tg in s.kids
    case Request(tg, period, runtime, seen) =>
      tg in s.kids && s.kids.Keys <= seen.Keys && forall g | g in s.kids :: seen[g].userSched == s.setting.userSched
    case Write(next) => m.handler.Idle? && next.userSched == s.setting.userSched
    case Check => m.handler.Wrote?
    case Restore => m.handler.Refused?
  }

  /** Without its one occurrence of `x`. */
  function Remove(s: seq<TaskGroup>, x: TaskGroup): seq<TaskGroup> {
    if s == [] then [] else if s[0] == x then s[1..] else [s[0]] + Remove(s[1..], x)
  }

  /** The tree after a request, whose walk read the settings `seen`. */
  ghost function AfterRequest(s: State, tg: TaskGroup, period: nat, runtime: nat, seen: map<TaskGroup, Setting>): State
    requires s.Valid() && tg in s.kids && s.kids.Keys <= seen.Keys
  {
    var d := RtSchedulableData(tg, period, runtime, seen[s.root], s.root, s.params);
    if Accepted(d, s.kids, seen) then s.(params := Written(d)) else s
  }

  /** `sched_rt_global_constraints` accepts the live setting. */
  ghost predicate Passes(s: State)
    requires s.Valid()
  {
    ValidSetting(s.setting) && Accepted(s.Plain(), s.kids, Everywhere(s.kids.Keys, s.setting))
  }

  /** The groups that a request leaves stray. */
  ghost function StrayAfter(m: Machine, e: Operation): set<TaskGroup>
    requires m.s.Valid() && Enabled(m, e) && e.Request?
  {
    var d := RtSchedulableData(e.tg, e.period, e.runtime, e.seen[m.s.root], m.s.root, m.s.params);
    if !Accepted(d, m.s.kids, e.seen) then m.stray
    else if forall g | g in m.s.kids :: e.seen[g] == m.Settled() then {}
    else m.stray + {e.tg}
  }

  ghost function Step(m: Machine, e: Operation): Machine
    requires m.s.Valid() && Enabled(m, e)
  {
    var s := m.s;
    match e
    case Create(parent, tg, period) =>
      m.(s := s.(params := s.params[tg := Params(period, 0, false)],
                 kids := s.kids[parent := [tg] + s.kids[parent]][tg := []]))
    case Destroy(parent, tg) =>
      m.(s := s.(params := s.params - {tg}, kids := s.kids[parent := Remove(s.kids[parent], tg)] - {tg}))
    case RtTasks(tg, any) => m.(s := s.(params := s.params[tg := s.params[tg].(hasRtTasks := any)]))
    case Request(tg, period, runtime, seen) =>
      m.(s := AfterRequest(s, tg, period, runtime, seen), stray := StrayAfter(m, e))
    case Write(next) => m.(s := s.(setting := next), handler := Wrote(s.setting))
    case Check => if Passes(s) then m.(handler := Idle, stray := {}) else m.(handler := Refused(m.handler.old_))
    case Restore => m.(s := s.(setting := m.handler.old_), handler := Idle)
  }

  /** All groups but the stray ones were checked against the settled setting. */
  ghost predicate Fitting(m: Machine)
    requires m.s.Valid()
  {
    && (forall g | g in m.s.kids && g !in m.stray :: m.Plain().Ratio(g) <= m.Settled().GlobalRatio())
    && (m.stray == {} && m.s.setting.userSched ==>
          SumRatio(m.Plain(), m.s.kids[m.s.root]) <= m.Settled().GlobalRatio())
  }

  /** What every operation keeps, whatever the others are at. */
  ghost predicate Inv(m: Machine) {
    && m.s.Valid() && m.Settled().userSched == m.s.setting.userSched
    && ValidSetting(m.Settled()) && KidsHeld(m.Plain(), m.s.kids) && Fitting(m)
  }

  lemma {:induction false} RemoveFacts(s: seq<TaskGroup>, x: TaskGroup)
    requires Distinct(s)
    ensures Distinct(Remove(s, x)) && x !in Remove(s, x)
    ensures forall g | g in Remove(s, x) :: g in s
  {
    if s != [] && s[0] != x {
      assert Distinct(s[1..]) && s[0] !in s[1..];
      RemoveFacts(s[1..], x);
      var rest := Remove(s[1..], x);
      assert forall k | 0 <= k < |rest| :: rest[k] in s[1..];
    }
  }

  /** Taking a group out of a list does not add to its sum. */
  lemma {:induction false} RemoveSum(d: RtSchedulableData, s: seq<TaskGroup>, x: TaskGroup)
    requires forall g | g in s :: g in d.params
    ensures (forall g | g in Remove(s, x) :: g in d.params) && SumRatio(d, Remove(s, x)) <= SumRatio(d, s)
  {
    hide ToRatio;
    if s != [] && s[0] != x {
      RemoveSum(d, s[1..], x);
      assert Remove(s, x)[1..] == Remove(s[1..], x);
    }
  }

  /** A group without runtime has the ratio zero. */
  lemma NoRuntimeNoRatio(period: nat)
    ensures ToRatio(period, 0) == 0
  {
    if period > 0 {
      QuotientIs(0, period, 0);
    }
  }

  /** A setting passes if and only if it is sound itself and all groups are, none starves, and the tree is covered. */
  lemma PassesIff(s: State)
    requires Holds(s)
    ensures Passes(s) <==>
            && s.setting.sysctlPeriod > 0
            && (s.setting.sysctlRuntime < 0 || s.setting.sysctlRuntime <= s.setting.sysctlPeriod
                || s.setting.GlobalRuntime() == RUNTIME_INF)
            && IsCovered(s) && forall g | g in s.kids :: Sound(s.Plain(), g) && !Starves(s.Plain(), g)
  {
    assert forall g | g in s.kids :: Distinct(s.kids[g]);
    AcceptedIff(s.Plain(), s.kids);
    hide Accepted, KidsCovered, KidsHeld, Shaped, Sound, Starves, Distinct;
  }

  lemma StepKeepsValid(m: Machine, e: Operation)
    requires m.s.Valid() && Enabled(m, e)
    ensures Step(m, e).s.Valid()
  {
    if e.Destroy? {
      RemoveFacts(m.s.kids[e.parent], e.tg);
    } else if e.Create? {
      assert e.tg !in m.s.kids[e.parent];
    }
    hide Accepted, Passes;
  }

  /** A new group asks for nothing. */
  lemma CreatedRatios(m: Machine, e: Operation)
    requires m.s.Valid() && Enabled(m, e) && e.Create?
    ensures Step(m, e).Plain().Ratio(e.tg) == 0
    ensures forall g | g in m.s.kids :: Step(m, e).Plain().Ratio(g) == m.Plain().Ratio(g)
  {
    NoRuntimeNoRatio(e.period);
    assert e.tg != m.s.root;
    hide ToRatio;
  }

  /** Groups that stay have their ratio and at most their sum, and new ones have and cover nothing. */
  ghost predicate Eased(m: Machine, t: Machine)
    requires m.s.Valid() && t.s.Valid()
  {
    && t.handler == m.handler && t.stray == m.stray && t.s.setting == m.s.setting && t.s.root == m.s.root
    && forall g | g in t.s.kids ::
         if g in m.s.kids then
           t.Plain().Ratio(g) == m.Plain().Ratio(g)
           && SumRatio(t.Plain(), t.s.kids[g]) <= SumRatio(m.Plain(), m.s.kids[g])
         else t.Plain().Ratio(g) == 0 && SumRatio(t.Plain(), t.s.kids[g]) == 0
  }

  lemma EasedKeepsInv(m: Machine, t: Machine)
    requires Inv(m) && t.s.Valid() && Eased(m, t)
    ensures Inv(t)
  {
    hide RtSchedulableData.Ratio, SumRatio, Setting.GlobalRatio, ValidSetting, Distinct;
  }

  lemma CreateEases(m: Machine, e: Operation)
    requires m.s.Valid() && Enabled(m, e) && e.Create?
    ensures Step(m, e).s.Valid() && Eased(m, Step(m, e))
  {
    hide ToRatio, RtSchedulableData.Ratio, Distinct;
    StepKeepsValid(m, e);
    CreatedRatios(m, e);
    var t := Step(m, e);
    var d, r := m.Plain(), t.Plain();
    assert SumRatio(r, t.s.kids[e.tg]) == 0;
    forall g | g in m.s.kids ensures SumRatio(r, t.s.kids[g]) == SumRatio(d, m.s.kids[g]) {
      SameSum(d, r, m.s.kids[g]);
      if g == e.parent {
        assert ([e.tg] + m.s.kids[g])[1..] == m.s.kids[g];
      }
    }
    hide SumRatio, Shaped;
  }

  /** A group that is gone frees its ratio. */
  lemma DestroyEases(m: Machine, e: Operation)
    requires m.s.Valid() && Enabled(m, e) && e.Destroy?
    ensures Step(m, e).s.Valid() && Eased(m, Step(m, e))
  {
    StepKeepsValid(m, e);
    var t := Step(m, e);
    var d, r := m.Plain(), t.Plain();
    assert forall g | g in t.s.kids :: r.Ratio(g) == d.Ratio(g);
    hide ToRatio, RtSchedulableData.Ratio;
    forall g | g in t.s.kids ensures SumRatio(r, t.s.kids[g]) <= SumRatio(d, m.s.kids[g]) {
      if g == e.parent {
        RemoveSum(d, m.s.kids[g], e.tg);
      }
      SameSum(r, d, t.s.kids[g]);
    }
    hide SumRatio, Remove, Shaped;
  }

  lemma TasksEase(m: Machine, e: Operation)
    requires m.s.Valid() && Enabled(m, e) && e.RtTasks?
    ensures Step(m, e).s.Valid() && Eased(m, Step(m, e))
  {
    var d, r := m.Plain(), Step(m, e).Plain();
    assert forall g | g in m.s.kids :: r.Ratio(g) == d.Ratio(g);
    hide ToRatio, RtSchedulableData.Ratio, Shaped;
    forall g | g in m.s.kids ensures SumRatio(r, m.s.kids[g]) == SumRatio(d, m.s.kids[g]) {
      SameSum(d, r, m.s.kids[g]);
    }
    hide SumRatio;
  }

  lemma RequestKeepsInv(m: Machine, e: Operation)
    requires Inv(m) && Enabled(m, e) && e.Request?
    ensures Inv(Step(m, e))
  {
    StepKeepsValid(m, e);
    hide ToRatio, RtSchedulableData.Ratio, SumRatio, ValidSetting, Accepted, Setting.GlobalRatio;
    var d := RtSchedulableData(e.tg, e.period, e.runtime, e.seen[m.s.root], m.s.root, m.s.params);
    if Accepted(d, m.s.kids, e.seen) {
      RequestKeepsHeld(d, m.s.kids, e.seen, m.Settled());
      hide KidsHeld, Shaped, Written, Distinct;
    }
  }

  lemma CheckKeepsInv(m: Machine, e: Operation)
    requires Inv(m) && Enabled(m, e) && e.Check?
    ensures Inv(Step(m, e))
  {
    OtherSetting(m.s.params, m.Settled(), m.s.setting, m.s.root, m.s.kids);
    hide ToRatio, RtSchedulableData.Ratio, SumRatio, ValidSetting, Accepted, Shaped, Setting.GlobalRatio;
    if Passes(m.s) {
      CheckCovers(m.s.params, m.s.setting, m.s.root, m.s.kids);
    }
  }

  lemma StepKeepsInv(m: Machine, e: Operation)
    requires Inv(m) && Enabled(m, e)
    ensures Inv(Step(m, e))
  {
    StepKeepsValid(m, e);
    match e
    case Create(_, _, _) => CreateEases(m, e); EasedKeepsInv(m, Step(m, e));
    case Destroy(_, _) => DestroyEases(m, e); EasedKeepsInv(m, Step(m, e));
    case RtTasks(_, _) => TasksEase(m, e); EasedKeepsInv(m, Step(m, e));
    case Request(_, _, _, _) => RequestKeepsInv(m, e);
    case Check => CheckKeepsInv(m, e);
    case Write(_) => assert Step(m, e).Plain() == m.Plain(); hide KidsHeld, ValidSetting;
    case Restore => assert Step(m, e).Plain() == m.Plain(); hide KidsHeld, ValidSetting;
  }

  ghost predicate Holds(s: State) {
    s.Valid() && KidsHeld(s.Plain(), s.kids)
  }

  ghost predicate IsCovered(s: State) {
    s.Valid() && KidsCovered(s.Plain(), s.kids)
  }

  /**
   `t` is what a request makes of `s` if the setting stays; a tree that holds still does, and is
   covered if the request is accepted or it was before.
   */
  ghost predicate Requested(s: State, tg: TaskGroup, period: nat, runtime: nat, ok: bool, t: State) {
    && s.Valid() && tg in s.kids
    && t == AfterRequest(s, tg, period, runtime, Everywhere(s.kids.Keys, s.setting))
    && (Holds(s) ==> Holds(t) && (ok ==> IsCovered(t)))
    && (IsCovered(s) ==> IsCovered(t))
  }

  /** `t` is what a write of `next` makes of `s`, in the steps of the handler, with nothing else in between. */
  ghost predicate Handled(s: State, next: Setting, ok: bool, t: State) {
    var m := Machine(s, Idle, {});
    var events := [Write(next), Check] + if ok then [] else [Restore];
    s.Valid() && Runs(m, events) && Exec(m, events) == Machine(t, Idle, {})
  }

  ghost predicate Runs(m: Machine, events: seq<Operation>)
    requires m.s.Valid()
    decreases |events|
  {
    events != [] ==>
      Enabled(m, events[0]) && Step(m, events[0]).s.Valid() && Runs(Step(m, events[0]), events[1..])
  }

  ghost function Exec(m: Machine, events: seq<Operation>): Machine
    requires m.s.Valid() && Runs(m, events)
    decreases |events|
  {
    if events == [] then m else Exec(Step(m, events[0]), events[1..])
  }

  lemma RequestIsStep(s: State, tg: TaskGroup, period: nat, runtime: nat)
    requires s.Valid() && tg in s.kids
    ensures var seen := Everywhere(s.kids.Keys, s.setting);
            var d := RtSchedulableData(tg, period, runtime, s.setting, s.root, s.params);
            Requested(s, tg, period, runtime, Accepted(d, s.kids, seen), AfterRequest(s, tg, period, runtime, seen))
  {
    hide ToRatio, RtSchedulableData.Ratio, SumRatio, Setting.GlobalRatio, Accepted;
    var seen := Everywhere(s.kids.Keys, s.setting);
    var d := RtSchedulableData(tg, period, runtime, s.setting, s.root, s.params);
    assert IsCovered(s) ==> Holds(s);
    assert AfterRequest(s, tg, period, runtime, seen).Valid();
    if Accepted(d, s.kids, seen) && Holds(s) {
      RequestKeepsHeld(d, s.kids, seen, s.setting);
      hide KidsHeld, KidsCovered;
    }
  }

  lemma HandlerSteps(s: State, next: Setting)
    requires s.Valid() && next.userSched == s.setting.userSched
    ensures var t := s.(setting := next);
            t.Valid() && Handled(s, next, Passes(t), if Passes(t) then t else s)
  {
    var t := s.(setting := next);
    hide Shaped, Passes;
    var m := Machine(s, Idle, {});
    var events := [Write(next), Check] + if Passes(t) then [] else [Restore];
    var m1 := Machine(t, Wrote(s.setting), {});
    assert Step(m, Write(next)) == m1;
    assert events[1..] == [Check] + if Passes(t) then [] else [Restore];
    if Passes(t) {
      var m2 := Machine(t, Idle, {});
      assert Step(m1, Check) == m2 && [Check][1..] == [] && events[1..] == [Check];
      hide Step;
      assert Runs(m2, []) && Exec(m2, []) == m2;
      assert Runs(m1, [Check]) && Exec(m1, [Check]) == m2;
    } else {
      var m2 := Machine(t, Refused(s.setting), {});
      assert Step(m1, Check) == m2 && Step(m2, Restore) == m;
      assert events[1..] == [Check, Restore] && [Check, Restore][1..] == [Restore] && [Restore][1..] == [];
      hide Step;
      assert Runs(m, []) && Exec(m, []) == m;
      assert Runs(m2, [Restore]) && Exec(m2, [Restore]) == m;
      assert Runs(m1, [Check, Restore]) && Exec(m1, [Check, Restore]) == m;
    }
  }

  /** The tree at boot: the root alone or, with one group per user, the root and the initial group below it. */
  predicate Booted(m: Machine, init: TaskGroup) {
    var s := m.s;
    && m.handler.Idle? && m.stray == {}
    && ValidSetting(s.setting) && (s.setting.userSched <==> init != s.root)
    && s.params.Keys == {s.root, init}
    && s.params[init].period == s.setting.GlobalPeriod() && s.params[init].runtime == s.setting.GlobalRuntime()
    && s.kids == if init == s.root then map[s.root := []] else map[s.root := [init], init := []]
  }

  lemma BootIsCovered(m: Machine, init: TaskGroup)
    requires Booted(m, init)
    ensures Inv(m) && KidsCovered(m.Plain(), m.s.kids)
  {
    var d := m.Plain();
    ValidSettingIsFull(m.s.setting);
    hide ToRatio;
    assert SumRatio(d, []) == 0 && [init][1..] == [] && SumRatio(d, [init]) == d.Ratio(init);
    assert d.Ratio(init) == d.Ratio(m.s.root) == m.s.setting.GlobalRatio();
  }

  /**
   From boot on, through any interleaving of groups created and destroyed, of requests and of the
   handler's steps, accepted or not: no group takes more than the whole time, nor its children
   more than the group (those of the root of groups per user: than the whole time).
   */
  lemma {:induction false} EveryRunHolds(m: Machine, events: seq<Operation>)
    requires Inv(m) && Runs(m, events)
    ensures Inv(Exec(m, events))
    decreases |events|
  {
    hide Enabled, Step, KidsHeld;
    if events != [] {
      StepKeepsInv(m, events[0]);
      EveryRunHolds(Step(m, events[0]), events[1..]);
    }
  }

  /** The groups still there that a request set while its walk read another setting fit the settled one. */
  ghost predicate StraysFit(m: Machine)
    requires m.s.Valid()
  {
    forall g | g in m.stray && g in m.s.kids :: m.Plain().Ratio(g) <= m.Settled().GlobalRatio()
  }

  /**
   When a reachable tree is covered under the settled setting, in particular once a refused one is
   restored: exactly when the stray groups fit it and, with groups per user, so do the children of
   the root together. Without strays it always is.
   */
  lemma CoveredIffStraysFit(m: Machine)
    requires Inv(m)
    ensures KidsCovered(m.Plain(), m.s.kids) <==>
            && StraysFit(m)
            && (m.s.setting.userSched ==>
                  SumRatio(m.Plain(), m.s.kids[m.s.root]) <= m.Settled().GlobalRatio())
    ensures m.stray == {} ==> KidsCovered(m.Plain(), m.s.kids)
  {
    ValidSettingIsFull(m.Settled());
    assert m.s.setting.userSched ==> m.Plain().Ratio(m.s.root) == m.Settled().GlobalRatio();
    hide ToRatio, RtSchedulableData.Ratio, SumRatio, ValidSetting, Setting.GlobalRatio;
  }

  /** A request whose walk reads the settled setting throughout leaves no strays. */
  lemma SettledRequestCovers(m: Machine, e: Operation)
    requires Inv(m) && Enabled(m, e) && e.Request? && forall g | g in m.s.kids :: e.seen[g] == m.Settled()
    ensures Step(m, e) == m || KidsCovered(Step(m, e).Plain(), m.s.kids)
  {
    hide KidsCovered, KidsHeld, Fitting, Accepted, Shaped;
    RequestKeepsInv(m, e);
    CoveredIffStraysFit(Step(m, e));
  }

  const DEFAULT := Setting(1_000_000, 950_000, false)
  const SECOND := 1_000_000_000

  lemma RatiosAroundDefault()
    ensures ToRatio(SECOND, SECOND) == FULL && DEFAULT.GlobalRatio() < FULL
    ensures DEFAULT.(sysctlRuntime := 2_000_000).GlobalRatio() == 2 * FULL
  {
    QuotientIs(SECOND * FULL, SECOND, FULL);
    QuotientIs(950_000_000 * FULL, SECOND, 996_147);
    QuotientIs(2 * SECOND * FULL, SECOND, 2 * FULL);
  }

  /**
   A setting of 200 percent is going to be refused, but a request for 100 percent that comes before
   the old one is back is checked against it, and stays.
   */
  lemma {:induction false} RefusedSettingAdmits(m: Machine)
    requires Booted(m, m.s.root) && m.s.setting == DEFAULT
    ensures var high := DEFAULT.(sysctlRuntime := 2_000_000);
            var events := [Write(high), Request(m.s.root, SECOND, SECOND, map[m.s.root := high]), Check, Restore];
            && m.s.Valid() && Runs(m, events) && Exec(m, events).handler.Idle? && Exec(m, events).s.setting == DEFAULT
            && Exec(m, events).s.Valid() && !KidsCovered(Exec(m, events).Plain(), Exec(m, events).s.kids)
  {
    var high := DEFAULT.(sysctlRuntime := 2_000_000);
    var root := m.s.root;
    var seen := map[root := high];
    RatiosAroundDefault();
    BootIsCovered(m, root);
    var m1 := Step(m, Write(high));
    var d := RtSchedulableData(root, SECOND, SECOND, high, root, m.s.params);
    assert SumRatio(d, []) == 0;
    hide ToRatio;
    assert Accepted(d, m.s.kids, seen);
    var m2 := Step(m1, Request(root, SECOND, SECOND, seen));
    assert m2 == m1.(s := m1.s.(params := Written(d)), stray := {root});
    assert m2.s.params[root].period == SECOND && m2.s.params[root].runtime == SECOND;
    var m3 := Step(m2, Check);
    assert m3 == m2.(handler := Refused(DEFAULT));
    var m4 := Step(m3, Restore);
    assert m4.Plain().Ratio(root) == FULL;
    var e1, e2 := Write(high), Request(root, SECOND, SECOND, seen);
    assert [e1, e2, Check, Restore][1..] == [e2, Check, Restore];
    assert [e2, Check, Restore][1..] == [Check, Restore] && [Check, Restore][1..] == [Restore] && [Restore][1..] == [];
    hide Step;
    assert Runs(m4, []) && Exec(m4, []) == m4;
    assert Runs(m3, [Restore]) && Exec(m3, [Restore]) == m4;
    assert Runs(m2, [Check, Restore]) && Exec(m2, [Check, Restore]) == m4;
    assert Runs(m1, [e2, Check, Restore]) && Exec(m1, [e2, Check, Restore]) == m4;
  }

  /** A check against the settled setting never divides by zero; against a period of zero just written it does. */
  lemma ZeroPeriodDivides(m: Machine, period: nat, runtime: nat, hasRtTasks: bool)
    requires Inv(m) && m.handler.Idle? && period > 0
    requires 0 < runtime && (runtime <= period || runtime == RUNTIME_INF)
    ensures !DividesByZero(m.s.setting, period, runtime, hasRtTasks)
    ensures var e := Write(m.s.setting.(sysctlPeriod := 0));
            Enabled(m, e) && (DividesByZero(Step(m, e).s.setting, period, runtime, hasRtTasks)
                              <==> m.s.setting.sysctlRuntime >= 0)
  {
    hide KidsHeld, Fitting, State.Valid;
  }
}
