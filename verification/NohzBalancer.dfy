/**
 Ownership of the idle load balancer, `nohz.load_balancer`: `select_nohz_load_balancer` and the busy
 tick of `trigger_load_balance` at the granularity of their atomic operations, on any number of
 CPUs. Both run with interrupts off, so a CPU is at one point of one of them at a time.
 */
module NohzBalancer {

  type Cpu = nat

  /** The next atomic operation of a CPU; each comment shows it. */
  datatype Pc =
    | Elsewhere
    | StopTick                 // in_nohz_recently = 1; cpu_active(cpu)?
    | Inactive                 // atomic_read() != cpu?
    | Resign                   // atomic_cmpxchg(cpu, -1), or BUG()
    | SetMask                  // cpumask_set_cpu(cpu, nohz.cpu_mask)
    | Weigh                    // cpumask_weight(nohz.cpu_mask) == num_online_cpus()?
    | AllIdle                  // atomic_read() == cpu?
    | Sleep                    // atomic_set(-1)
    | Vacant                   // atomic_read() == -1?
    | Claim                    // atomic_cmpxchg(-1, cpu) == -1?
    | Mine                     // atomic_read() == cpu?
    | Stay                     // power savings, and a better owner?
    | HandOver                 // atomic_set(-1)
    | StartTick                // cpumask_test_cpu(cpu, nohz.cpu_mask)?
    | ClearMask                // cpumask_clear_cpu(cpu, nohz.cpu_mask)
    | Busy                     // atomic_read() == cpu?
    | Retire                   // atomic_cmpxchg(cpu, -1), or BUG()
    | Tick                     // in_nohz_recently && !idle_at_tick?
    | TickOwner                // atomic_read() == cpu?
    | TickClearMask            // cpumask_clear_cpu(cpu, nohz.cpu_mask)
    | TickRelease              // atomic_set(-1)

  /** A return of `select_nohz_load_balancer`, with the owner at that moment. */
  datatype Return = Return(cpu: Cpu, stopTick: bool, value: int, owner: int)

  datatype State = State(
    owner: int,                // nohz.load_balancer, -1 when there is none
    mask: set<Cpu>,            // nohz.cpu_mask
    recently: set<Cpu>,        // rq->in_nohz_recently
    pc: map<Cpu, Pc>, log: seq<Return>, bug: bool)

  /** What a step depends on besides the shared state. */
  datatype Input =
    | CallSelect(stop: bool)
    | CallTrigger
    | Go(active: bool, online: nat, idleAtTick: bool, powerSavings: bool, better: bool)

  predicate Enabled(s: State, c: Cpu, i: Input) {
    c in s.pc && (s.pc[c].Elsewhere? <==> !i.Go?)
  }

  /** What a step of one CPU reads and writes: the shared state, and where that CPU is or how it returned. */
  datatype View = View(owner: int, mask: set<Cpu>, recently: set<Cpu>, pc: Pc, result: Result, bug: bool)

  datatype Result = NotYet | Returned(stopTick: bool, value: int)

  function Leave(v: View, stopTick: bool, value: int): View {
    v.(pc := Elsewhere, result := Returned(stopTick, value))
  }

  function Advance(v: View, c: Cpu, i: Input): View
    requires v.pc.Elsewhere? <==> !i.Go?
  {
    match v.pc
    case Elsewhere => v.(pc := if i.CallTrigger? then Tick else if i.stop then StopTick else StartTick)

    case StopTick => v.(pc := if i.active then SetMask else Inactive, recently := v.recently + {c})
    case Inactive => if v.owner != c then Leave(v, true, 0) else v.(pc := Resign)
    case Resign => if v.owner != c then v.(bug := true) else Leave(v.(owner := -1), true, 0)
    case SetMask => v.(pc := Weigh, mask := v.mask + {c})
    case Weigh => v.(pc := if |v.mask| == i.online then AllIdle else Vacant)
    case AllIdle => if v.owner == c then v.(pc := Sleep) else Leave(v, true, 0)
    case Sleep => Leave(v.(owner := -1), true, 0)
    case Vacant => v.(pc := if v.owner == -1 then Claim else Mine)
    case Claim => if v.owner == -1 then Leave(v.(owner := c), true, 1) else Leave(v, true, 0)
    case Mine => if v.owner == c then v.(pc := Stay) else Leave(v, true, 0)
    case Stay => if i.powerSavings && i.better then v.(pc := HandOver) else Leave(v, true, 1)
    case HandOver => Leave(v.(owner := -1), true, 0)

    case StartTick => if c !in v.mask then Leave(v, false, 0) else v.(pc := ClearMask)
    case ClearMask => v.(pc := Busy, mask := v.mask - {c})
    case Busy => if v.owner == c then v.(pc := Retire) else Leave(v, false, 0)
    case Retire => if v.owner != c then v.(bug := true) else Leave(v.(owner := -1), false, 0)

    case Tick =>
      if c in v.recently && !i.idleAtTick then v.(pc := TickOwner, recently := v.recently - {c})
      else v.(pc := Elsewhere)
    case TickOwner => v.(pc := if v.owner == c then TickClearMask else Elsewhere)
    case TickClearMask => v.(pc := TickRelease, mask := v.mask - {c})
    case TickRelease => v.(owner := -1, pc := Elsewhere)
  }

  function ViewOf(s: State, c: Cpu): View
    requires c in s.pc
  {
    View(s.owner, s.mask, s.recently, s.pc[c], NotYet, s.bug)
  }

  function Step(s: State, c: Cpu, i: Input): State
    requires Enabled(s, c, i)
  {
    var v := Advance(ViewOf(s, c), c, i);
    State(v.owner, v.mask, v.recently, s.pc[c := v.pc],
          if v.result.NotYet? then s.log else s.log + [Return(c, v.result.stopTick, v.result.value, v.owner)], v.bug)
  }

  /** Points where the CPU has found itself to be the owner. */
  predicate Owning(pc: Pc) {
    pc.Resign? || pc.Sleep? || pc.Stay? || pc.HandOver? || pc.Retire? || pc.TickClearMask? || pc.TickRelease?
  }

  /** Points where the CPU has left the mask but not yet looked at the ownership, or not yet dropped it. */
  predicate Unmasked(pc: Pc) {
    pc.Busy? || pc.Retire? || pc.TickRelease?
  }

  /** Points between entering the mask and leaving the function. */
  predicate Masked(pc: Pc) {
    pc.Weigh? || pc.AllIdle? || pc.Sleep? || pc.Vacant? || pc.Claim? || pc.Mine? || pc.Stay? || pc.HandOver?
  }

  /** A CPU that has found itself to be the owner still is; the owner is in the mask until it is about to resign. */
  ghost predicate Owned(s: State) {
    && !s.bug && -1 <= s.owner
    && (forall c | c in s.pc && Owning(s.pc[c]) :: s.owner == c)
    && (forall c | c in s.pc && s.pc[c].Claim? :: s.owner != c)
    && (s.owner >= 0 ==> s.owner in s.pc && (s.owner in s.mask || Unmasked(s.pc[s.owner])))
    && (forall c | c in s.pc && Masked(s.pc[c]) :: c in s.mask)
  }

  predicate Honest(r: Return) {
    r.value in {0, 1} && (r.value == 1 <==> r.owner == r.cpu) && (r.value == 1 ==> r.stopTick)
  }

  ghost predicate Inv(s: State) {
    Owned(s) && forall r | r in s.log :: Honest(r)
  }

  /** `Owned`, as far as CPU `c` is concerned. */
  ghost predicate OwnedBy(v: View, c: Cpu) {
    && !v.bug && -1 <= v.owner
    && (Owning(v.pc) ==> v.owner == c) && (v.pc.Claim? ==> v.owner != c)
    && (v.owner == c ==> c in v.mask || Unmasked(v.pc))
    && (Masked(v.pc) ==> c in v.mask)
  }

  /** A step takes the ownership from nobody else and touches only its own bit of the mask. */
  lemma AdvanceIsLocal(v: View, c: Cpu, i: Input)
    requires OwnedBy(v, c) && (v.pc.Elsewhere? <==> !i.Go?)
    ensures var w := Advance(v, c, i);
            && (forall d | d != c :: d in w.mask <==> d in v.mask)
            && (w.owner == v.owner || (w.owner == -1 && v.owner == c) || (w.owner == c && v.owner == -1))
  {
    hide Masked, Unmasked;
  }

  lemma AdvanceKeepsOwned(v: View, c: Cpu, i: Input)
    requires OwnedBy(v, c) && (v.pc.Elsewhere? <==> !i.Go?)
    ensures OwnedBy(Advance(v, c, i), c)
  {
  }

  /** A return is 1 exactly when the CPU owns the balancing then. */
  lemma AdvanceIsHonest(v: View, c: Cpu, i: Input)
    requires OwnedBy(v, c) && v.result.NotYet? && (v.pc.Elsewhere? <==> !i.Go?)
    ensures var w := Advance(v, c, i);
            w.result.Returned? ==> w.pc.Elsewhere? && Honest(Return(c, w.result.stopTick, w.result.value, w.owner))
  {
    hide Masked;
  }

  lemma OwnView(s: State, c: Cpu)
    requires Owned(s) && c in s.pc
    ensures OwnedBy(ViewOf(s, c), c)
  {
    hide Owning, Masked, Unmasked;
  }

  /** A step moves one CPU, touches only its bit of the mask, and takes the ownership from nobody else. */
  lemma StepIsLocal(s: State, c: Cpu, i: Input)
    requires Owned(s) && Enabled(s, c, i)
    ensures var t := Step(s, c, i);
            && t.pc.Keys == s.pc.Keys && (forall d | d in s.pc && d != c :: t.pc[d] == s.pc[d])
            && (forall d | d != c :: d in t.mask <==> d in s.mask)
            && (t.owner == s.owner || (t.owner == -1 && s.owner == c) || (t.owner == c && s.owner == -1))
  {
    hide Advance, OwnedBy, Owned;
    OwnView(s, c);
    AdvanceIsLocal(ViewOf(s, c), c, i);
  }

  lemma StepKeepsOwned(s: State, c: Cpu, i: Input)
    requires Owned(s) && Enabled(s, c, i)
    ensures Owned(Step(s, c, i))
  {
    hide Advance, Owning, Masked, Unmasked;
    OwnView(s, c);
    AdvanceIsLocal(ViewOf(s, c), c, i);
    AdvanceKeepsOwned(ViewOf(s, c), c, i);
  }

  lemma StepKeepsInv(s: State, c: Cpu, i: Input)
    requires Inv(s) && Enabled(s, c, i)
    ensures Inv(Step(s, c, i))
  {
    hide Advance, Owned, OwnedBy, Honest;
    StepKeepsOwned(s, c, i);
    OwnView(s, c);
    AdvanceIsHonest(ViewOf(s, c), c, i);
  }

  /** Whoever owns the balancing goes on owning it through every step of any other CPU. */
  lemma OnlyTheOwnerReleases(s: State, c: Cpu, i: Input)
    requires Inv(s) && Enabled(s, c, i) && s.owner >= 0 && c != s.owner
    ensures Step(s, c, i).owner == s.owner
  {
    StepIsLocal(s, c, i);
  }

  ghost predicate Runs(s: State, steps: seq<(Cpu, Input)>)
    decreases |steps|
  {
    steps != [] ==> Enabled(s, steps[0].0, steps[0].1) && Runs(Step(s, steps[0].0, steps[0].1), steps[1..])
  }

  ghost function Exec(s: State, steps: seq<(Cpu, Input)>): State
    requires Runs(s, steps)
    decreases |steps|
  {
    if steps == [] then s else Exec(Step(s, steps[0].0, steps[0].1), steps[1..])
  }

  ghost predicate Initial(s: State) {
    s.owner == -1 && !s.bug && s.log == [] && forall c | c in s.pc :: s.pc[c].Elsewhere?
  }

  lemma {:induction false} RunKeepsInv(s: State, steps: seq<(Cpu, Input)>)
    requires Inv(s) && Runs(s, steps)
    ensures Inv(Exec(s, steps))
    decreases |steps|
  {
    if steps != [] {
      StepKeepsInv(s, steps[0].0, steps[0].1);
      RunKeepsInv(Step(s, steps[0].0, steps[0].1), steps[1..]);
    }
  }

  /**
   In every run neither BUG() is reached, and a return, of either kind, is 1 exactly when the CPU
   owns the balancing at that moment; so one that restarts its tick does not own it any more.
   */
  lemma Ownership(s0: State, steps: seq<(Cpu, Input)>)
    requires Initial(s0) && Runs(s0, steps)
    ensures !Exec(s0, steps).bug
    ensures forall r | r in Exec(s0, steps).log ::
              r.value in {0, 1} && (r.value == 1 <==> r.owner == r.cpu) && (!r.stopTick ==> r.value == 0)
  {
    assert Inv(s0);
    RunKeepsInv(s0, steps);
  }

  /** Ownership lasts until the owner itself takes a step. */
  lemma {:induction false} OwnershipLasts(s: State, steps: seq<(Cpu, Input)>)
    requires Inv(s) && Runs(s, steps) && s.owner >= 0
    requires forall k | 0 <= k < |steps| :: steps[k].0 != s.owner
    ensures Exec(s, steps).owner == s.owner
    decreases |steps|
  {
    if steps != [] {
      StepKeepsInv(s, steps[0].0, steps[0].1);
      OnlyTheOwnerReleases(s, steps[0].0, steps[0].1);
      OwnershipLasts(Step(s, steps[0].0, steps[0].1), steps[1..]);
    }
  }

  /** CPU `c` has not returned between `from` and `to`. */
  ghost predicate Silent(log: seq<Return>, from: nat, to: nat, c: Cpu)
    requires to <= |log|
  {
    forall j | from <= j < to :: log[j].cpu != c
  }

  /** Entry `k` is the first return of CPU `c` from `n` on. */
  ghost predicate First(log: seq<Return>, n: nat, k: nat, c: Cpu) {
    n <= k < |log| && log[k].cpu == c && Silent(log, n, k, c)
  }

  /** Some CPU took the ownership between `n` and `k`. */
  ghost predicate Taken(log: seq<Return>, n: nat, k: nat)
    requires k <= |log|
  {
    exists j :: n <= j < k && log[j].value == 1
  }

  lemma {:induction false} LogGrows(s: State, steps: seq<(Cpu, Input)>)
    requires Runs(s, steps)
    ensures s.log <= Exec(s, steps).log
    decreases |steps|
  {
    if steps != [] {
      hide Advance;
      LogGrows(Step(s, steps[0].0, steps[0].1), steps[1..]);
    }
  }

  /** Every return keeps its place. */
  lemma FirstStays(log: seq<Return>, longer: seq<Return>, n: nat, k: nat, c: Cpu)
    requires log <= longer && First(log, n, k, c)
    ensures First(longer, n, k, c) && forall j: nat | First(longer, n, j, c) :: j == k
    ensures Taken(log, n, k) ==> Taken(longer, n, k)
  {
    assert forall j | 0 <= j < |log| :: longer[j] == log[j];
  }

  /** What one step does to a call that has found every tick stopped, or that is about to claim. */
  lemma AdvanceCall(v: View, c: Cpu, i: Input)
    requires OwnedBy(v, c) && v.result.NotYet? && (v.pc.Elsewhere? <==> !i.Go?)
    ensures var w := Advance(v, c, i);
            && (w.owner >= 0 && v.owner == -1 ==> w.result.Returned? && w.result.value == 1)
            && (v.pc.AllIdle? || v.pc.Sleep? ==> if w.result.Returned? then w.result.value == 0 else w.pc.Sleep?)
            && (v.pc.Claim? ==> w.result.Returned? && (w.result.value == 1 <==> v.owner == -1))
  {
    hide Masked, Unmasked;
  }

  lemma CallStep(s: State, c: Cpu, i: Input)
    requires Inv(s) && Enabled(s, c, i)
    ensures var t := Step(s, c, i);
            && s.log <= t.log && |t.log| <= |s.log| + 1
            && (forall k | |s.log| <= k < |t.log| :: t.log[k].cpu == c)
            && (t.owner >= 0 && s.owner == -1 ==> |t.log| > |s.log| && t.log[|s.log|].value == 1)
            && (s.pc[c].AllIdle? || s.pc[c].Sleep? ==>
                  if |t.log| > |s.log| then t.log[|s.log|].value == 0 else t.pc[c].Sleep?)
            && (s.pc[c].Claim? ==> |t.log| > |s.log| && (t.log[|s.log|].value == 1 <==> s.owner == -1))
  {
    hide Advance, Owned, OwnedBy, Honest;
    OwnView(s, c);
    AdvanceCall(ViewOf(s, c), c, i);
  }

  /** A call that has found every tick stopped returns 0, and does not own the balancing then. */
  lemma {:induction false} AllIdleReturnsZero(s: State, steps: seq<(Cpu, Input)>, c: Cpu, n: nat)
    requires Inv(s) && Runs(s, steps) && c in s.pc && (s.pc[c].AllIdle? || s.pc[c].Sleep?)
    requires n <= |s.log| && Silent(s.log, n, |s.log|, c)
    ensures var log := Exec(s, steps).log;
            forall k: nat | First(log, n, k, c) :: log[k].value == 0 && log[k].owner != c
    decreases |steps|
  {
    if steps == [] {
      assert Exec(s, steps) == s;
    } else {
      var (d, i) := steps[0];
      var t := Step(s, d, i);
      assert Exec(s, steps) == Exec(t, steps[1..]);
      CallStep(s, d, i);
      StepIsLocal(s, d, i);
      StepKeepsInv(s, d, i);
      if d == c && |t.log| > |s.log| {
        assert First(t.log, n, |s.log|, c) && Honest(t.log[|s.log|]);
        LogGrows(t, steps[1..]);
        FirstStays(t.log, Exec(t, steps[1..]).log, n, |s.log|, c);
      } else {
        AllIdleReturnsZero(t, steps[1..], c, n);
        var log := Exec(t, steps[1..]).log;
        assert forall k: nat | First(log, n, k, c) :: log[k].value == 0 && log[k].owner != c;
      }
    }
  }

  /** A call that has found no owner returns 1, unless another CPU has taken the ownership in the meantime. */
  lemma {:induction false} VacancyIsFilled(s: State, steps: seq<(Cpu, Input)>, c: Cpu, n: nat)
    requires Inv(s) && Runs(s, steps) && c in s.pc && s.pc[c].Claim?
    requires n <= |s.log| && Silent(s.log, n, |s.log|, c) && (s.owner == -1 || Taken(s.log, n, |s.log|))
    ensures var log := Exec(s, steps).log;
            forall k: nat | First(log, n, k, c) :: log[k].value == 1 || Taken(log, n, k)
    decreases |steps|
  {
    if steps == [] {
      assert Exec(s, steps) == s;
    } else {
      var (d, i) := steps[0];
      var t := Step(s, d, i);
      assert Exec(s, steps) == Exec(t, steps[1..]);
      CallStep(s, d, i);
      StepIsLocal(s, d, i);
      StepKeepsInv(s, d, i);
      if d == c {
        assert First(t.log, n, |s.log|, c);
        assert Taken(s.log, n, |s.log|) ==> Taken(t.log, n, |s.log|);
        LogGrows(t, steps[1..]);
        FirstStays(t.log, Exec(t, steps[1..]).log, n, |s.log|, c);
      } else {
        assert Taken(s.log, n, |s.log|) ==> Taken(t.log, n, |t.log|);
        assert t.owner >= 0 && s.owner == -1 ==> Taken(t.log, n, |t.log|);
        VacancyIsFilled(t, steps[1..], c, n);
      }
    }
  }
}
