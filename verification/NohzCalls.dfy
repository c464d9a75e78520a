/**
 Whole calls of `select_nohz_load_balancer` and of the busy tick, from the ownership and the mask
 they find to what they return and leave.
 */
module NohzCalls {
  import opened NohzBalancer

  /** How many operations at most are left of a call. */
  function Rank(pc: Pc): nat {
    match pc
    case Elsewhere => 0
    case StopTick => 8
    case SetMask => 7
    case Weigh => 6
    case Vacant => 5
    case Inactive | Mine | StartTick | Tick => 4
    case Stay | ClearMask | AllIdle | TickOwner => 3
    case Busy | TickClearMask => 2
    case Claim | Resign | Sleep | HandOver | Retire | TickRelease => 1
  }

  lemma AdvanceDescends(v: View, c: Cpu, i: Input)
    requires OwnedBy(v, c) && i.Go? && !v.pc.Elsewhere?
    ensures Rank(Advance(v, c, i).pc) < Rank(v.pc)
  {
    hide Masked, Unmasked;
  }

  lemma StepDescends(s: State, c: Cpu, i: Input)
    requires Inv(s) && Enabled(s, c, i) && i.Go?
    ensures Inv(Step(s, c, i)) && c in Step(s, c, i).pc && Rank(Step(s, c, i).pc[c]) < Rank(s.pc[c])
  {
    hide Rank, Advance, OwnedBy, Owned, Honest;
    StepKeepsInv(s, c, i);
    OwnView(s, c);
    AdvanceDescends(ViewOf(s, c), c, i);
  }

  /** The rest of a call that no other CPU disturbs and for which the answers to its questions stay the same. */
  ghost function Alone(s: State, c: Cpu, i: Input): State
    requires Inv(s) && c in s.pc && i.Go?
    decreases if c in s.pc then Rank(s.pc[c]) else 0
  {
    if s.pc[c].Elsewhere? then s
    else
      StepDescends(s, c, i);
      Alone(Step(s, c, i), c, i)
  }

  /** A whole undisturbed call. */
  ghost function Call(s: State, c: Cpu, call: Input, i: Input): State
    requires Inv(s) && c in s.pc && s.pc[c].Elsewhere? && !call.Go? && i.Go?
  {
    StepKeepsInv(s, c, call);
    Alone(Step(s, c, call), c, i)
  }

  /** The owner once CPU `c` has given up what it owned. */
  function Without(owner: int, c: Cpu): int {
    if owner == c then -1 else owner
  }

  /** What stopping the tick makes of the owner, and whether it returns 1, when every CPU of `mask` has stopped. */
  function Stopped(owner: int, mask: set<Cpu>, c: Cpu, i: Input): (int, bool)
    requires i.Go?
  {
    if !i.active || |mask + {c}| == i.online then (Without(owner, c), false)
    else if owner == -1 then (c, true)
    else if owner == c then if i.powerSavings && i.better then (-1, false) else (c, true)
    else (owner, false)
  }

  /** `r` is `s` once CPU `c` has returned, with this owner, mask and result. */
  ghost predicate Returns(s: State, r: State, c: Cpu, stopTick: bool, owner: int, mask: set<Cpu>, one: bool) {
    && r.owner == owner && r.mask == mask && r.recently == s.recently
    && r.log == s.log + [Return(c, stopTick, if one then 1 else 0, owner)]
  }

  lemma FromMine(s: State, c: Cpu, i: Input)
    requires Inv(s) && c in s.pc && i.Go? && s.pc[c].Mine?
    ensures var (owner, one) := if s.owner != c then (s.owner, false)
                                else if i.powerSavings && i.better then (-1, false) else (c, true);
            Returns(s, Alone(s, c, i), c, true, owner, s.mask, one)
  {
    hide Inv;
    StepDescends(s, c, i);
    var t := Step(s, c, i);
    if s.owner == c {
      StepDescends(t, c, i);
      if i.powerSavings && i.better {
        var u := Step(t, c, i);
        StepDescends(u, c, i);
        assert Alone(t, c, i) == Alone(u, c, i) == Step(u, c, i);
      } else {
        assert Alone(t, c, i) == Step(t, c, i);
      }
    }
    assert Alone(s, c, i) == Alone(t, c, i);
  }

  lemma FromVacant(s: State, c: Cpu, i: Input)
    requires Inv(s) && c in s.pc && i.Go? && s.pc[c].Vacant?
    ensures var (owner, one) := if s.owner == -1 then (c, true) else if s.owner != c then (s.owner, false)
                                else if i.powerSavings && i.better then (-1, false) else (c, true);
            Returns(s, Alone(s, c, i), c, true, owner, s.mask, one)
  {
    hide Inv;
    StepDescends(s, c, i);
    var t := Step(s, c, i);
    if s.owner == -1 {
      StepDescends(t, c, i);
      assert Alone(t, c, i) == Step(t, c, i);
    } else {
      FromMine(t, c, i);
      hide Advance;
    }
    assert Alone(s, c, i) == Alone(t, c, i);
  }

  lemma FromWeigh(s: State, c: Cpu, i: Input)
    requires Inv(s) && c in s.pc && i.Go? && s.pc[c].Weigh? && i.active && c in s.mask
    ensures var (owner, one) := Stopped(s.owner, s.mask, c, i);
            Returns(s, Alone(s, c, i), c, true, owner, s.mask, one)
  {
    hide Inv;
    assert s.mask + {c} == s.mask;
    StepDescends(s, c, i);
    var t := Step(s, c, i);
    if |s.mask| == i.online {
      StepDescends(t, c, i);
      var u := Step(t, c, i);
      if s.owner == c {
        StepDescends(u, c, i);
        assert Alone(t, c, i) == Alone(u, c, i) == Step(u, c, i);
      } else {
        assert Alone(t, c, i) == u;
      }
    } else {
      FromVacant(t, c, i);
      hide Advance;
    }
    assert Alone(s, c, i) == Alone(t, c, i);
  }

  /**
   A call that stops the tick, undisturbed: an active CPU enters the mask; it leaves no owner behind
   once every online CPU has stopped; else it returns 1, and owns the balancing, if there was no owner
   or it was the owner itself and no better one is known.
   */
  lemma StopOutcome(s: State, c: Cpu, i: Input)
    requires Inv(s) && c in s.pc && s.pc[c].Elsewhere? && i.Go?
    ensures var r := Call(s, c, CallSelect(true), i);
            var (owner, one) := Stopped(s.owner, s.mask, c, i);
            Returns(s.(recently := s.recently + {c}), r, c, true, owner, if i.active then s.mask + {c} else s.mask, one)
  {
    hide Inv;
    StepKeepsInv(s, c, CallSelect(true));
    var t := Step(s, c, CallSelect(true));
    StepDescends(t, c, i);
    var u := Step(t, c, i);
    StepDescends(u, c, i);
    var v := Step(u, c, i);
    if i.active {
      FromWeigh(v, c, i);
      assert v.mask + {c} == v.mask;
      hide Advance;
    } else if s.owner == c {
      StepDescends(v, c, i);
      assert Alone(v, c, i) == Step(v, c, i);
    }
    assert Alone(u, c, i) == Alone(v, c, i);
    assert Alone(t, c, i) == Alone(u, c, i);
  }

  /** An active CPU that finds no owner claims the balancing if and only if some online CPU still ticks. */
  lemma VacantCallClaimsIff(s: State, c: Cpu, i: Input)
    requires Inv(s) && c in s.pc && s.pc[c].Elsewhere? && i.Go? && i.active && s.owner == -1
    ensures var r := Call(s, c, CallSelect(true), i);
            && |r.log| == |s.log| + 1
            && (r.log[|s.log|].value == 1 <==> |s.mask + {c}| != i.online)
            && (r.owner == c <==> |s.mask + {c}| != i.online)
  {
    StopOutcome(s, c, i);
    hide Call, Inv;
  }

  lemma FromClearMask(s: State, c: Cpu, i: Input)
    requires Inv(s) && c in s.pc && i.Go? && s.pc[c].ClearMask?
    ensures Returns(s, Alone(s, c, i), c, false, Without(s.owner, c), s.mask - {c}, false)
  {
    hide Inv;
    StepDescends(s, c, i);
    var v := Step(s, c, i);
    StepDescends(v, c, i);
    var w := Step(v, c, i);
    if s.owner == c {
      StepDescends(w, c, i);
      assert Alone(w, c, i) == Step(w, c, i);
    }
    assert Alone(s, c, i) == Alone(v, c, i) == Alone(w, c, i);
  }

  /** A call that restarts the tick, undisturbed: the CPU leaves the mask, and with it the ownership. */
  lemma StartOutcome(s: State, c: Cpu, i: Input)
    requires Inv(s) && c in s.pc && s.pc[c].Elsewhere? && i.Go?
    ensures Returns(s, Call(s, c, CallSelect(false), i), c, false, Without(s.owner, c), s.mask - {c}, false)
  {
    assert s.owner == c ==> c in s.mask;
    hide Inv, Owned;
    StepKeepsInv(s, c, CallSelect(false));
    var t := Step(s, c, CallSelect(false));
    StepDescends(t, c, i);
    var u := Step(t, c, i);
    if c in s.mask {
      FromClearMask(u, c, i);
    }
    assert Alone(t, c, i) == Alone(u, c, i);
  }

  /** A busy tick after a stopped one, undisturbed: an owner gives up the ownership and leaves the mask. */
  lemma TickOutcome(s: State, c: Cpu, i: Input)
    requires Inv(s) && c in s.pc && s.pc[c].Elsewhere? && i.Go?
    ensures var r := Call(s, c, CallTrigger, i);
            var busy := c in s.recently && !i.idleAtTick;
            && r.log == s.log && r.recently == (if busy then s.recently - {c} else s.recently)
            && r.owner == (if busy then Without(s.owner, c) else s.owner)
            && r.mask == if busy && s.owner == c then s.mask - {c} else s.mask
  {
    hide Inv;
    StepKeepsInv(s, c, CallTrigger);
    var t := Step(s, c, CallTrigger);
    StepDescends(t, c, i);
    var u := Step(t, c, i);
    if c in s.recently && !i.idleAtTick {
      StepDescends(u, c, i);
      var v := Step(u, c, i);
      if s.owner == c {
        StepDescends(v, c, i);
        var w := Step(v, c, i);
        StepDescends(w, c, i);
        assert Alone(v, c, i) == Alone(w, c, i) == Step(w, c, i);
      }
      assert Alone(u, c, i) == Alone(v, c, i);
    }
    assert Alone(t, c, i) == Alone(u, c, i);
  }

  /**
   Why a call of `c` that stops the tick may return 0, seen at one step: the CPU is not active, the
   mask is full when it is weighed, the owner hands over, or another CPU owns the balancing.
   */
  predicate Excuse(s: State, d: Cpu, i: Input, c: Cpu)
    requires Enabled(s, d, i)
  {
    || (s.owner >= 0 && s.owner != c)
    || (d == c && ((s.pc[c].StopTick? && !i.active) || (s.pc[c].Weigh? && |s.mask| == i.online) || s.pc[c].HandOver?))
  }

  /** There is such a step before `c` returns. */
  ghost predicate Excused(s: State, steps: seq<(Cpu, Input)>, c: Cpu)
    requires Runs(s, steps)
    decreases |steps|
  {
    steps != [] &&
    (var (d, i) := steps[0];
     Excuse(s, d, i, c) || (!(d == c && Step(s, d, i).log != s.log) && Excused(Step(s, d, i), steps[1..], c)))
  }

  /** `c` is in a call that stops the tick, and nothing it has seen yet makes it return 0. */
  predicate Hopeful(s: State, c: Cpu) {
    && c in s.pc
    && (|| s.pc[c].StopTick? || s.pc[c].SetMask? || s.pc[c].Weigh? || s.pc[c].Vacant? || s.pc[c].Claim? || s.pc[c].Stay?
        || s.pc[c].HandOver? || (s.pc[c].Mine? && s.owner == c))
  }

  /** One step without an excuse keeps a call hopeful or returns 1. */
  lemma HopefulStep(s: State, d: Cpu, i: Input, c: Cpu)
    requires Inv(s) && Enabled(s, d, i) && Hopeful(s, c) && !Excuse(s, d, i, c)
    ensures var t := Step(s, d, i);
            if d == c && t.log != s.log then |t.log| == |s.log| + 1 && t.log[|s.log|].value == 1 else Hopeful(t, c)
  {
    assert Owned(s);
    hide Inv;
    if d == c {
      OwnView(s, c);
      hide Masked, Unmasked, Owned;
    } else {
      StepIsLocal(s, d, i);
      hide Advance, Owned;
    }
  }

  /** Entry `k` returned 1 to the owner. */
  predicate Claimed(log: seq<Return>, k: nat) {
    k < |log| && log[k].value == 1 && log[k].owner == log[k].cpu
  }

  lemma ReturnClaims(s: State, d: Cpu, i: Input, c: Cpu)
    requires Inv(s) && Enabled(s, d, i) && Hopeful(s, c) && !Excuse(s, d, i, c)
    requires d == c && Step(s, d, i).log != s.log
    ensures Claimed(Step(s, d, i).log, |s.log|)
  {
    HopefulStep(s, d, i, c);
    StepKeepsInv(s, d, i);
    var t := Step(s, d, i);
    assert t.log[|s.log|] in t.log && Honest(t.log[|s.log|]);
  }

  /**
   In every run, a call that stops the tick and has had no excuse before its return owns the
   balancing then and returns 1.
   */
  lemma {:induction false} ZeroIsExcused(s: State, steps: seq<(Cpu, Input)>, c: Cpu, n: nat)
    requires Inv(s) && Runs(s, steps) && Hopeful(s, c) && !Excused(s, steps, c)
    requires n <= |s.log| && Silent(s.log, n, |s.log|, c)
    ensures forall k: nat | First(Exec(s, steps).log, n, k, c) :: Claimed(Exec(s, steps).log, k)
    decreases |steps|
  {
    if steps != [] {
      var (d, i) := steps[0];
      var t := Step(s, d, i);
      CallStep(s, d, i);
      StepKeepsInv(s, d, i);
      hide Advance, Inv, Excuse, Hopeful, Enabled, Step;
      if d == c && t.log != s.log {
        ReturnClaims(s, d, i, c);
        assert First(t.log, n, |s.log|, c);
        LogGrows(t, steps[1..]);
        FirstStays(t.log, Exec(t, steps[1..]).log, n, |s.log|, c);
      } else {
        HopefulStep(s, d, i, c);
        ZeroIsExcused(t, steps[1..], c, n);
      }
    }
  }

  /** And in every run, one that weighs a full mask returns 0. */
  lemma FullMaskReturnsZero(s: State, steps: seq<(Cpu, Input)>, c: Cpu)
    requires Inv(s) && Runs(s, steps) && c in s.pc && s.pc[c].Weigh?
    requires steps != [] && steps[0].0 == c && |s.mask| == steps[0].1.online
    ensures var log := Exec(s, steps).log;
            forall k: nat | First(log, |s.log|, k, c) :: log[k].value == 0 && log[k].owner != c
  {
    var (d, i) := steps[0];
    StepKeepsInv(s, c, i);
    assert Step(s, c, i).pc[c].AllIdle? && Step(s, c, i).log == s.log by { hide Inv; }
    assert Exec(s, steps) == Exec(Step(s, c, i), steps[1..]);
    hide Step, Inv, Enabled;
    AllIdleReturnsZero(Step(s, c, i), steps[1..], c, |s.log|);
    var log := Exec(Step(s, c, i), steps[1..]).log;
    assert forall k: nat | First(log, |s.log|, k, c) :: log[k].value == 0 && log[k].owner != c;
  }
}
