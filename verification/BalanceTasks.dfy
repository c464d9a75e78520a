/** Pulling tasks from the busiest runqueue: `balance_tasks`. */
module BalanceTasks {
  import opened Common
  import opened Words

  class Task {
    const weight: nat             // p->se.load.weight
    const prio: int
    const cpusAllowed: set<nat>

    constructor (weight: nat, prio: int, cpusAllowed: set<nat>)
      ensures this.weight == weight && this.prio == prio && this.cpusAllowed == cpusAllowed
    {
      this.weight, this.prio, this.cpusAllowed := weight, prio, cpusAllowed;
    }
  }

  class RunQueue {
    var queued: set<Task>
    var curr: Task?
  }

  /** `struct rq_iterator`: a class enumerates its tasks on the busiest queue. */
  class RqIterator {
    const tasks: seq<Task>
    var pos: nat

    ghost predicate At(p: Task?, k: nat)
      reads this
    {
      pos == k <= |tasks| && p == if k < |tasks| then tasks[k] else null
    }

    method Start() returns (p: Task?)
      modifies this
      ensures At(p, 0)
    {
      pos := 0;
      p := if |tasks| > 0 then tasks[0] else null;
    }

    method Next() returns (p: Task?)
      requires pos < |tasks|
      modifies this
      ensures At(p, old(pos) + 1)
    {
      pos := pos + 1;
      p := if pos < |tasks| then tasks[pos] else null;
    }
  }

  /** What `can_migrate_task` looks at besides the task. */
  datatype Migration = Migration(curr: Task?, thisCpu: nat, hot: set<Task>, tooManyFailures: bool) {

    /** The task may run here, is not running there, and is cache cold or wanted anyway. */
    predicate Allows(p: Task) {
      thisCpu in p.cpusAllowed && p != curr && (p in hot ==> tooManyFailures)
    }
  }

  const sysctl_sched_nr_migrate := 32

  ghost function Sum(tasks: seq<Task>): nat {
    if tasks == [] then 0 else tasks[0].weight + Sum(tasks[1..])
  }

  lemma {:induction false} SumAppend(s: seq<Task>, p: Task)
    ensures Sum(s + [p]) == Sum(s) + p.weight
  {
    if s != [] {
      assert (s + [p])[1..] == s[1..] + [p];
      SumAppend(s[1..], p);
    }
  }

  function Elements(tasks: seq<Task>): set<Task> {
    set p | p in tasks
  }

  lemma ElementsAppend(s: seq<Task>, p: Task)
    ensures Elements([]) == {} && Elements(s + [p]) == Elements(s) + {p}
  {
  }

  /** The lowest priority value of `tasks`, or `best`. */
  ghost function Lowest(best: int, tasks: seq<Task>): int
    decreases |tasks|
  {
    if tasks == [] then best else
      Lowest(if tasks[0].prio < best then tasks[0].prio else best, tasks[1..])
  }

  lemma {:induction false} LowestAppend(best: int, s: seq<Task>, p: Task)
    ensures Lowest(best, s + [p]) == Min(Lowest(best, s), p.prio)
    decreases |s|
  {
    if s != [] {
      assert (s + [p])[1..] == s[1..] + [p];
      LowestAppend(if s[0].prio < best then s[0].prio else best, s[1..], p);
    }
  }

  /**
   The tasks pulled from `cands` with `rem`, an `unsigned long`, left of the budget after `loops`
   candidates: skip a task whose half weight exceeds the rest (compared unsigned) or that may not
   move, and stop once the rest is not positive (compared signed).
   */
  ghost function Pulled(mig: Migration, cands: seq<Task>, rem: nat, loops: nat): seq<Task> {
    if cands == [] || loops > sysctl_sched_nr_migrate then []
    else
      var p, rest := cands[0], cands[1..];
      if p.weight / 2 > rem || !mig.Allows(p) then Pulled(mig, rest, rem, loops + 1)
      else
        var left := Wrap32(rem - p.weight);
        [p] + if Signed32(left) > 0 then Pulled(mig, rest, left, loops + 1) else []
  }

  /** The first candidate, and the others. */
  lemma PulledFirst(mig: Migration, p: Task, rest: seq<Task>, rem: nat, loops: nat)
    requires loops <= sysctl_sched_nr_migrate
    ensures Pulled(mig, [p] + rest, rem, loops) ==
            if p.weight / 2 > rem || !mig.Allows(p) then Pulled(mig, rest, rem, loops + 1)
            else
              var left := Wrap32(rem - p.weight);
              [p] + if Signed32(left) > 0 then Pulled(mig, rest, left, loops + 1) else []
  {
    assert ([p] + rest)[1..] == rest;
    hide Wrap32, Signed32, Migration.Allows;
  }

  lemma SumFirst(p: Task, s: seq<Task>)
    ensures Sum([p] + s) == p.weight + Sum(s) && Sum([]) == 0
  {
    assert ([p] + s)[1..] == s;
  }

  lemma NonePulled(mig: Migration, cands: seq<Task>, rem: nat, loops: nat)
    requires cands == [] || loops > sysctl_sched_nr_migrate
    ensures Pulled(mig, cands, rem, loops) == [] && Sum([]) == 0
  {
  }

  /** Pulling at most overshoots the budget by the budget itself and one. */
  lemma {:induction false} PulledWithin(mig: Migration, cands: seq<Task>, rem: nat, loops: nat)
    requires 0 < rem < ULONG_RANGE
    requires forall p | p in cands :: p.weight < ULONG_RANGE
    ensures Sum(Pulled(mig, cands, rem, loops)) <= 2 * rem + 1
    decreases |cands|
  {
    hide Pulled, Sum, Migration.Allows;
    if cands == [] || loops > sysctl_sched_nr_migrate {
      NonePulled(mig, cands, rem, loops);
    } else {
      var p, rest, left := cands[0], cands[1..], Wrap32(rem - cands[0].weight);
      assert cands == [p] + rest;
      PulledFirst(mig, p, rest, rem, loops);
      SumFirst(p, if Signed32(left) > 0 then Pulled(mig, rest, left, loops + 1) else []);
      if p.weight / 2 > rem || !mig.Allows(p) {
        PulledWithin(mig, rest, rem, loops + 1);
      } else if Signed32(left) > 0 {
        PulledWithin(mig, rest, left, loops + 1);
      }
    }
  }

  /** The candidates that are looked at while the budget lasts. */
  function Reach(cands: seq<Task>, loops: nat): nat {
    if loops > sysctl_sched_nr_migrate then 0
    else Min(|cands|, sysctl_sched_nr_migrate + 1 - loops)
  }

  /**
   Either the budget is met, or of the tasks in reach none that may move was left behind that
   would have fitted what remains.
   */
  lemma {:induction false} PulledIsMaximal(mig: Migration, cands: seq<Task>, rem: nat, loops: nat, k: nat)
    requires 0 < rem < 0x8000_0000 && k < Reach(cands, loops)
    ensures var pulled := Pulled(mig, cands, rem, loops);
            Sum(pulled) >= rem || cands[k] in pulled || !mig.Allows(cands[k])
            || cands[k].weight / 2 > rem - Sum(pulled)
    decreases |cands|
  {
    hide Pulled, Sum, Wrap32, Signed32, Migration.Allows;
    var p, rest := cands[0], cands[1..];
    assert cands == [p] + rest;
    BelowHalfRange(rem, p.weight);
    PulledFirst(mig, p, rest, rem, loops);
    if p.weight / 2 > rem || !mig.Allows(p) {
      if k > 0 { PulledIsMaximal(mig, rest, rem, loops + 1, k - 1); }
    } else {
      SumFirst(p, if p.weight < rem then Pulled(mig, rest, rem - p.weight, loops + 1) else []);
      if k > 0 && p.weight < rem { PulledIsMaximal(mig, rest, rem - p.weight, loops + 1, k - 1); }
    }
  }

  /** A task left behind for another reason is not allowed here, runs there, or is cache hot and not wanted yet. */
  lemma LeftBehind(mig: Migration, cands: seq<Task>, rem: nat, k: nat)
    requires 0 < rem < 0x8000_0000 && k < |cands| && k <= 32
    ensures var pulled := Pulled(mig, cands, rem, 0);
            Sum(pulled) >= rem || cands[k] in pulled || cands[k].weight / 2 > rem - Sum(pulled)
            || mig.thisCpu !in cands[k].cpusAllowed || cands[k] == mig.curr
            || (cands[k] in mig.hot && !mig.tooManyFailures)
  {
    hide Pulled, Sum;
    PulledIsMaximal(mig, cands, rem, 0, k);
  }

  lemma BelowHalfRange(rem: nat, w: nat)
    requires 0 < rem < 0x8000_0000
    ensures w / 2 <= rem ==> (Signed32(Wrap32(rem - w)) > 0 <==> w < rem)
    ensures w < rem ==> Wrap32(rem - w) == rem - w
  {
  }

  /** Only candidates in reach that may move are pulled, none twice. */
  lemma {:induction false} PulledMayMove(mig: Migration, cands: seq<Task>, rem: nat, loops: nat)
    requires Distinct(cands)
    ensures var pulled := Pulled(mig, cands, rem, loops);
            && Distinct(pulled) && |pulled| <= Reach(cands, loops)
            && forall p | p in pulled :: p in cands && mig.Allows(p)
                                         && mig.thisCpu in p.cpusAllowed && p != mig.curr
                                         && (p in mig.hot ==> mig.tooManyFailures)
    decreases |cands|
  {
    hide Pulled, Wrap32, Signed32;
    if cands == [] || loops > sysctl_sched_nr_migrate {
      NonePulled(mig, cands, rem, loops);
    } else {
      var p, rest, left := cands[0], cands[1..], Wrap32(rem - cands[0].weight);
      assert cands == [p] + rest;
      Tail(p, rest);
      PulledFirst(mig, p, rest, rem, loops);
      hide Distinct, Migration.Allows;
      PulledMayMove(mig, rest, rem, loops + 1);
      PulledMayMove(mig, rest, left, loops + 1);
      Lone(p, Pulled(mig, rest, left, loops + 1));
    }
  }

  lemma Tail(p: Task, rest: seq<Task>)
    requires Distinct([p] + rest)
    ensures Distinct(rest) && p !in rest
  {
    assert ([p] + rest)[1..] == rest;
    assert forall k | 0 <= k < |rest| :: rest[k] == ([p] + rest)[k + 1] && ([p] + rest)[0] == p;
  }

  lemma Lone(p: Task, s: seq<Task>)
    ensures Distinct([p] + []) && (Distinct(s) && p !in s ==> Distinct([p] + s))
  {
  }

  /** No candidate in reach is both light enough for the whole budget and allowed on this CPU. */
  ghost predicate AllPinned(mig: Migration, cands: seq<Task>, rem: nat, loops: nat) {
    forall k | 0 <= k < Reach(cands, loops) :: cands[k].weight / 2 > rem || mig.thisCpu !in cands[k].cpusAllowed
  }

  /** `pull_task`, with both runqueues locked. */
  method PullTask(src: RunQueue, p: Task, dst: RunQueue)
    requires src != dst && p in src.queued
    modifies src`queued, dst`queued
    ensures src.queued == old(src.queued) - {p} && dst.queued == old(dst.queued) + {p}
  {
    src.queued := src.queued - {p};
    dst.queued := dst.queued + {p};
  }

  /** The tasks of `pulled` moved from `src` to `dst` since they held `before` and `here`. */
  ghost predicate Moved(src: RunQueue, dst: RunQueue, before: set<Task>, here: set<Task>, pulled: seq<Task>)
    reads src, dst
  {
    src.queued == before - Elements(pulled) && dst.queued == here + Elements(pulled)
  }

  method PullAnother(src: RunQueue, p: Task, dst: RunQueue,
                     ghost before: set<Task>, ghost here: set<Task>, ghost pulled: seq<Task>)
    requires src != dst && Moved(src, dst, before, here, pulled) && p in before && p !in Elements(pulled)
    modifies src`queued, dst`queued
    ensures Moved(src, dst, before, here, pulled + [p])
  {
    PullTask(src, p, dst);
    ElementsAppend(pulled, p);
  }

  lemma NothingMoved(src: RunQueue, dst: RunQueue)
    ensures Moved(src, dst, src.queued, dst.queued, [])
  {
  }

  /** `can_migrate_task`, and whether the task leaves `all_pinned` alone. */
  method CanMigrateTask(p: Task, rq: RunQueue, mig: Migration) returns (ok: bool, pinned: bool)
    requires mig.curr == rq.curr
    ensures ok == mig.Allows(p) && pinned == (mig.thisCpu !in p.cpusAllowed)
    ensures ok ==> !pinned
  {
    if mig.thisCpu !in p.cpusAllowed {
      return false, true;
    }
    if p == rq.curr {
      return false, false;
    }
    return p !in mig.hot || mig.tooManyFailures, false;
  }

  lemma WrapMinus(m: nat, total: nat, w: nat)
    ensures Wrap32(Wrap32(m - total) - w) == Wrap32(m - (total + w))
    ensures Signed32(Wrap32(m - total) - w) == Signed32(m - (total + w))
    ensures Wrap32(m - Wrap32(m - total)) == Wrap32(total) && Signed32(Wrap32(m - total)) == Signed32(m - total)
  {
  }

  /** The tasks pulled while the budget still lasted afterwards; a last one may have exhausted it. */
  ghost function WithinBudget(m: nat, pulled: seq<Task>): seq<Task> {
    if pulled == [] || Signed32(m - Sum(pulled)) > 0 then pulled else pulled[..|pulled| - 1]
  }

  /** The locals of `balance_tasks` after `k` candidates; `done` once the budget is exhausted. */
  datatype Progress = Progress(k: nat, rem: nat, pulled: seq<Task>, bestPrio: int, allPinned: bool, done: bool)
  {
    ghost predicate Valid(mig: Migration, all: seq<Task>, m: nat, best: int) {
      && k <= Min(|all|, sysctl_sched_nr_migrate + 1)
      && Replays(mig, all, m) && Budget(m, best) && Pins(mig, all, m)
    }

    /** What is pulled so far and what is still to come make up the specified selection. */
    ghost predicate Replays(mig: Migration, all: seq<Task>, m: nat)
      requires k <= |all|
    {
      && pulled + (if done then [] else Pulled(mig, all[k..], rem, k)) == Pulled(mig, all, m, 0)
      && (forall q | q in pulled :: q in all[..k])
    }

    ghost predicate Budget(m: nat, best: int) {
      && rem == Wrap32(m - Sum(pulled))
      && (if done then pulled != [] && Signed32(m - Sum(pulled)) <= 0
          else pulled == [] || Signed32(m - Sum(pulled)) > 0)
      && bestPrio == Lowest(best, WithinBudget(m, pulled))
    }

    ghost predicate Pins(mig: Migration, all: seq<Task>, m: nat)
      requires k <= |all|
    {
      && (pulled == [] ==> rem == m)
      && (allPinned ==> pulled == [] && !done)
      && (allPinned <==> forall j | 0 <= j < k :: all[j].weight / 2 > m || mig.thisCpu !in all[j].cpusAllowed)
    }
  }

  /** The locals after pulling `p`. */
  function Taken(x: Progress, p: Task): Progress {
    var r := Wrap32(x.rem - p.weight);
    Progress(x.k + 1, r, x.pulled + [p], if Signed32(r) > 0 && p.prio < x.bestPrio then p.prio else x.bestPrio,
             false, Signed32(r) <= 0)
  }

  lemma Begin(mig: Migration, all: seq<Task>, m: nat, best: int)
    requires m < ULONG_RANGE
    ensures Progress(0, m, [], best, true, false).Valid(mig, all, m, best)
  {
    assert all[0..] == all;
  }

  /** A candidate is passed over: too heavy for the rest, or it may not move. */
  lemma PassOver(x: Progress, pinned: bool, mig: Migration, all: seq<Task>, m: nat, best: int)
    requires x.Valid(mig, all, m, best) && !x.done && x.k < |all| && x.k <= sysctl_sched_nr_migrate
    requires m < ULONG_RANGE
    requires var p := all[x.k];
             if p.weight / 2 > x.rem then pinned
             else !mig.Allows(p) && pinned == (mig.thisCpu !in p.cpusAllowed)
    ensures x.(k := x.k + 1, allPinned := x.allPinned && pinned).Valid(mig, all, m, best)
  {
    PassReplays(x, x.allPinned && pinned, mig, all, m);
    hide Progress.Replays, Progress.Budget;
    BudgetOf(x, x.k + 1, x.allPinned && pinned, m, best);
  }

  /** The budget does not depend on how many candidates have been looked at. */
  lemma BudgetOf(x: Progress, k: nat, allPinned: bool, m: nat, best: int)
    ensures x.Budget(m, best) <==> x.(k := k, allPinned := allPinned).Budget(m, best)
  {
    hide Sum, Lowest, Wrap32, Signed32, WithinBudget;
  }

  lemma PassReplays(x: Progress, allPinned: bool, mig: Migration, all: seq<Task>, m: nat)
    requires !x.done && x.k < |all| && x.k <= sysctl_sched_nr_migrate && x.Replays(mig, all, m)
    requires all[x.k].weight / 2 > x.rem || !mig.Allows(all[x.k])
    ensures x.(k := x.k + 1, allPinned := allPinned).Replays(mig, all, m)
  {
    hide Pulled, Wrap32, Signed32, Migration.Allows;
    var p, rest := all[x.k], all[x.k + 1..];
    assert all[x.k..] == [p] + rest;
    PulledFirst(mig, p, rest, x.rem, x.k);
    assert all[..x.k + 1] == all[..x.k] + [p];
  }

  /** A candidate is pulled. */
  lemma Take(x: Progress, mig: Migration, all: seq<Task>, m: nat, best: int)
    requires x.Valid(mig, all, m, best) && !x.done && x.k < |all| && x.k <= sysctl_sched_nr_migrate
    requires m < ULONG_RANGE && Distinct(all)
    requires all[x.k].weight / 2 <= x.rem && mig.Allows(all[x.k])
    ensures all[x.k] !in Elements(x.pulled)
    ensures Taken(x, all[x.k]).Valid(mig, all, m, best)
  {
    TakeReplays(x, mig, all, m);
    TakeBudget(x, all[x.k], m, best);
    hide Progress.Replays, Progress.Budget;
  }

  lemma TakeReplays(x: Progress, mig: Migration, all: seq<Task>, m: nat)
    requires !x.done && x.k < |all| && x.k <= sysctl_sched_nr_migrate && x.Replays(mig, all, m)
    requires Distinct(all) && all[x.k].weight / 2 <= x.rem && mig.Allows(all[x.k])
    ensures all[x.k] !in Elements(x.pulled)
    ensures Taken(x, all[x.k]).Replays(mig, all, m)
  {
    hide Pulled, Wrap32, Signed32;
    var p, rest, y := all[x.k], all[x.k + 1..], Taken(x, all[x.k]);
    assert all[x.k..] == [p] + rest;
    PulledFirst(mig, p, rest, x.rem, x.k);
    assert all[..x.k + 1] == all[..x.k] + [p];
    NotBefore(all, x.k);
    hide Distinct;
  }

  lemma NotBefore(all: seq<Task>, k: nat)
    requires Distinct(all) && k < |all|
    ensures all[k] !in all[..k]
  {
  }

  lemma TakeBudget(x: Progress, p: Task, m: nat, best: int)
    requires !x.done && x.Budget(m, best)
    ensures Taken(x, p).Budget(m, best)
  {
    Remaining(m, x.pulled, p, x.rem);
    LowestAppend(best, x.pulled, p);
    hide Sum, Lowest, Wrap32, Signed32;
    assert (x.pulled + [p])[..|x.pulled|] == x.pulled;
  }

  lemma Remaining(m: nat, pulled: seq<Task>, p: Task, rem: nat)
    requires rem == Wrap32(m - Sum(pulled))
    ensures Wrap32(rem - p.weight) == Wrap32(m - Sum(pulled + [p]))
    ensures Signed32(Wrap32(rem - p.weight)) == Signed32(m - Sum(pulled + [p]))
  {
    SumAppend(pulled, p);
    WrapMinus(m, Sum(pulled), p.weight);
  }

  lemma Finish(x: Progress, mig: Migration, all: seq<Task>, m: nat, best: int)
    requires x.Valid(mig, all, m, best) && 0 < m < ULONG_RANGE && (forall p | p in all :: p.weight < ULONG_RANGE)
    requires x.done || x.k == |all| || x.k > sysctl_sched_nr_migrate
    ensures x.pulled == Pulled(mig, all, m, 0)
    ensures Wrap32(m - x.rem) == Wrap32(Sum(x.pulled)) && Sum(x.pulled) <= 2 * m + 1
    ensures m < 0x8000_0000 ==> Wrap32(Sum(x.pulled)) == Sum(x.pulled)
    ensures x.bestPrio == Lowest(best, WithinBudget(m, x.pulled))
    ensures x.allPinned == AllPinned(mig, all, m, 0)
    ensures x.allPinned ==> x.pulled == []
  {
    hide Pulled, Sum, Lowest, WithinBudget, Signed32, Wrap32, Progress.Pins, Reach;
    PulledWithin(mig, all, m, 0);
    if !x.done {
      NonePulled(mig, all[x.k..], x.rem, x.k);
    }
    assert x.pulled + [] == x.pulled;
    assert x.pulled == Pulled(mig, all, m, 0);
    WrapMinus(m, Sum(x.pulled), 0);
    SmallSum(m, Sum(x.pulled));
    FinishPins(x, mig, all, m);
  }

  lemma SmallSum(m: nat, total: nat)
    requires total <= 2 * m + 1
    ensures m < 0x8000_0000 ==> Wrap32(total) == total
  {
  }

  /** Everything stayed pinned exactly if nothing in reach was both light enough and allowed. */
  lemma FinishPins(x: Progress, mig: Migration, all: seq<Task>, m: nat)
    requires x.k <= Min(|all|, sysctl_sched_nr_migrate + 1) && x.Pins(mig, all, m)
    requires x.done || x.k == |all| || x.k > sysctl_sched_nr_migrate
    ensures x.allPinned == AllPinned(mig, all, m, 0)
    ensures x.allPinned ==> x.pulled == []
  {
    assert x.k <= Reach(all, 0);
    if x.done {
      var j :| 0 <= j < x.k && !(all[j].weight / 2 > m || mig.thisCpu !in all[j].cpusAllowed);
      assert j < Reach(all, 0);
    }
  }

  /**
   Moves to `thisRq` exactly the tasks `Pulled` selects. The result is the sum of their weights as
   an `unsigned long`, and that sum itself for every budget below half the range.
   */
  method BalanceTasks(thisRq: RunQueue, busiest: RunQueue, maxLoadMove: nat, mig: Migration, thisBestPrio: int,
                      iterator_: RqIterator)
    returns (moved: nat, allPinned: bool, bestPrio: int, pulled: seq<Task>)
    requires thisRq != busiest && mig.curr == busiest.curr && maxLoadMove < ULONG_RANGE
    requires Distinct(iterator_.tasks)
    requires forall p | p in iterator_.tasks :: p in busiest.queued && p.weight < ULONG_RANGE
    modifies thisRq`queued, busiest`queued, iterator_
    ensures pulled == if maxLoadMove == 0 then [] else Pulled(mig, iterator_.tasks, maxLoadMove, 0)
    ensures Moved(busiest, thisRq, old(busiest.queued), old(thisRq.queued), pulled)
    ensures moved == Wrap32(Sum(pulled)) && Sum(pulled) <= 2 * maxLoadMove + 1
    ensures maxLoadMove < 0x8000_0000 ==> moved == Sum(pulled)
    ensures bestPrio == Lowest(thisBestPrio, WithinBudget(maxLoadMove, pulled))
    ensures allPinned == (maxLoadMove != 0 && AllPinned(mig, iterator_.tasks, maxLoadMove, 0))
    ensures allPinned ==> pulled == []
  {
    hide Pulled, Sum, Lowest, AllPinned, WithinBudget, Elements, Distinct, Signed32, Wrap32, Migration.Allows, Moved,
         Progress.Valid, Reach;
    NothingMoved(busiest, thisRq);
    if maxLoadMove == 0 {
      NoBudget(thisBestPrio);
      return 0, false, thisBestPrio, [];
    }
    ghost var before, here := busiest.queued, thisRq.queued;
    Begin(mig, iterator_.tasks, maxLoadMove, thisBestPrio);
    var rem: nat, loops: nat, done := maxLoadMove, 0, false;
    pulled, bestPrio, allPinned := [], thisBestPrio, true;
    var p := iterator_.Start();
    while !done && p != null && loops <= sysctl_sched_nr_migrate
      invariant loops <= |iterator_.tasks| && (!done ==> iterator_.At(p, loops))
      invariant Progress(loops, rem, pulled, bestPrio, allPinned, done).
                  Valid(mig, iterator_.tasks, maxLoadMove, thisBestPrio)
      invariant Moved(busiest, thisRq, before, here, pulled)
      decreases !done, |iterator_.tasks| - loops
    {
      rem, pulled, bestPrio, allPinned, done :=
        Consider(p, rem, pulled, bestPrio, allPinned, thisRq, busiest, mig,
                 loops, iterator_.tasks, maxLoadMove, thisBestPrio, before, here);
      loops := loops + 1;
      if !done {
        p := iterator_.Next();
      }
    }
    Finish(Progress(loops, rem, pulled, bestPrio, allPinned, done), mig, iterator_.tasks, maxLoadMove, thisBestPrio);
    moved := Wrap32(maxLoadMove - rem);
  }

  /** The body of the loop: candidate `p` is passed over or pulled. */
  method Consider(p: Task, rem0: nat, pulled0: seq<Task>, bestPrio0: int, allPinned0: bool,
                  thisRq: RunQueue, busiest: RunQueue, mig: Migration,
                  ghost k: nat, ghost all: seq<Task>, ghost m: nat, ghost best: int,
                  ghost before: set<Task>, ghost here: set<Task>)
    returns (rem: nat, pulled: seq<Task>, bestPrio: int, allPinned: bool, done: bool)
    requires thisRq != busiest && mig.curr == busiest.curr && m < ULONG_RANGE
    requires k < |all| && p == all[k] && k <= sysctl_sched_nr_migrate && Distinct(all) && p in before
    requires Progress(k, rem0, pulled0, bestPrio0, allPinned0, false).Valid(mig, all, m, best)
    requires Moved(busiest, thisRq, before, here, pulled0)
    modifies thisRq`queued, busiest`queued
    ensures Progress(k + 1, rem, pulled, bestPrio, allPinned, done).Valid(mig, all, m, best)
    ensures Moved(busiest, thisRq, before, here, pulled)
  {
    hide Progress.Valid, Distinct, Signed32, Migration.Allows, Moved, Elements, Pulled, Sum, Lowest, WithinBudget;
    ghost var x := Progress(k, rem0, pulled0, bestPrio0, allPinned0, false);
    var can, pinned := false, true;
    if p.weight / 2 <= rem0 {
      can, pinned := CanMigrateTask(p, busiest, mig);
    }
    rem, pulled, bestPrio, allPinned, done := rem0, pulled0, bestPrio0, allPinned0 && pinned, false;
    if can {
      Take(x, mig, all, m, best);
      PullAnother(busiest, p, thisRq, before, here, pulled0);
      pulled := pulled + [p];
      rem := Wrap32(rem - p.weight);
      done := Signed32(rem) <= 0;
      if !done && p.prio < bestPrio {
        bestPrio := p.prio;
      }
    } else {
      PassOver(x, pinned, mig, all, m, best);
    }
  }

  lemma NoBudget(best: int)
    ensures Sum([]) == 0 && Wrap32(Sum([])) == 0 && Lowest(best, WithinBudget(0, [])) == best
  {
  }
}
