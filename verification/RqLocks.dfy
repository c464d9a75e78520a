/**
 Runqueue locks: `double_rq_lock`, the unfair `_double_lock_balance` and plain locking, by any
 number of threads. A lock is named by the address of its runqueue, which orders it.
 */
module RqLocks {
  import opened Common

  type Lock = nat
  type Tid = nat

  /** Where a thread is. Each `spin_lock` it has yet to pass is one of the `At` points. */
  datatype Pc =
    | Holding(locks: set<Lock>)                       // outside the locking functions
    | AtOnly(lock: Lock)
    | AtFirst(lo: Lock, hi: Lock, ret: bool)          // holds nothing, about to lock lo and then hi
    | AtSecond(lo: Lock, hi: Lock, ret: bool)         // holds lo, about to lock hi
    | AtUnlock(this_: Lock, busiest: Lock)            // the trylock failed and busiest < this_rq

  /**
   `goal` is what the thread must hold when its call returns; `dropped` records whether the call
   let go of a lock it was entered with, and `ret` is what the last call returned.
   */
  datatype Thread = Thread(pc: Pc, goal: set<Lock>, dropped: bool, ret: bool)

  datatype State = State(owner: map<Lock, Tid>, threads: map<Tid, Thread>)

  datatype Op =
    | SpinLock(a: Lock)
    | DoubleRqLock(rq1: Lock, rq2: Lock)
    | DoubleLockBalance(busiest: Lock)                // entered holding this_rq only
    | Acquire                                         // pass the spin_lock the thread is at
    | ReleaseThis
    | Unlock(a: Lock)

  function Held(pc: Pc): set<Lock> {
    match pc
    case Holding(locks) => locks
    case AtOnly(_) => {}
    case AtFirst(_, _, _) => {}
    case AtSecond(lo, _, _) => {lo}
    case AtUnlock(this_, _) => {this_}
  }

  /** The lock the thread spins on. */
  function Wanted(pc: Pc): Option<Lock> {
    match pc
    case AtOnly(a) => Some(a)
    case AtFirst(lo, _, _) => Some(lo)
    case AtSecond(_, hi, _) => Some(hi)
    case _ => None
  }

  predicate Enabled(s: State, t: Tid, op: Op) {
    && t in s.threads
    && var pc := s.threads[t].pc;
       match op
       case SpinLock(_) => pc == Holding({})
       case DoubleRqLock(_, _) => pc == Holding({})
       case DoubleLockBalance(busiest) => pc.Holding? && |pc.locks| == 1 && busiest !in pc.locks
       case Acquire => Wanted(pc).Some? && Wanted(pc).value !in s.owner
       case ReleaseThis => pc.AtUnlock?
       case Unlock(a) => pc.Holding? && a in pc.locks
  }

  function TheOne(locks: set<Lock>): (a: Lock)
    requires |locks| == 1
    ensures locks == {a}
  {
    OnlyOne(locks);
    var a :| a in locks;
    a
  }

  lemma OnlyOne(locks: set<Lock>)
    requires |locks| == 1
    ensures exists a :: a in locks && forall b | b in locks :: b == a
  {
    var a :| a in locks;
    assert |locks - {a}| == 0;
    forall b | b in locks ensures b == a {
      assert b in locks - {a} || b == a;
    }
  }

  function With(s: State, t: Tid, th: Thread): State {
    s.(threads := s.threads[t := th])
  }

  function Apply(s: State, t: Tid, op: Op): State
    requires Enabled(s, t, op)
  {
    var th := s.threads[t];
    match op
    case SpinLock(a) => With(s, t, Thread(AtOnly(a), {a}, false, false))
    case DoubleRqLock(rq1, rq2) =>
      With(s, t, Thread(if rq1 == rq2 then AtOnly(rq1)
                        else if rq1 < rq2 then AtFirst(rq1, rq2, false) else AtFirst(rq2, rq1, false),
                        {rq1, rq2}, false, false))
    case DoubleLockBalance(busiest) =>
      var this_ := TheOne(th.pc.locks);
      var goal := {this_, busiest};
      if busiest !in s.owner then        // spin_trylock
        State(s.owner[busiest := t], s.threads[t := Thread(Holding(goal), goal, false, false)])
      else if busiest < this_ then With(s, t, Thread(AtUnlock(this_, busiest), goal, false, false))
      else With(s, t, Thread(AtSecond(this_, busiest, false), goal, false, false))
    case Acquire =>
      var a := Wanted(th.pc).value;
      var next :=
        match th.pc
        case AtOnly(_) => th.(pc := Holding({a}))
        case AtFirst(lo, hi, ret) => th.(pc := AtSecond(lo, hi, ret))
        case AtSecond(lo, hi, ret) => th.(pc := Holding({lo, hi}), ret := ret)
        case _ => th;
      State(s.owner[a := t], s.threads[t := next])
    case ReleaseThis =>
      State(s.owner - {th.pc.this_},
            s.threads[t := th.(pc := AtFirst(th.pc.busiest, th.pc.this_, true), dropped := true)])
    case Unlock(a) =>
      State(s.owner - {a}, s.threads[t := th.(pc := Holding(th.pc.locks - {a}), goal := th.goal - {a})])
  }

  predicate Ordered(pc: Pc) {
    && (pc.AtFirst? || pc.AtSecond? ==> pc.lo < pc.hi)
    && (pc.AtUnlock? ==> pc.busiest < pc.this_)
  }

  /** What a thread will hold once its call returns. */
  predicate OnCourse(th: Thread) {
    match th.pc
    case Holding(locks) => locks == th.goal && th.ret == th.dropped
    case AtOnly(a) => th.goal == {a} && !th.dropped && !th.ret
    case AtFirst(lo, hi, ret) => th.goal == {lo, hi} && ret == th.dropped
    case AtSecond(lo, hi, ret) => th.goal == {lo, hi} && ret == th.dropped
    case AtUnlock(this_, busiest) => th.goal == {this_, busiest} && !th.dropped
  }

  /** A lock is owned by the thread that holds it, and every thread is on course. */
  ghost predicate Inv(s: State) {
    && (forall a | a in s.owner :: s.owner[a] in s.threads && a in Held(s.threads[s.owner[a]].pc))
    && (forall t, a | t in s.threads && a in Held(s.threads[t].pc) :: a in s.owner && s.owner[a] == t)
    && (forall t | t in s.threads :: Ordered(s.threads[t].pc) && OnCourse(s.threads[t]))
  }

  lemma LockTaken(s: State, t: Tid, a: Lock, th: Thread)
    requires Inv(s) && t in s.threads && a !in s.owner
    requires Held(th.pc) == Held(s.threads[t].pc) + {a} && Ordered(th.pc) && OnCourse(th)
    ensures Inv(State(s.owner[a := t], s.threads[t := th]))
  {
    hide Held, Ordered, OnCourse;
  }

  lemma LockDropped(s: State, t: Tid, a: Lock, th: Thread)
    requires Inv(s) && t in s.threads && a in Held(s.threads[t].pc)
    requires Held(th.pc) == Held(s.threads[t].pc) - {a} && Ordered(th.pc) && OnCourse(th)
    ensures Inv(State(s.owner - {a}, s.threads[t := th]))
  {
    hide Held, Ordered, OnCourse;
    var r := State(s.owner - {a}, s.threads[t := th]);
    forall b | b in r.owner ensures r.owner[b] in r.threads && b in Held(r.threads[r.owner[b]].pc) {
      assert b in s.owner;
    }
    forall u, b | u in r.threads && b in Held(r.threads[u].pc) ensures b in r.owner && r.owner[b] == u {
      assert s.owner[a] == t;
      assert u != t ==> b in Held(s.threads[u].pc);
    }
  }

  lemma LocksKept(s: State, t: Tid, th: Thread)
    requires Inv(s) && t in s.threads
    requires Held(th.pc) == Held(s.threads[t].pc) && Ordered(th.pc) && OnCourse(th)
    ensures Inv(State(s.owner, s.threads[t := th]))
  {
    hide Held, Ordered, OnCourse;
  }

  lemma StepKeepsInv(s: State, t: Tid, op: Op)
    requires Inv(s) && Enabled(s, t, op)
    ensures Inv(Apply(s, t, op))
  {
    var th := s.threads[t];
    assert Ordered(th.pc) && OnCourse(th);
    var next := Apply(s, t, op).threads[t];
    match op
    case SpinLock(_) => LocksKept(s, t, next);
    case DoubleRqLock(_, _) => LocksKept(s, t, next);
    case DoubleLockBalance(busiest) =>
      if busiest in s.owner { LocksKept(s, t, next); } else { LockTaken(s, t, busiest, next); }
    case Acquire => LockTaken(s, t, Wanted(th.pc).value, next);
    case ReleaseThis => LockDropped(s, t, th.pc.this_, next);
    case Unlock(a) => LockDropped(s, t, a, next);
  }

  predicate AllFree(s: State) {
    s.owner == map[] && forall t | t in s.threads :: s.threads[t] == Thread(Holding({}), {}, false, false)
  }

  datatype Step = Step(t: Tid, op: Op)

  ghost predicate Runs(s: State, steps: seq<Step>)
    decreases |steps|
  {
    steps != [] ==> Enabled(s, steps[0].t, steps[0].op) && Runs(Apply(s, steps[0].t, steps[0].op), steps[1..])
  }

  ghost function Exec(s: State, steps: seq<Step>): State
    requires Runs(s, steps)
    decreases |steps|
  {
    if steps == [] then s else Exec(Apply(s, steps[0].t, steps[0].op), steps[1..])
  }

  lemma {:induction false} RunKeepsInv(s: State, steps: seq<Step>)
    requires Inv(s) && Runs(s, steps)
    ensures Inv(Exec(s, steps))
    decreases |steps|
  {
    if steps != [] {
      StepKeepsInv(s, steps[0].t, steps[0].op);
      RunKeepsInv(Apply(s, steps[0].t, steps[0].op), steps[1..]);
    }
  }

  /** Thread `t` spins on a lock that another thread owns. */
  ghost predicate Blocked(s: State, t: Tid) {
    t in s.threads && Wanted(s.threads[t].pc).Some? && Wanted(s.threads[t].pc).value in s.owner
  }

  /** The thread that a blocked thread waits for. */
  ghost function WaitsFor(s: State, t: Tid): Tid
    requires Blocked(s, t)
  {
    s.owner[Wanted(s.threads[t].pc).value]
  }

  /** A blocked thread holds only locks below the one it wants, although a trylock takes locks in any order. */
  lemma BlockedHoldsLower(s: State, t: Tid, a: Lock)
    requires Inv(s) && Blocked(s, t) && a in Held(s.threads[t].pc)
    ensures a < Wanted(s.threads[t].pc).value
  {
    assert Ordered(s.threads[t].pc);
  }

  /** So whoever it waits for, if blocked as well, wants a higher lock. */
  lemma WaitingClimbs(s: State, t: Tid)
    requires Inv(s) && Blocked(s, t)
    ensures WaitsFor(s, t) in s.threads && WaitsFor(s, t) != t
    ensures Blocked(s, WaitsFor(s, t)) ==>
              Wanted(s.threads[t].pc).value < Wanted(s.threads[WaitsFor(s, t)].pc).value
  {
    var u, a := WaitsFor(s, t), Wanted(s.threads[t].pc).value;
    assert a in Held(s.threads[u].pc);
    if Blocked(s, u) {
      BlockedHoldsLower(s, u, a);
    }
    if u == t {
      BlockedHoldsLower(s, t, a);
      assert false;
    }
  }

  ghost predicate Waits(s: State, t: Tid, u: Tid) {
    Blocked(s, t) && WaitsFor(s, t) == u
  }

  /** Each thread of the chain but the last waits for the next one. */
  ghost predicate Chain(s: State, chain: seq<Tid>) {
    forall i | 0 < i < |chain| :: Waits(s, chain[i - 1], chain[i])
  }

  /** The wait-for graph has no cycle: a chain of waiting never comes back to where it started. */
  lemma {:induction false} NoCycle(s: State, chain: seq<Tid>)
    requires Inv(s) && |chain| > 1 && Chain(s, chain) && Blocked(s, chain[|chain| - 1])
    ensures Blocked(s, chain[0]) && chain[0] != chain[|chain| - 1]
    ensures Wanted(s.threads[chain[0]].pc).value < Wanted(s.threads[chain[|chain| - 1]].pc).value
    decreases |chain|
  {
    assert Waits(s, chain[0], chain[1]);
    WaitingClimbs(s, chain[0]);
    if |chain| > 2 {
      var rest := chain[1..];
      forall i | 0 < i < |rest| ensures Waits(s, rest[i - 1], rest[i]) {
        assert Waits(s, chain[i], chain[i + 1]);
      }
      NoCycle(s, rest);
    }
  }

  /** The thread can go on with its call or give back a lock, without starting anything new. */
  ghost predicate CanFinish(s: State, t: Tid) {
    exists op :: Enabled(s, t, op) && (op.Acquire? || op.ReleaseThis? || op.Unlock?)
  }

  lemma UnblockedCanStep(s: State, t: Tid)
    requires t in s.threads && !Blocked(s, t) && Held(s.threads[t].pc) != {}
    ensures CanFinish(s, t)
  {
    var pc := s.threads[t].pc;
    match pc
    case Holding(locks) =>
      var a :| a in locks;
      assert Enabled(s, t, Unlock(a));
    case AtUnlock(_, _) => assert Enabled(s, t, ReleaseThis);
    case AtSecond(_, _, _) => assert Enabled(s, t, Acquire);
    case AtOnly(_) =>
    case AtFirst(_, _, _) =>
  }

  /** The threads that are blocked on a higher lock than `t`. */
  ghost function BlockedAbove(s: State, t: Tid): set<Tid>
    requires Blocked(s, t)
  {
    set v | v in s.threads && Blocked(s, v) && Wanted(s.threads[v].pc).value > Wanted(s.threads[t].pc).value
  }

  /**
   Whoever is blocked, following the owners leads to a thread that holds a lock and is not blocked:
   it can go on with its call, or give a lock back.
   */
  lemma {:induction false} SomeHolderCanStep(s: State, t: Tid) returns (u: Tid)
    requires Inv(s) && Blocked(s, t)
    ensures u in s.threads && !Blocked(s, u) && Held(s.threads[u].pc) != {}
    ensures CanFinish(s, u)
    decreases |BlockedAbove(s, t)|
  {
    u := WaitsFor(s, t);
    WaitingClimbs(s, t);
    assert Wanted(s.threads[t].pc).value in Held(s.threads[u].pc);
    if Blocked(s, u) {
      assert u in BlockedAbove(s, t) && u !in BlockedAbove(s, u);
      assert BlockedAbove(s, u) < BlockedAbove(s, t);
      Smaller(BlockedAbove(s, u), BlockedAbove(s, t));
      u := SomeHolderCanStep(s, u);
    } else {
      UnblockedCanStep(s, u);
    }
  }

  lemma Smaller(a: set<Tid>, b: set<Tid>)
    requires a < b
    ensures |a| < |b|
  {
    var x :| x in b && x !in a;
    assert |b - a| > 0;
    assert a + (b - a) == b;
  }

  ghost function OwnedBy(s: State, t: Tid): set<Lock> {
    set a | a in s.owner && s.owner[a] == t
  }

  /** Mutual exclusion: what a thread owns is what it holds, and no two threads hold the same lock. */
  lemma OwnedIsHeld(s: State, t: Tid, u: Tid)
    requires Inv(s) && t in s.threads && u in s.threads
    ensures OwnedBy(s, t) == Held(s.threads[t].pc)
    ensures t != u ==> Held(s.threads[t].pc) !! Held(s.threads[u].pc)
  {
  }

  /**
   From a call until its return, whatever the other threads do, the goal of the call stays; at the
   return exactly the locks of the goal are owned, and the result says whether one was let go of.
   */
  lemma {:induction false} CallReachesGoal(s: State, t: Tid, steps: seq<Step>)
    requires Inv(s) && t in s.threads && Runs(s, steps)
    requires forall k | 0 <= k < |steps| && steps[k].t == t :: steps[k].op == Acquire || steps[k].op == ReleaseThis
    ensures var r := Exec(s, steps);
            && t in r.threads && r.threads[t].goal == s.threads[t].goal
            && (r.threads[t].pc.Holding? ==>
                  OwnedBy(r, t) == s.threads[t].goal && r.threads[t].ret == r.threads[t].dropped)
    decreases |steps|
  {
    if steps == [] {
      OwnedIsHeld(s, t, t);
    } else {
      var next := Apply(s, steps[0].t, steps[0].op);
      StepKeepsInv(s, steps[0].t, steps[0].op);
      assert next.threads[t].goal == s.threads[t].goal;
      CallReachesGoal(next, t, steps[1..]);
    }
  }

  /** Every lock that a call lets go of, other than by an unlock, is recorded until the next call of that thread. */
  lemma LossIsRecorded(s: State, t: Tid, op: Op, u: Tid)
    requires Inv(s) && Enabled(s, t, op) && u in s.threads
    ensures var r := Apply(s, t, op);
            && u in r.threads
            && (!(Held(s.threads[u].pc) <= Held(r.threads[u].pc)) ==>
                  u == t && (op.Unlock? || r.threads[u].dropped))
            && (u != t || op.Acquire? || op.Unlock? ==> r.threads[u].dropped == s.threads[u].dropped)
            && (u == t && (op.DoubleLockBalance? || op.DoubleRqLock? || op.SpinLock?) ==> !r.threads[u].dropped)
  {
    assert OnCourse(s.threads[u]) && OnCourse(s.threads[t]);
  }

  /** `double_rq_lock` aims at its two runqueues, and `double_lock_balance` at `this_rq` and the other. */
  lemma CallsAimAtBoth(s: State, t: Tid, rq1: Lock, rq2: Lock)
    requires Inv(s)
    ensures Enabled(s, t, DoubleRqLock(rq1, rq2)) ==>
              Apply(s, t, DoubleRqLock(rq1, rq2)).threads[t].goal == {rq1, rq2}
    ensures Enabled(s, t, DoubleLockBalance(rq2)) && s.threads[t].pc == Holding({rq1}) ==>
              Apply(s, t, DoubleLockBalance(rq2)).threads[t].goal == {rq1, rq2}
  {
  }

  lemma AllFreeHasInv(s: State)
    requires AllFree(s)
    ensures Inv(s)
  {
  }

  /** A thread that holds a lock, waits for none, and can go on with its call or give a lock back. */
  ghost predicate FreeHolder(s: State, u: Tid) {
    u in s.threads && !Blocked(s, u) && Held(s.threads[u].pc) != {} && CanFinish(s, u)
  }

  /**
   No deadlock: in every state that any number of threads can reach, no chain of waiting comes back
   to its start, and whenever a thread is blocked some holder of a lock can step.
   */
  lemma NoDeadlock(s0: State, steps: seq<Step>)
    requires AllFree(s0) && Runs(s0, steps)
    ensures forall chain | |chain| > 1 && Chain(Exec(s0, steps), chain) :: chain[0] != chain[|chain| - 1]
    ensures (exists t :: Blocked(Exec(s0, steps), t)) ==> exists u :: FreeHolder(Exec(s0, steps), u)
  {
    AllFreeHasInv(s0);
    RunKeepsInv(s0, steps);
    var s := Exec(s0, steps);
    hide Exec, Runs, Inv;
    forall chain | |chain| > 1 && Chain(s, chain) ensures chain[0] != chain[|chain| - 1] {
      assert Waits(s, chain[0], chain[1]);
      if Blocked(s, chain[|chain| - 1]) {
        NoCycle(s, chain);
      }
    }
    if t :| Blocked(s, t) {
      var u := SomeHolderCanStep(s, t);
      assert FreeHolder(s, u);
    }
  }
}
