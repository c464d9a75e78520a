/**
 Completions and the exclusive wait queue under them. A wait is split where `do_wait_for_common`
 drops the lock of the queue; a wakeup scan is split between waiters, because `try_to_wake_up`
 holds only a runqueue lock and waiters keep going to sleep and being woken meanwhile.
 */
module Completions {
  import opened Common
  import opened Words

  const ERESTARTSYS := 512
  const MAX_SCHEDULE_TIMEOUT := 0x7FFF_FFFF
  const UINT_MAX := ULONG_RANGE - 1

  /**
   A queued waiter is `Committed` once it has set its state and released the lock but is still on
   its runqueue, `Asleep` once it is off it, and `Woken` when its state is `TASK_RUNNING` again.
   */
  datatype Status = Committed | Asleep | Woken

  /** A queue entry, with the timeout the wait was called with and what is left of it. */
  datatype Waiter = Waiter(initial: int, timeout: int, interruptible: bool, status: Status)

  /**
   A wait that has returned, with the time it had left; `took` says that it decremented `done`,
   `atHand` that it was positive at the call.
   */
  datatype Return = Return(initial: int, interruptible: bool, atHand: bool, took: bool, left: int, value: int)

  /** The lock of the queue is free, or a completer holds it and is about to wake waiter `next`. */
  datatype Scan = Idle | Waking(next: nat, all: bool)

  datatype State = State(done: nat, queue: seq<Waiter>, scan: Scan, posted: nat, log: seq<Return>)

  datatype Action =
    | Enter(timeout: int, interruptible: bool, signal: bool)
    | Deschedule(i: nat)                                // schedule() takes the waiter off its runqueue
    | Wake(i: nat)                                      // a timer, a signal or any stray wakeup
    | Resume(i: nat, remaining: int, signal: bool)      // schedule_timeout() returned; lock taken again
    | Complete
    | CompleteAll
    | ScanNext
    | TryWait

  const Initial := State(0, [], Idle, 0, [])

  /** What `schedule_timeout` may return. */
  predicate Remains(timeout: int, remaining: int) {
    if timeout == MAX_SCHEDULE_TIMEOUT then remaining == timeout
    else if timeout <= 0 then remaining == 0
    else 0 <= remaining <= timeout
  }

  predicate Enabled(s: State, a: Action) {
    match a
    case Enter(timeout, interruptible, signal) =>
      s.scan.Idle? && -ULONG_RANGE / 2 <= timeout < ULONG_RANGE / 2 && (signal ==> interruptible)
    case Deschedule(i) => i < |s.queue| && s.queue[i].status.Committed?
    case Wake(i) => i < |s.queue|
    case Resume(i, remaining, signal) =>
      && s.scan.Idle? && i < |s.queue| && s.queue[i].status.Woken?
      && Remains(s.queue[i].timeout, remaining) && (signal ==> s.queue[i].interruptible)
    case Complete => s.scan.Idle?
    case CompleteAll => s.scan.Idle?
    case ScanNext => s.scan.Waking? && s.scan.next <= |s.queue|
    case TryWait => s.scan.Idle?
  }

  function WithStatus(queue: seq<Waiter>, i: nat, status: Status): seq<Waiter>
    requires i < |queue|
  {
    queue[i := queue[i].(status := status)]
  }

  function Without(queue: seq<Waiter>, i: nat): seq<Waiter>
    requires i < |queue|
  {
    queue[..i] + queue[i + 1..]
  }

  /** The value `timeout ?: 1`. */
  function OrOne(timeout: int): int {
    if timeout == 0 then 1 else timeout
  }

  function Apply(s: State, a: Action): State
    requires Enabled(s, a)
  {
    match a
    case Enter(timeout, interruptible, signal) =>
      if s.done > 0 then
        s.(done := s.done - 1, log := s.log + [Return(timeout, interruptible, true, true, timeout, OrOne(timeout))])
      else if signal then s.(log := s.log + [Return(timeout, interruptible, false, false, timeout, -ERESTARTSYS)])
      else s.(queue := s.queue + [Waiter(timeout, timeout, interruptible, Committed)])
    case Deschedule(i) => s.(queue := WithStatus(s.queue, i, Asleep))
    case Wake(i) => s.(queue := WithStatus(s.queue, i, Woken))
    case Resume(i, remaining, signal) =>
      var w := s.queue[i];
      if s.done > 0 then
        s.(done := s.done - 1, queue := Without(s.queue, i),
           log := s.log + [Return(w.initial, w.interruptible, false, true, remaining, OrOne(remaining))])
      else if remaining == 0 then
        s.(queue := Without(s.queue, i), log := s.log + [Return(w.initial, w.interruptible, false, false, 0, 0)])
      else if signal then
        s.(queue := Without(s.queue, i),
           log := s.log + [Return(w.initial, w.interruptible, false, false, remaining, -ERESTARTSYS)])
      else s.(queue := s.queue[i := w.(timeout := remaining, status := Committed)])
    case Complete => s.(done := Wrap32(s.done + 1), posted := s.posted + 1, scan := Waking(0, false))
    case CompleteAll =>
      s.(done := Wrap32(s.done + UINT_MAX / 2), posted := s.posted + UINT_MAX / 2, scan := Waking(0, true))
    case ScanNext =>
      var i := s.scan.next;
      if i == |s.queue| then s.(scan := Idle)
      else
        // try_to_wake_up() reports a wakeup only for a task that was off its runqueue.
        var woke := s.queue[i].status.Asleep?;
        s.(queue := WithStatus(s.queue, i, Woken),
           scan := if woke && !s.scan.all then Idle else s.scan.(next := i + 1))
    case TryWait => if s.done > 0 then s.(done := s.done - 1, log := s.log + [TryReturn(true)])
                    else s.(log := s.log + [TryReturn(false)])
  }

  function TryReturn(took: bool): Return {
    Return(0, false, took, took, 0, if took then 1 else 0)
  }

  ghost function Awake(queue: seq<Waiter>): nat {
    if queue == [] then 0 else (if queue[0].status.Woken? then 1 else 0) + Awake(queue[1..])
  }

  ghost function Taken(log: seq<Return>): nat {
    if log == [] then 0 else Taken(log[..|log| - 1]) + if log[|log| - 1].took then 1 else 0
  }

  /** As many queued waiters are awake as there are tokens for, `owed` excepted. */
  ghost predicate Served(s: State, owed: nat) {
    Min(s.done, |s.queue|) <= Awake(s.queue) + owed
  }

  ghost predicate WakeupsKept(s: State) {
    match s.scan
    case Idle => Served(s, 0)
    case Waking(next, all) =>
      && next <= |s.queue| && (forall i | 0 <= i < next :: s.queue[i].status.Woken?)
      && (!all ==> Served(s, 1))
  }

  /** Every token taken was posted; the counter holds the others, modulo the width of `done`. */
  ghost predicate TokensKept(s: State) {
    Taken(s.log) <= s.posted && s.done == Wrap32(s.posted - Taken(s.log))
  }

  predicate Tracked(w: Waiter) {
    && (w.initial == MAX_SCHEDULE_TIMEOUT ==> w.timeout == w.initial)
    && (0 <= w.initial ==> 0 <= w.timeout <= w.initial)
    && (w.initial < 0 ==> w.timeout == w.initial)
  }

  predicate Honest(r: Return) {
    && (r.atHand ==> r.took && r.left == r.initial)
    && (0 <= r.initial ==> 0 <= r.left <= r.initial)
    && (r.took ==> r.value == if r.left == 0 then 1 else r.left)
    && (!r.atHand ==> (r.took <==> r.value > 0))
    && (!r.took ==> r.value == 0 || (r.value == -ERESTARTSYS && r.interruptible))
    && (!r.took && r.value == 0 ==> r.left == 0 && r.initial != MAX_SCHEDULE_TIMEOUT)
  }

  ghost predicate Inv(s: State) {
    && WakeupsKept(s) && TokensKept(s)
    && (forall w | w in s.queue :: Tracked(w)) && (forall r | r in s.log :: Honest(r))
  }

  ghost predicate Runs(s: State, actions: seq<Action>)
    decreases |actions|
  {
    actions != [] ==> Enabled(s, actions[0]) && Runs(Apply(s, actions[0]), actions[1..])
  }

  ghost function Exec(s: State, actions: seq<Action>): State
    requires Runs(s, actions)
    decreases |actions|
  {
    if actions == [] then s else Exec(Apply(s, actions[0]), actions[1..])
  }

  lemma {:induction false} AwakeBound(queue: seq<Waiter>)
    ensures Awake(queue) <= |queue|
    ensures (forall i | 0 <= i < |queue| :: queue[i].status.Woken?) ==> Awake(queue) == |queue|
  {
    if queue != [] {
      AwakeBound(queue[1..]);
    }
  }

  lemma {:induction false} AwakeParts(p: seq<Waiter>, q: seq<Waiter>)
    ensures Awake(p + q) == Awake(p) + Awake(q)
  {
    if p == [] {
      assert p + q == q;
    } else {
      assert (p + q)[1..] == p[1..] + q;
      AwakeParts(p[1..], q);
    }
  }

  lemma AwakeAt(queue: seq<Waiter>, i: nat, w: Waiter)
    requires i < |queue|
    ensures var one := if queue[i].status.Woken? then 1 else 0;
            && Awake(queue[i := w]) == Awake(queue) - one + (if w.status.Woken? then 1 else 0)
            && Awake(Without(queue, i)) == Awake(queue) - one
  {
    var p, q := queue[..i], queue[i + 1..];
    assert queue == p + ([queue[i]] + q) && queue[i := w] == p + ([w] + q);
    AwakeParts(p, [queue[i]] + q);
    AwakeParts(p, [w] + q);
    AwakeParts(p, q);
    assert Awake([queue[i]] + q) == Awake([queue[i]]) + Awake(q) by { AwakeParts([queue[i]], q); }
    assert Awake([w] + q) == Awake([w]) + Awake(q) by { AwakeParts([w], q); }
  }

  lemma TakenNext(log: seq<Return>, r: Return)
    ensures Taken(log + [r]) == Taken(log) + if r.took then 1 else 0
  {
    assert (log + [r])[..|log|] == log;
  }

  /** A step that changes one waiter, or takes one away, moves the count of those awake by that one. */
  lemma StepKeepsWakeups(s: State, a: Action)
    requires WakeupsKept(s) && Enabled(s, a)
    ensures WakeupsKept(Apply(s, a))
  {
    AwakeBound(s.queue);
    hide Awake, Remains;
    match a
    case Enter(timeout, interruptible, signal) =>
      AwakeParts(s.queue, [Waiter(timeout, timeout, interruptible, Committed)]);
    case Deschedule(i) => AwakeAt(s.queue, i, s.queue[i].(status := Asleep));
    case Wake(i) => AwakeAt(s.queue, i, s.queue[i].(status := Woken));
    case Resume(i, remaining, signal) => AwakeAt(s.queue, i, s.queue[i].(timeout := remaining, status := Committed));
    case ScanNext => ScanKeepsWakeups(s);
    case _ =>
  }

  lemma ScanKeepsWakeups(s: State)
    requires WakeupsKept(s) && Enabled(s, ScanNext)
    ensures WakeupsKept(Apply(s, ScanNext))
  {
    AwakeBound(s.queue);
    var i := s.scan.next;
    if i < |s.queue| {
      var w := s.queue[i].(status := Woken);
      AwakeAt(s.queue, i, w);
      hide Awake;
      var queue := s.queue[i := w];
      assert forall j | 0 <= j <= i :: queue[j].status.Woken?;
    }
  }

  lemma TokenArith(posted: nat, taken: nat, n: nat)
    requires taken <= posted
    ensures Wrap32(Wrap32(posted - taken) + n) == Wrap32(posted + n - taken)
    ensures Wrap32(posted - taken) > 0 ==> taken < posted && Wrap32(posted - taken) - 1 == Wrap32(posted - (taken + 1))
  {
  }

  /** A step posts tokens, or logs a return that takes at most the one it says it took, or does neither. */
  lemma StepMovesTokens(s: State, a: Action)
    requires Enabled(s, a)
    ensures var t := Apply(s, a);
            || (t.log == s.log && s.posted <= t.posted && t.done == Wrap32(s.done + (t.posted - s.posted)))
            || (t.log == s.log && t.posted == s.posted && t.done == s.done)
            || (t.posted == s.posted && |t.log| == |s.log| + 1 && t.log == s.log + [t.log[|s.log|]]
                && (t.log[|s.log|].took ==> s.done > 0) && t.done == s.done - One(t.log[|s.log|].took))
  {
    hide Wrap32;
  }

  function One(b: bool): nat {
    if b then 1 else 0
  }

  lemma StepKeepsTokens(s: State, a: Action)
    requires TokensKept(s) && Enabled(s, a)
    ensures TokensKept(Apply(s, a))
  {
    var t := Apply(s, a);
    StepMovesTokens(s, a);
    hide Apply, Enabled, Taken, Wrap32;
    if t.log != s.log {
      TokenArith(s.posted, Taken(s.log), 0);
      TakenNext(s.log, t.log[|s.log|]);
    } else if t.posted >= s.posted {
      TokenArith(s.posted, Taken(s.log), t.posted - s.posted);
    }
  }

  lemma Elements(queue: seq<Waiter>, i: nat, x: Waiter)
    requires i < |queue|
    ensures queue[i] in queue && forall w | w in queue[i := x] :: w == x || w in queue
    ensures forall w | w in Without(queue, i) :: w in queue
  {
  }

  lemma StepKeepsReturns(s: State, a: Action)
    requires Enabled(s, a) && (forall w | w in s.queue :: Tracked(w)) && (forall r | r in s.log :: Honest(r))
    ensures forall w | w in Apply(s, a).queue :: Tracked(w)
    ensures forall r | r in Apply(s, a).log :: Honest(r)
  {
    match a
    case Deschedule(i) => Elements(s.queue, i, s.queue[i].(status := Asleep));
    case Wake(i) => Elements(s.queue, i, s.queue[i].(status := Woken));
    case Resume(i, remaining, signal) =>
      Elements(s.queue, i, s.queue[i].(timeout := remaining, status := Committed));
    case ScanNext =>
      if s.scan.next < |s.queue| {
        Elements(s.queue, s.scan.next, s.queue[s.scan.next].(status := Woken));
      }
    case _ =>
  }

  lemma StepKeepsInv(s: State, a: Action)
    requires Inv(s) && Enabled(s, a)
    ensures Inv(Apply(s, a))
  {
    hide *;
    assert WakeupsKept(s) && TokensKept(s) by { InvParts(s); }
    InvParts(s);
    StepKeepsWakeups(s, a);
    StepKeepsTokens(s, a);
    StepKeepsReturns(s, a);
    InvParts(Apply(s, a));
  }

  lemma InvParts(s: State)
    ensures Inv(s) <==> WakeupsKept(s) && TokensKept(s)
                        && (forall w | w in s.queue :: Tracked(w)) && (forall r | r in s.log :: Honest(r))
  {
    hide WakeupsKept, TokensKept, Tracked, Honest;
  }

  lemma {:induction false} RunKeepsInv(s: State, actions: seq<Action>)
    requires Inv(s) && Runs(s, actions)
    ensures Inv(Exec(s, actions))
    decreases |actions|
  {
    if actions != [] {
      StepKeepsInv(s, actions[0]);
      RunKeepsInv(Apply(s, actions[0]), actions[1..]);
    }
  }

  /** What a reachable state promises. */
  lemma ReachableStates(actions: seq<Action>)
    requires Runs(Initial, actions)
    ensures var s := Exec(Initial, actions);
            && Inv(s)
            && (s.scan.Idle? && (exists i :: 0 <= i < |s.queue| && !s.queue[i].status.Woken?) ==>
                  s.done <= Awake(s.queue))
            && (s.scan.Idle? && s.done > 0 && s.queue != [] ==>
                  exists i :: 0 <= i < |s.queue| && s.queue[i].status.Woken?)
            && (s.done == s.posted - Taken(s.log) <==> s.posted - Taken(s.log) < ULONG_RANGE)
  {
    assert Inv(Initial);
    RunKeepsInv(Initial, actions);
    var s := Exec(Initial, actions);
    hide Exec, Runs;
    AwakeBound(s.queue);
    if exists i :: 0 <= i < |s.queue| && !s.queue[i].status.Woken? {
      SomeAsleep(s.queue);
    }
    SomeAwake(s.queue);
  }

  lemma {:induction false} SomeAsleep(queue: seq<Waiter>)
    requires exists i :: 0 <= i < |queue| && !queue[i].status.Woken?
    ensures Awake(queue) < |queue|
  {
    AwakeBound(queue[1..]);
    if queue[0].status.Woken? {
      var i :| 0 <= i < |queue| && !queue[i].status.Woken?;
      assert queue[1..][i - 1] == queue[i];
      SomeAsleep(queue[1..]);
    }
  }

  lemma {:induction false} SomeAwake(queue: seq<Waiter>)
    ensures Awake(queue) > 0 ==> exists i :: 0 <= i < |queue| && queue[i].status.Woken?
  {
    if queue != [] {
      SomeAwake(queue[1..]);
      if queue[0].status.Woken? {
      } else if Awake(queue[1..]) > 0 {
        var i :| 0 <= i < |queue[1..]| && queue[1..][i].status.Woken?;
        assert queue[i + 1].status.Woken?;
      }
    }
  }

  /**
   In every run a wait that returns took a token if and only if its result is positive, unless a
   token was at hand and the timeout was negative: then the result is that timeout, and the token
   is gone. Nothing else is returned without a token than 0 and -ERESTARTSYS, and an
   uninterruptible wait without a timeout always brings one. With a token the result is the time
   left, which is 1 if there is none and never more than the timeout.
   */
  lemma PositiveIffTaken(actions: seq<Action>, r: Return)
    requires Runs(Initial, actions) && r in Exec(Initial, actions).log
    ensures (r.value > 0 <==> r.took) <==> !(r.atHand && r.initial < 0)
    ensures !r.took ==> r.value == 0 || (r.interruptible && r.value == -ERESTARTSYS)
    ensures r.initial == MAX_SCHEDULE_TIMEOUT && !r.interruptible ==> r.took
    ensures r.took ==> r.value == if r.left == 0 then 1 else r.left
    ensures 0 <= r.initial ==> 0 <= r.left <= r.initial
  {
    assert Inv(Initial);
    RunKeepsInv(Initial, actions);
    assert Honest(r);
  }

  /**
   Seen from the call: when it returns at once, its result is positive if and only if it took a
   token, unless there was one and the timeout is negative.
   */
  lemma EnterPositiveIffTaken(s: State, timeout: int, interruptible: bool, signal: bool)
    requires Enabled(s, Enter(timeout, interruptible, signal)) && (s.done > 0 || signal)
    ensures var t := Apply(s, Enter(timeout, interruptible, signal));
            && |t.log| == |s.log| + 1 && t.log[..|s.log|] == s.log
            && var r := t.log[|s.log|];
               && r.took == (t.done == s.done - 1) && r.atHand == (s.done > 0)
               && ((r.value > 0 <==> r.took) <==> !(s.done > 0 && timeout < 0))
  {
  }

  /**
   A waiter that goes on leaves with the time that `schedule_timeout` left it, and only with a token,
   without time or for a signal.
   */
  lemma ResumeOutcome(s: State, i: nat, remaining: int, signal: bool)
    requires Enabled(s, Resume(i, remaining, signal))
    ensures var t := Apply(s, Resume(i, remaining, signal));
            if s.done == 0 && remaining != 0 && !signal then
              t.log == s.log && t.done == 0 && |t.queue| == |s.queue| && t.queue[i].timeout == remaining
            else
              && |t.log| == |s.log| + 1 && t.log[..|s.log|] == s.log && |t.queue| == |s.queue| - 1
              && var r := t.log[|s.log|];
                 && r.left == remaining && r.initial == s.queue[i].initial
                 && (s.done > 0 ==> r.took && t.done == s.done - 1)
                 && (s.done == 0 ==> !r.took && t.done == 0 && r.value == if remaining == 0 then 0 else -ERESTARTSYS)
  {
  }

  /** A negative timeout is reachable and takes a token while returning a negative value. */
  lemma NegativeTimeoutTakesToken()
    ensures var actions := [Complete, ScanNext, Enter(-ERESTARTSYS, true, false)];
            Runs(Initial, actions) && Exec(Initial, actions).done == 0
            && Exec(Initial, actions).log == [Return(-ERESTARTSYS, true, true, true, -ERESTARTSYS, -ERESTARTSYS)]
  {
    var s1 := Apply(Initial, Complete);
    var s2 := Apply(s1, ScanNext);
    var all, last := [Complete, ScanNext, Enter(-ERESTARTSYS, true, false)], [Enter(-ERESTARTSYS, true, false)];
    assert all[1..][1..] == last && last[1..] == [] && all[0] == Complete && all[1..][0] == ScanNext;
    var s3 := Apply(s2, last[0]);
    assert Runs(s3, []) && Exec(s3, []) == s3;
    assert Runs(s2, last) && Exec(s2, last) == s3;
    assert Runs(s1, all[1..]) && Exec(s1, all[1..]) == s3;
    assert Runs(Initial, all) && Exec(Initial, all) == s3;
  }

  /** A scan that nothing interrupts. */
  ghost function Finish(s: State): State
    requires s.scan.Waking? ==> s.scan.next <= |s.queue|
    decreases if s.scan.Waking? then |s.queue| + 1 - s.scan.next else 0
  {
    if s.scan.Idle? then s else Finish(Apply(s, ScanNext))
  }

  /** It is one of the runs of the scan. */
  lemma {:induction false} FinishIsRun(s: State) returns (steps: seq<Action>)
    requires s.scan.Waking? ==> s.scan.next <= |s.queue|
    ensures Runs(s, steps) && Exec(s, steps) == Finish(s) && Finish(s).scan.Idle?
    ensures forall a | a in steps :: a == ScanNext
    decreases if s.scan.Waking? then |s.queue| + 1 - s.scan.next else 0
  {
    steps := [];
    if s.scan.Waking? {
      var rest := FinishIsRun(Apply(s, ScanNext));
      steps := [ScanNext] + rest;
      assert steps[1..] == rest;
    }
  }

  /**
   It makes every waiter up to the first sleeping one runnable and leaves those behind it alone;
   all of them are made runnable when none sleeps, or when all are to be woken.
   */
  lemma {:induction false} FinishWakesFirstSleeper(s: State)
    requires s.scan.Waking? && s.scan.next <= |s.queue|
    ensures Finish(s) == s.(scan := Idle, queue := Finish(s).queue) && |Finish(s).queue| == |s.queue|
    ensures forall i | 0 <= i < |s.queue| ::
              Finish(s).queue[i] ==
              if i >= s.scan.next && (s.scan.all || forall j | s.scan.next <= j < i :: !s.queue[j].status.Asleep?)
              then s.queue[i].(status := Woken) else s.queue[i]
    decreases |s.queue| + 1 - s.scan.next
  {
    var t := Apply(s, ScanNext);
    if t.scan.Waking? {
      FinishWakesFirstSleeper(t);
    }
  }

  /**
   `complete_all` wakes every queued waiter and leaves a token for each, up to 2^31 - 1 of them, as
   long as the counter does not wrap.
   */
  lemma CompleteAllServesAll(s: State)
    requires s.scan.Idle? && |s.queue| <= 0x7FFF_FFFF && s.done + 0x7FFF_FFFF < ULONG_RANGE
    ensures var r := Finish(Apply(s, CompleteAll));
            && |r.queue| == |s.queue| <= r.done && r.done == s.done + 0x7FFF_FFFF && r.posted == s.posted + 0x7FFF_FFFF
            && forall i | 0 <= i < |r.queue| :: r.queue[i].status.Woken?
  {
    FinishWakesFirstSleeper(Apply(s, CompleteAll));
    hide Finish;
  }

  /** `complete` posts one token and wakes the first sleeper in the queue, if there is one. */
  lemma CompleteServesOne(s: State, i: nat)
    requires s.scan.Idle? && s.done + 1 < ULONG_RANGE
    requires i < |s.queue| && s.queue[i].status.Asleep? && forall j | 0 <= j < i :: !s.queue[j].status.Asleep?
    ensures var r := Finish(Apply(s, Complete));
            && r.done == s.done + 1 && r.posted == s.posted + 1 && |r.queue| == |s.queue|
            && r.queue[i].status.Woken? && forall j | i < j < |s.queue| :: r.queue[j] == s.queue[j]
  {
    FinishWakesFirstSleeper(Apply(s, Complete));
    hide Finish;
  }

  class Completion {
    var done: nat
    var wait: seq<Waiter>
    ghost var posted: nat
    ghost var log: seq<Return>

    constructor ()
      ensures View(Idle) == Initial
    {
      done, wait, posted, log := 0, [], 0, [];
    }

    ghost function View(scan: Scan): State
      reads this
    {
      State(done, wait, scan, posted, log)
    }

    /** `try_to_wake_up` on a queued waiter. */
    method TryToWakeUp(i: nat) returns (success: bool)
      requires i < |wait|
      modifies this`wait
      ensures wait == old(WithStatus(wait, i, Woken)) && success == old(wait[i].status.Asleep?)
    {
      if wait[i].status.Woken? {
        return false;
      }
      success := wait[i].status.Asleep?;
      wait := WithStatus(wait, i, Woken);
    }

    /** `__wake_up_common` over exclusive waiters; a count of zero never runs out. */
    method WakeUpCommon(nr_exclusive: int)
      requires nr_exclusive == 0 || nr_exclusive == 1
      modifies this`wait
      ensures View(Idle) == Finish(old(View(Waking(0, nr_exclusive == 0))))
    {
      var nr, i := nr_exclusive, 0;
      while i < |wait|
        invariant i <= |wait| && (if nr_exclusive == 0 then nr <= 0 else nr == 1)
        invariant Finish(View(Waking(i, nr_exclusive == 0))) == Finish(old(View(Waking(0, nr_exclusive == 0))))
      {
        var success := TryToWakeUp(i);
        if success {
          nr := nr - 1;
          if nr == 0 {
            return;
          }
        }
        i := i + 1;
      }
    }

    method Complete()
      modifies this
      ensures View(Idle) == Finish(Apply(old(View(Idle)), Action.Complete))
    {
      done := Wrap32(done + 1);
      posted := posted + 1;
      WakeUpCommon(1);
    }

    method CompleteAll()
      modifies this
      ensures View(Idle) == Finish(Apply(old(View(Idle)), Action.CompleteAll))
    {
      done := Wrap32(done + UINT_MAX / 2);
      posted := posted + UINT_MAX / 2;
      WakeUpCommon(0);
    }

    /** `do_wait_for_common` up to its return or to the first `schedule_timeout`. */
    method StartWait(timeout: int, interruptible: bool, signal: bool) returns (r: Option<int>)
      requires Enabled(View(Idle), Enter(timeout, interruptible, signal))
      modifies this
      ensures View(Idle) == Apply(old(View(Idle)), Enter(timeout, interruptible, signal))
      ensures r == if log == old(log) then None else Some(log[|old(log)|].value)
    {
      if done == 0 {
        if signal {
          log := log + [Return(timeout, interruptible, false, false, timeout, -ERESTARTSYS)];
          return Some(-ERESTARTSYS);
        }
        wait := wait + [Waiter(timeout, timeout, interruptible, Committed)];
        return None;
      }
      done := done - 1;
      log := log + [Return(timeout, interruptible, true, true, timeout, OrOne(timeout))];
      return Some(OrOne(timeout));
    }

    /** `do_wait_for_common` from a return of `schedule_timeout` to its own return or to the next one. */
    method ResumeWait(i: nat, remaining: int, signal: bool) returns (r: Option<int>)
      requires Enabled(View(Idle), Resume(i, remaining, signal))
      modifies this
      ensures View(Idle) == Apply(old(View(Idle)), Resume(i, remaining, signal))
      ensures r == if log == old(log) then None else Some(log[|old(log)|].value)
    {
      var timeout, w := remaining, wait[i];
      if done == 0 && timeout != 0 {
        if !signal {
          wait := wait[i := w.(timeout := timeout, status := Committed)];
          return None;
        }
        timeout := -ERESTARTSYS;
      }
      wait := Without(wait, i);
      if done == 0 {
        log := log + [Return(w.initial, w.interruptible, false, false, remaining, timeout)];
        return Some(timeout);
      }
      done := done - 1;
      log := log + [Return(w.initial, w.interruptible, false, true, remaining, OrOne(timeout))];
      return Some(OrOne(timeout));
    }

    method TryWaitForCompletion() returns (ret: bool)
      modifies this
      ensures View(Idle) == Apply(old(View(Idle)), TryWait) && ret == (old(done) > 0)
    {
      ret := true;
      if done == 0 {
        ret := false;
      } else {
        done := done - 1;
      }
      log := log + [TryReturn(ret)];
    }
  }
}
