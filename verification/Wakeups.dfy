/**
 What the actions of `Accounting` do to the tasks themselves: a wakeup ends with a task that is
 runnable and stays so, and nothing but its wakeup makes a sleeping task runnable.
 */
module Wakeups {
  import opened Words
  import opened Accounting

  predicate Runnable(s: State, p: Tid) {
    p in s.task && s.task[p].state.Running? && s.task[p].onRq
  }

  predicate Waiting(s: State, p: Tid) {
    p in s.task && s.task[p].state.Waking? && !s.task[p].onRq
  }

  /** The action completes a wakeup of `p`. */
  predicate Wakes(a: Action, p: Tid) {
    a == WakeQueued(p) || a == WakeRunning(p) || a == WakeActivate(p)
  }

  /** The actions that are about the task `p`. */
  predicate Concerns(a: Action, p: Tid) {
    match a
    case MoveUninterruptible(_, _) => false
    case AccountActive(_) => false
    case RemoveLoad(_) => false
    case _ => a.p == p
  }

  lemma OthersAreLeft(s: State, a: Action, q: Tid)
    requires Shaped(s) && Enabled(s, a) && !Concerns(a, q)
    ensures q in Apply(s, a).task <==> q in s.task
    ensures q in s.task ==> Apply(s, a).task[q] == s.task[q]
  {
    hide Queued, Wrap32, Signed32;
  }

  /** After a wakeup the task is runnable where it was, and cannot go to sleep before it says so itself. */
  lemma WokenIsRunnable(s: State, a: Action, p: Tid)
    requires Shaped(s) && Enabled(s, a) && Wakes(a, p)
    ensures var t := Apply(s, a);
            && Runnable(t, p) && !Enabled(t, Sleep(p)) && t.task[p].cpu == s.task[p].cpu
            && !Enabled(t, WakeActivate(p)) && !Enabled(t, WakeRunning(p)) && !Enabled(t, WakeUnlock(p))
  {
    hide Queued, Wrap32, Signed32;
  }

  /** Every action that is not the task's own change of state leaves it runnable. */
  lemma StepStaysRunnable(s: State, a: Action, p: Tid)
    requires Shaped(s) && Enabled(s, a) && Runnable(s, p) && !(a.SetState? && a.p == p)
    ensures Runnable(Apply(s, a), p) && a != Sleep(p)
  {
    hide Queued, Wrap32, Signed32;
    if !Concerns(a, p) {
      OthersAreLeft(s, a, p);
    }
  }

  /** In every run: until it sets its state again, a task that was woken does not go to sleep. */
  lemma {:induction false} WokenStaysAwake(s: State, actions: seq<Action>, p: Tid)
    requires Runs(s, actions) && Runnable(s, p)
    requires forall k | 0 <= k < |actions| :: !(actions[k].SetState? && actions[k].p == p)
    ensures Runnable(Exec(s, actions), p)
    ensures forall k | 0 <= k < |actions| :: actions[k] != Sleep(p)
    decreases |actions|
  {
    hide Shaped, Enabled, Apply, Runnable;
    if actions != [] {
      StepStaysRunnable(s, actions[0], p);
      WokenStaysAwake(Apply(s, actions[0]), actions[1..], p);
      assert forall k | 0 < k < |actions| :: actions[k] == actions[1..][k - 1];
    }
  }

  lemma StepStaysWaiting(s: State, a: Action, p: Tid)
    requires Shaped(s) && Enabled(s, a) && Waiting(s, p) && a != WakeActivate(p)
    ensures Waiting(Apply(s, a), p)
  {
    hide Queued, Wrap32, Signed32;
    if !Concerns(a, p) {
      OthersAreLeft(s, a, p);
    }
  }

  /** A task in TASK_WAKING stays off the runqueue, out of every other waker's reach, until it is activated. */
  lemma {:induction false} WaitsForActivation(s: State, actions: seq<Action>, p: Tid)
    requires Runs(s, actions) && Waiting(s, p) && WakeActivate(p) !in actions
    ensures Waiting(Exec(s, actions), p)
    ensures forall k | 0 <= k < |actions| :: !Wakes(actions[k], p) && actions[k] != WakeUnlock(p)
    decreases |actions|
  {
    hide Shaped, Apply;
    if actions != [] {
      StepStaysWaiting(s, actions[0], p);
      hide Enabled, Waiting;
      WaitsForActivation(Apply(s, actions[0]), actions[1..], p);
      assert forall k | 0 < k < |actions| :: actions[k] == actions[1..][k - 1];
    }
  }

  /** A wakeup in two phases: however the run goes on in between, it ends with the activation of that very task. */
  lemma TwoPhaseWakeup(s: State, between: seq<Action>, p: Tid)
    requires Shaped(s) && Enabled(s, WakeUnlock(p)) && Runs(Apply(s, WakeUnlock(p)), between)
    requires WakeActivate(p) !in between
    requires Shaped(Exec(Apply(s, WakeUnlock(p)), between))
    ensures var t := Exec(Apply(s, WakeUnlock(p)), between);
            && Waiting(t, p) && Enabled(t, WakeActivate(p))
            && Runnable(Apply(t, WakeActivate(p)), p)
  {
    hide Queued, Wrap32, Signed32, Runs, Exec;
    WaitsForActivation(Apply(s, WakeUnlock(p)), between, p);
  }

  /** A sleeper becomes runnable only by a wakeup: nothing else queues it or changes its state. */
  lemma OnlyWakeupsWake(s: State, a: Action, p: Tid)
    requires Shaped(s) && Enabled(s, a) && p in s.task && Asleep(s.task[p])
    ensures var t := Apply(s, a);
            && p in t.task
            && (a == WakeRunning(p) ==> Runnable(t, p))
            && (a == WakeUnlock(p) ==> Waiting(t, p))
            && (a != WakeRunning(p) && a != WakeUnlock(p) ==>
                  t.task[p].state == s.task[p].state && Asleep(t.task[p]))
  {
    hide Queued, Wrap32, Signed32;
    if !Concerns(a, p) {
      OthersAreLeft(s, a, p);
    }
  }

  /** Going to sleep takes a task off its runqueue in the state it set; new and moved tasks are where they should be. */
  lemma TasksMove(s: State, a: Action)
    requires Shaped(s) && Enabled(s, a)
    ensures a.SetState? ==> Apply(s, a).task[a.p] == s.task[a.p].(state := a.state)
    ensures a.Sleep? ==> Apply(s, a).task[a.p] == s.task[a.p].(onRq := false)
    ensures a.Fork? ==> Apply(s, a).task[a.p] == Task(Running, false, a.cpu)
    ensures a.WakeNew? ==> Runnable(Apply(s, a), a.p) && Apply(s, a).task[a.p].cpu == s.task[a.p].cpu
    ensures a.Pull? || a.Place? || a.WakePlace? ==> Apply(s, a).task[a.p] == s.task[a.p].(cpu := a.cpu)
    ensures a.Migrate? ==>
              Apply(s, a).task[a.p] == s.task[a.p].(cpu := if s.task[a.p].cpu == a.src then a.dest else s.task[a.p].cpu)
  {
    hide Queued, Wrap32, Signed32;
  }
}
