/**
 The counters behind the load averages: `nr_running`, the wrapping per-CPU `nr_uninterruptible` and
 `calc_load_tasks`, over every interleaving of sleeping, two-phase wakeup, forking, balancing,
 migrating and taking CPUs down. An action is one section under the runqueue locks.
 */
module Accounting {
  import opened Words

  type Cpu = nat
  type Tid = nat

  datatype TaskState = Running | Interruptible | Uninterruptible | Waking | Dead

  datatype Task = Task(state: TaskState, onRq: bool, cpu: Cpu)

  /** The counters of a runqueue; `nrUninterruptible` is an `unsigned long` that wraps. */
  datatype Rq = Rq(nrRunning: nat, nrUninterruptible: nat, calcLoadActive: int)

  datatype State = State(rq: seq<Rq>, task: map<Tid, Task>, calcLoadTasks: int)

  datatype Action =
    | SetState(p: Tid, state: TaskState)      // set_current_state()
    | Sleep(p: Tid)                           // schedule()
    | WakeQueued(p: Tid)                      // try_to_wake_up(): still on its runqueue
    | WakeUnlock(p: Tid)                      // ... TASK_WAKING, then the lock is dropped
    | WakePlace(p: Tid, cpu: Cpu)             // ... select_task_rq(), without a lock
    | WakeActivate(p: Tid)                    // ... locked again, perhaps another runqueue
    | WakeRunning(p: Tid)                     // ... off its runqueue but still on a CPU
    | Fork(p: Tid, cpu: Cpu)
    | WakeNew(p: Tid)
    | Reap(p: Tid)
    | Pull(p: Tid, cpu: Cpu)                  // pull_task()
    | Migrate(p: Tid, src: Cpu, dest: Cpu)    // __migrate_task()
    | Place(p: Tid, cpu: Cpu)                 // migrate_task() on a sleeping task
    | MoveUninterruptible(src: Cpu, dest: Cpu)
    | AccountActive(c: Cpu)
    | RemoveLoad(c: Cpu)

  /** `task_contributes_to_load`, for tasks that are not being frozen. */
  predicate Contributes(t: Task) {
    t.state.Uninterruptible?
  }

  predicate Asleep(t: Task) {
    !t.onRq && (t.state.Interruptible? || t.state.Uninterruptible?)
  }

  predicate Enabled(s: State, a: Action) {
    match a
    case SetState(p, state) => p in s.task && s.task[p].onRq && !state.Waking?
    case Sleep(p) => p in s.task && s.task[p].onRq && !s.task[p].state.Running?
    case WakeQueued(p) =>
      p in s.task && s.task[p].onRq && (s.task[p].state.Interruptible? || s.task[p].state.Uninterruptible?)
    case WakeUnlock(p) => p in s.task && Asleep(s.task[p])
    case WakePlace(p, cpu) => p in s.task && s.task[p].state.Waking? && !s.task[p].onRq && cpu < |s.rq|
    case WakeActivate(p) => p in s.task && s.task[p].state.Waking? && !s.task[p].onRq
    case WakeRunning(p) => p in s.task && Asleep(s.task[p])
    case Fork(p, cpu) => p !in s.task && cpu < |s.rq|
    case WakeNew(p) => p in s.task && s.task[p].state.Running? && !s.task[p].onRq
    case Reap(p) => p in s.task && s.task[p].state.Dead? && !s.task[p].onRq
    case Pull(p, cpu) => p in s.task && s.task[p].onRq && cpu < |s.rq|
    case Migrate(p, src, dest) => p in s.task && src < |s.rq| && dest < |s.rq|
    case Place(p, cpu) => p in s.task && !s.task[p].onRq && cpu < |s.rq|
    case MoveUninterruptible(src, dest) => src < |s.rq| && dest < |s.rq| && src != dest
    case AccountActive(c) => c < |s.rq|
    case RemoveLoad(c) => c < |s.rq|
  }

  /** Every task is on a CPU that exists, and the counters of running tasks cover those queued. */
  ghost predicate Shaped(s: State) {
    && (forall p | p in s.task :: s.task[p].cpu < |s.rq|)
    && (forall c | 0 <= c < |s.rq| :: s.rq[c].nrRunning == |Queued(s.task, c)|)
  }

  function Queued(task: map<Tid, Task>, c: Cpu): set<Tid> {
    set p | p in task && task[p].onRq && task[p].cpu == c
  }

  /** The tasks that are off their runqueue and contribute to the load. */
  function Blocked(task: map<Tid, Task>): set<Tid> {
    set p | p in task && !task[p].onRq && Contributes(task[p])
  }

  function Activate(s: State, p: Tid): State
    requires p in s.task && s.task[p].cpu < |s.rq|
  {
    var t := s.task[p];
    var rq := s.rq[t.cpu];
    s.(rq := s.rq[t.cpu := rq.(
         nrRunning := rq.nrRunning + 1,
         nrUninterruptible := if Contributes(t) then Wrap32(rq.nrUninterruptible - 1) else rq.nrUninterruptible)],
       task := s.task[p := t.(onRq := true)])
  }

  function Deactivate(s: State, p: Tid): State
    requires p in s.task && s.task[p].cpu < |s.rq| && s.rq[s.task[p].cpu].nrRunning > 0
  {
    var t := s.task[p];
    var rq := s.rq[t.cpu];
    s.(rq := s.rq[t.cpu := rq.(
         nrRunning := rq.nrRunning - 1,
         nrUninterruptible := if Contributes(t) then Wrap32(rq.nrUninterruptible + 1) else rq.nrUninterruptible)],
       task := s.task[p := t.(onRq := false)])
  }

  function WithState(s: State, p: Tid, state: TaskState): State
    requires p in s.task
  {
    s.(task := s.task[p := s.task[p].(state := state)])
  }

  function WithCpu(s: State, p: Tid, cpu: Cpu): State
    requires p in s.task
  {
    s.(task := s.task[p := s.task[p].(cpu := cpu)])
  }

  /** Dequeue, move, enqueue. */
  ghost function Moved(s: State, p: Tid, cpu: Cpu): State
    requires Shaped(s) && p in s.task && s.task[p].onRq && cpu < |s.rq|
  {
    QueuedIsCounted(s, p);
    Activate(WithCpu(Deactivate(s, p), p, cpu), p)
  }

  lemma QueuedIsCounted(s: State, p: Tid)
    requires Shaped(s) && p in s.task && s.task[p].onRq
    ensures s.rq[s.task[p].cpu].nrRunning > 0
  {
    assert p in Queued(s.task, s.task[p].cpu);
  }

  ghost function Apply(s: State, a: Action): State
    requires Shaped(s) && Enabled(s, a)
  {
    match a
    case SetState(p, state) => WithState(s, p, state)
    case Sleep(p) => QueuedIsCounted(s, p); Deactivate(s, p)
    case WakeQueued(p) => WithState(s, p, Running)
    case WakeUnlock(p) =>
      var t := s.task[p];
      var rq := s.rq[t.cpu];
      WithState(s.(rq := s.rq[t.cpu := rq.(
          nrUninterruptible := if Contributes(t) then Wrap32(rq.nrUninterruptible - 1) else rq.nrUninterruptible)]),
        p, Waking)
    case WakePlace(p, cpu) => WithCpu(s, p, cpu)
    case WakeActivate(p) => WithState(Activate(s, p), p, Running)
    case WakeRunning(p) => WithState(Activate(s, p), p, Running)
    case Fork(p, cpu) => s.(task := s.task[p := Task(Running, false, cpu)])
    case WakeNew(p) => Activate(s, p)
    case Reap(p) => s.(task := s.task - {p})
    case Pull(p, cpu) => Moved(s, p, cpu)
    case Migrate(p, src, dest) =>
      if s.task[p].cpu != src then s
      else if s.task[p].onRq then Moved(s, p, dest)
      else WithCpu(s, p, dest)
    case Place(p, cpu) => WithCpu(s, p, cpu)
    case MoveUninterruptible(src, dest) =>
      var n := s.rq[src].nrUninterruptible;
      s.(rq := s.rq[dest := s.rq[dest].(nrUninterruptible := Wrap32(s.rq[dest].nrUninterruptible + n))]
                   [src := s.rq[src].(nrUninterruptible := 0)])
    case AccountActive(c) =>
      var active := Signed32(s.rq[c].nrRunning + s.rq[c].nrUninterruptible);
      State(s.rq[c := s.rq[c].(calcLoadActive := active)], s.task,
            Signed32(s.calcLoadTasks + (active - s.rq[c].calcLoadActive)))
    case RemoveLoad(c) =>
      State(s.rq[c := s.rq[c].(calcLoadActive := 0)], s.task, Signed32(s.calcLoadTasks - s.rq[c].calcLoadActive))
  }

  ghost function UninterruptibleSum(rq: seq<Rq>): int {
    if rq == [] then 0 else UninterruptibleSum(rq[..|rq| - 1]) + rq[|rq| - 1].nrUninterruptible
  }

  ghost function ActiveSum(rq: seq<Rq>): int {
    if rq == [] then 0 else ActiveSum(rq[..|rq| - 1]) + rq[|rq| - 1].calcLoadActive
  }

  lemma {:induction false} SumsAfter(rq: seq<Rq>, c: Cpu, x: Rq)
    requires c < |rq|
    ensures UninterruptibleSum(rq[c := x]) == UninterruptibleSum(rq) - rq[c].nrUninterruptible + x.nrUninterruptible
    ensures ActiveSum(rq[c := x]) == ActiveSum(rq) - rq[c].calcLoadActive + x.calcLoadActive
    decreases |rq|
  {
    var n := |rq| - 1;
    if c == n {
      assert rq[c := x][..n] == rq[..n];
    } else {
      assert rq[c := x][..n] == rq[..n][c := x];
      SumsAfter(rq[..n], c, x);
    }
  }

  /** Every counter says what it is meant to say. */
  ghost predicate Inv(s: State) {
    && Shaped(s)
    && Wrap32(UninterruptibleSum(s.rq)) == Wrap32(|Blocked(s.task)|)
    && Wrap32(ActiveSum(s.rq)) == Wrap32(s.calcLoadTasks) && Signed32(s.calcLoadTasks) == s.calcLoadTasks
  }

  function One(b: bool): nat {
    if b then 1 else 0
  }

  predicate Here(task: map<Tid, Task>, p: Tid, c: Cpu) {
    p in task && task[p].onRq && task[p].cpu == c
  }

  predicate Counts(task: map<Tid, Task>, p: Tid) {
    p in task && !task[p].onRq && Contributes(task[p])
  }

  /** Changing, adding or removing one task changes each census by that task. */
  lemma CensusAfter(old_: map<Tid, Task>, new_: map<Tid, Task>, p: Tid, c: Cpu)
    requires forall q | q != p :: (q in old_ <==> q in new_) && (q in old_ ==> new_[q] == old_[q])
    ensures |Queued(new_, c)| == |Queued(old_, c)| - One(Here(old_, p, c)) + One(Here(new_, p, c))
    ensures |Blocked(new_)| == |Blocked(old_)| - One(Counts(old_, p)) + One(Counts(new_, p))
  {
    SizeAfter(Queued(old_, c), Queued(new_, c), p);
    SizeAfter(Blocked(old_), Blocked(new_), p);
  }

  lemma SizeAfter(a: set<Tid>, b: set<Tid>, p: Tid)
    requires forall q | q != p :: q in a <==> q in b
    ensures |b| == |a| - One(p in a) + One(p in b)
  {
    assert a - {p} == b - {p};
    Without(a, p);
    Without(b, p);
  }

  lemma Without(a: set<Tid>, p: Tid)
    ensures |a - {p}| == |a| - One(p in a)
  {
    if p !in a {
      assert a - {p} == a;
    }
  }

  /** The state of a step that changes task `p` and the runqueue it is charged to. */
  lemma ChargedStep(s: State, t: State, p: Tid, c: Cpu)
    requires Shaped(s) && c < |s.rq| && |t.rq| == |s.rq| && t.rq == s.rq[c := t.rq[c]]
    requires forall q | q != p :: (q in s.task <==> q in t.task) && (q in s.task ==> t.task[q] == s.task[q])
    requires p in t.task ==> t.task[p].cpu < |s.rq|
    requires forall d | 0 <= d < |s.rq| && d != c :: Here(t.task, p, d) == Here(s.task, p, d)
    requires t.rq[c].nrRunning == s.rq[c].nrRunning - One(Here(s.task, p, c)) + One(Here(t.task, p, c))
    requires t.rq[c].calcLoadActive == s.rq[c].calcLoadActive
    ensures Shaped(t) && ActiveSum(t.rq) == ActiveSum(s.rq)
    ensures UninterruptibleSum(t.rq) - UninterruptibleSum(s.rq) == t.rq[c].nrUninterruptible - s.rq[c].nrUninterruptible
    ensures |Blocked(t.task)| - |Blocked(s.task)| == One(Counts(t.task, p)) - One(Counts(s.task, p))
  {
    SumsAfter(s.rq, c, t.rq[c]);
    CensusAfter(s.task, t.task, p, c);
    forall d | 0 <= d < |s.rq| ensures t.rq[d].nrRunning == |Queued(t.task, d)| {
      CensusAfter(s.task, t.task, p, d);
    }
    hide Here, Queued, Blocked, Counts, ActiveSum, UninterruptibleSum;
  }

  lemma Balance(u: int, v: int, b: nat, d: nat)
    requires Wrap32(u) == Wrap32(b) && Wrap32(v - u) == Wrap32(d - b)
    ensures Wrap32(v) == Wrap32(d)
  {
  }

  lemma WrapShift(n: nat)
    ensures Wrap32(Wrap32(n - 1) - n) == Wrap32(-1) && Wrap32(Wrap32(n + 1) - n) == Wrap32(1)
  {
  }

  lemma ActivateKeepsInv(s: State, p: Tid)
    requires Inv(s) && p in s.task && !s.task[p].onRq
    ensures Inv(Activate(s, p))
  {
    var c := s.task[p].cpu;
    var t := Activate(s, p);
    ChargedStep(s, t, p, c);
    WrapShift(s.rq[c].nrUninterruptible);
    Balance(UninterruptibleSum(s.rq), UninterruptibleSum(t.rq), |Blocked(s.task)|, |Blocked(t.task)|);
  }

  lemma DeactivateKeepsInv(s: State, p: Tid)
    requires Inv(s) && p in s.task && s.task[p].onRq
    ensures s.rq[s.task[p].cpu].nrRunning > 0 && Inv(Deactivate(s, p))
  {
    QueuedIsCounted(s, p);
    var c := s.task[p].cpu;
    var t := Deactivate(s, p);
    ChargedStep(s, t, p, c);
    WrapShift(s.rq[c].nrUninterruptible);
    Balance(UninterruptibleSum(s.rq), UninterruptibleSum(t.rq), |Blocked(s.task)|, |Blocked(t.task)|);
  }

  /** A step that touches one task only, and neither its queueing nor its contribution. */
  lemma UnchargedStep(s: State, t: State, p: Tid)
    requires Inv(s) && t.rq == s.rq && t.calcLoadTasks == s.calcLoadTasks
    requires forall q | q != p :: (q in s.task <==> q in t.task) && (q in s.task ==> t.task[q] == s.task[q])
    requires p in t.task ==> t.task[p].cpu < |s.rq|
    requires (p in s.task && s.task[p].onRq) || (p in t.task && t.task[p].onRq) ==>
               p in s.task && p in t.task && s.task[p].onRq && t.task[p].onRq && s.task[p].cpu == t.task[p].cpu
    requires Counts(s.task, p) == Counts(t.task, p)
    ensures Inv(t)
  {
    if |s.rq| > 0 {
      assert s.rq == s.rq[0 := s.rq[0]];
      ChargedStep(s, t, p, 0);
    } else {
      assert Blocked(t.task) == {} == Blocked(s.task);
    }
  }

  /** Dropping the lock of a waking task settles its contribution at once. */
  lemma WakeUnlockKeepsInv(s: State, p: Tid)
    requires Inv(s) && Enabled(s, WakeUnlock(p))
    ensures Inv(Apply(s, WakeUnlock(p)))
  {
    var c := s.task[p].cpu;
    var t := Apply(s, WakeUnlock(p));
    ChargedStep(s, t, p, c);
    WrapShift(s.rq[c].nrUninterruptible);
    Balance(UninterruptibleSum(s.rq), UninterruptibleSum(t.rq), |Blocked(s.task)|, |Blocked(t.task)|);
  }

  lemma WakeRunningKeepsInv(s: State, p: Tid)
    requires Inv(s) && p in s.task && !s.task[p].onRq
    ensures Inv(WithState(Activate(s, p), p, Running))
  {
    ActivateKeepsInv(s, p);
    UnchargedStep(Activate(s, p), WithState(Activate(s, p), p, Running), p);
  }

  /** A queued task moves with its count; a contribution it may still make goes along too. */
  lemma MovedKeepsInv(s: State, p: Tid, cpu: Cpu)
    requires Inv(s) && p in s.task && s.task[p].onRq && cpu < |s.rq|
    ensures Inv(Moved(s, p, cpu))
  {
    DeactivateKeepsInv(s, p);
    var off := Deactivate(s, p);
    var there := WithCpu(off, p, cpu);
    UnchargedStep(off, there, p);
    ActivateKeepsInv(there, p);
  }

  lemma MoveUninterruptibleKeepsInv(s: State, src: Cpu, dest: Cpu)
    requires Inv(s) && Enabled(s, MoveUninterruptible(src, dest))
    ensures Inv(Apply(s, MoveUninterruptible(src, dest)))
  {
    hide Queued, Wrap32, Signed32, UninterruptibleSum, ActiveSum, Blocked;
    var n, m := s.rq[src].nrUninterruptible, s.rq[dest].nrUninterruptible;
    var x, y := s.rq[dest].(nrUninterruptible := Wrap32(m + n)), s.rq[src].(nrUninterruptible := 0);
    assert Apply(s, MoveUninterruptible(src, dest)) == s.(rq := s.rq[dest := x][src := y]);
    SumsAfter(s.rq, dest, x);
    SumsAfter(s.rq[dest := x], src, y);
    MoveWraps(UninterruptibleSum(s.rq), m, n);
    hide Apply;
  }

  lemma MoveWraps(u: int, m: nat, n: nat)
    ensures Wrap32(u - m + Wrap32(m + n) - n) == Wrap32(u)
  {
  }

  lemma LoadKeepsInv(s: State, c: Cpu, active: int)
    requires Inv(s) && c < |s.rq|
    ensures Inv(State(s.rq[c := s.rq[c].(calcLoadActive := active)], s.task,
                      Signed32(s.calcLoadTasks + (active - s.rq[c].calcLoadActive))))
  {
    SumsAfter(s.rq, c, s.rq[c].(calcLoadActive := active));
    SignedShift(ActiveSum(s.rq), s.calcLoadTasks, active - s.rq[c].calcLoadActive);
    hide Queued, Wrap32, Signed32;
  }

  lemma SignedShift(a: int, b: int, d: int)
    requires Wrap32(a) == Wrap32(b)
    ensures Wrap32(a + d) == Wrap32(Signed32(b + d)) && Signed32(Signed32(b + d)) == Signed32(b + d)
  {
    WrapPlus(a, b, d);
    SignedWraps(b + d);
    hide Wrap32, Signed32;
  }

  lemma WrapPlus(a: int, b: int, d: int)
    requires Wrap32(a) == Wrap32(b)
    ensures Wrap32(a + d) == Wrap32(b + d)
  {
    SumStep(a, d);
    SumStep(b, d);
    hide Wrap32;
  }

  lemma SignedWraps(x: int)
    ensures Wrap32(Signed32(x)) == Wrap32(x) && Signed32(Signed32(x)) == Signed32(x)
  {
  }

  lemma StepKeepsInv(s: State, a: Action)
    requires Inv(s) && Enabled(s, a)
    ensures Inv(Apply(s, a))
  {
    hide Inv, Queued, Blocked, Wrap32, Signed32, Moved, Activate, Deactivate;
    InvIsShaped(s);
    if a.Sleep? || a.WakeUnlock? || a.WakeActivate? || a.WakeRunning? || a.WakeNew? || a.Pull? || a.Migrate? {
      QueueStepKeepsInv(s, a);
    } else if a.MoveUninterruptible? {
      MoveUninterruptibleKeepsInv(s, a.src, a.dest);
    } else if a.AccountActive? {
      LoadKeepsInv(s, a.c, Signed32(s.rq[a.c].nrRunning + s.rq[a.c].nrUninterruptible));
    } else if a.RemoveLoad? {
      LoadKeepsInv(s, a.c, 0);
    } else {
      UnchargedStep(s, Apply(s, a), a.p);
    }
  }

  lemma InvIsShaped(s: State)
    requires Inv(s)
    ensures Shaped(s)
  {
    hide Queued, Wrap32, Signed32;
  }

  /** The steps that queue or dequeue a task, or settle its contribution. */
  lemma QueueStepKeepsInv(s: State, a: Action)
    requires Inv(s) && Shaped(s) && Enabled(s, a)
    requires a.Sleep? || a.WakeUnlock? || a.WakeActivate? || a.WakeRunning? || a.WakeNew? || a.Pull? || a.Migrate?
    ensures Inv(Apply(s, a))
  {
    hide Inv, Shaped, Queued, Blocked, Wrap32, Signed32, Moved;
    match a
    case Sleep(p) => DeactivateKeepsInv(s, p);
    case WakeUnlock(p) => WakeUnlockKeepsInv(s, p);
    case WakeActivate(p) => WakeRunningKeepsInv(s, p);
    case WakeRunning(p) => WakeRunningKeepsInv(s, p);
    case WakeNew(p) => ActivateKeepsInv(s, p);
    case Pull(p, cpu) => MovedKeepsInv(s, p, cpu);
    case Migrate(p, src, dest) =>
      if s.task[p].cpu == src {
        if s.task[p].onRq { MovedKeepsInv(s, p, dest); } else { UnchargedStep(s, WithCpu(s, p, dest), p); }
      }
  }

  ghost predicate Runs(s: State, actions: seq<Action>)
    decreases |actions|
  {
    actions != [] ==> Shaped(s) && Enabled(s, actions[0]) && Runs(Apply(s, actions[0]), actions[1..])
  }

  ghost function Exec(s: State, actions: seq<Action>): State
    requires Runs(s, actions)
    decreases |actions|
  {
    if actions == [] then s else Exec(Apply(s, actions[0]), actions[1..])
  }

  lemma {:induction false} RunKeepsInv(s: State, actions: seq<Action>)
    requires Inv(s) && Runs(s, actions)
    ensures Inv(Exec(s, actions))
    decreases |actions|
  {
    hide Inv, Apply, Enabled;
    if actions != [] {
      StepKeepsInv(s, actions[0]);
      RunKeepsInv(Apply(s, actions[0]), actions[1..]);
    }
  }

  /** A system of idle runqueues and no task yet. */
  function Booted(cpus: nat): State {
    State(seq(cpus, _ => Rq(0, 0, 0)), map[], 0)
  }

  lemma {:induction false} NothingCounted(cpus: nat)
    ensures UninterruptibleSum(seq(cpus, _ => Rq(0, 0, 0))) == 0 && ActiveSum(seq(cpus, _ => Rq(0, 0, 0))) == 0
  {
    if cpus > 0 {
      NothingCounted(cpus - 1);
      assert seq(cpus, _ => Rq(0, 0, 0))[..cpus - 1] == seq(cpus - 1, _ => Rq(0, 0, 0));
    }
  }

  /**
   After every run each `nr_running` is the number of tasks queued there, the wrapping counters of
   uninterruptible tasks add up to the number of such tasks off their runqueues, whichever CPUs
   they went to sleep and woke up on, and `calc_load_tasks` is the sum of what the CPUs reported.
   */
  lemma CountersAgree(cpus: nat, actions: seq<Action>)
    requires Runs(Booted(cpus), actions)
    ensures var s := Exec(Booted(cpus), actions);
            && (forall c | 0 <= c < |s.rq| :: s.rq[c].nrRunning == |Queued(s.task, c)|)
            && Wrap32(UninterruptibleSum(s.rq)) == Wrap32(|Blocked(s.task)|)
            && Wrap32(ActiveSum(s.rq)) == Wrap32(s.calcLoadTasks)
            && (-0x8000_0000 <= ActiveSum(s.rq) < 0x8000_0000 ==> s.calcLoadTasks == ActiveSum(s.rq))
  {
    NothingCounted(cpus);
    assert Blocked(map[]) == {} && forall c :: Queued(map[], c) == {};
    assert Inv(Booted(cpus));
    RunKeepsInv(Booted(cpus), actions);
  }

  /** A report is what the CPU runs and has put to sleep uninterruptibly; one that goes down takes its report back. */
  lemma ReportsAre(s: State, a: Action)
    requires Shaped(s) && Enabled(s, a)
    ensures a.AccountActive? ==>
              var t := Apply(s, a);
              && t.task == s.task && |t.rq| == |s.rq|
              && t.rq[a.c] == s.rq[a.c].(calcLoadActive := Signed32(s.rq[a.c].nrRunning + s.rq[a.c].nrUninterruptible))
              && (forall d | 0 <= d < |s.rq| && d != a.c :: t.rq[d] == s.rq[d])
    ensures a.RemoveLoad? ==>
              Apply(s, a).task == s.task && Apply(s, a).rq == s.rq[a.c := s.rq[a.c].(calcLoadActive := 0)]
    ensures a.MoveUninterruptible? ==>
              var t := Apply(s, a);
              && t.task == s.task && |t.rq| == |s.rq| && t.rq[a.src] == s.rq[a.src].(nrUninterruptible := 0)
              && Wrap32(t.rq[a.dest].nrUninterruptible)
                 == Wrap32(s.rq[a.dest].nrUninterruptible + s.rq[a.src].nrUninterruptible)
              && (forall d | 0 <= d < |s.rq| && d != a.src && d != a.dest :: t.rq[d] == s.rq[d])
  {
    hide Queued;
  }

  /** The reports of the CPUs from `c` on. */
  function ReportsFrom(c: nat, n: nat): seq<Action>
    requires c <= n
    decreases n - c
  {
    if c == n then [] else [AccountActive(c)] + ReportsFrom(c + 1, n)
  }

  /** Once every CPU has reported in turn, the load counts every runnable and every uninterruptible task. */
  lemma {:induction false} AllReport(s: State, c: nat)
    requires Inv(s) && c <= |s.rq|
    requires forall d | 0 <= d < c :: s.rq[d].calcLoadActive == Signed32(s.rq[d].nrRunning + s.rq[d].nrUninterruptible)
    ensures Runs(s, ReportsFrom(c, |s.rq|))
    ensures var t := Exec(s, ReportsFrom(c, |s.rq|));
            && Inv(t) && t.task == s.task && Reported(t.rq)
    decreases |s.rq| - c
  {
    hide Inv, Queued, Signed32, Wrap32;
    if c < |s.rq| {
      InvIsShaped(s);
      var a := AccountActive(c);
      ReportsAre(s, a);
      StepKeepsInv(s, a);
      assert ReportsFrom(c, |s.rq|)[1..] == ReportsFrom(c + 1, |s.rq|);
      var t := Apply(s, a);
      hide Apply, Shaped;
      AllReport(t, c + 1);
    }
  }

  /** The tasks queued on the first `n` CPUs. */
  function QueuedBelow(task: map<Tid, Task>, n: nat): set<Tid> {
    set p | p in task && task[p].onRq && task[p].cpu < n
  }

  /** Every CPU has reported, and nothing has changed since. */
  predicate Reported(rq: seq<Rq>) {
    forall c | 0 <= c < |rq| :: rq[c].calcLoadActive == Signed32(rq[c].nrRunning + rq[c].nrUninterruptible)
  }

  lemma {:induction false} ActiveIsRunningAndBlocked(s: State, n: nat)
    requires Shaped(s) && Reported(s.rq) && n <= |s.rq|
    ensures Wrap32(ActiveSum(s.rq[..n])) == Wrap32(|QueuedBelow(s.task, n)| + UninterruptibleSum(s.rq[..n]))
  {
    if n == 0 {
      assert QueuedBelow(s.task, 0) == {};
    } else {
      ActiveIsRunningAndBlocked(s, n - 1);
      assert s.rq[..n][..n - 1] == s.rq[..n - 1];
      var a, b := QueuedBelow(s.task, n - 1), Queued(s.task, n - 1);
      assert QueuedBelow(s.task, n) == a + b && a !! b;
      var r := s.rq[n - 1];
      hide Queued, QueuedBelow, Wrap32, Signed32;
      ReportWraps(ActiveSum(s.rq[..n - 1]), |a| + UninterruptibleSum(s.rq[..n - 1]), r.nrRunning + r.nrUninterruptible);
    }
  }

  lemma ReportWraps(x: int, y: int, n: int)
    requires Wrap32(x) == Wrap32(y)
    ensures Wrap32(x + Signed32(n)) == Wrap32(y + n)
  {
  }

  /** Then the load is the number of runnable and uninterruptible tasks. */
  lemma LoadIsRunningAndBlocked(s: State)
    requires Inv(s) && Reported(s.rq)
    ensures Wrap32(s.calcLoadTasks) == Wrap32(|set p | p in s.task && s.task[p].onRq| + |Blocked(s.task)|)
  {
    var n := |s.rq|;
    assert s.rq[..n] == s.rq;
    ActiveIsRunningAndBlocked(s, n);
    assert QueuedBelow(s.task, n) == set p | p in s.task && s.task[p].onRq;
    SumWraps(|QueuedBelow(s.task, n)|, UninterruptibleSum(s.rq), |Blocked(s.task)|);
  }

  lemma SumStep(a: int, x: int)
    ensures Wrap32(Wrap32(a) + x) == Wrap32(a + x)
  {
  }

  lemma SumWraps(a: int, u: int, b: int)
    requires Wrap32(u) == Wrap32(b)
    ensures Wrap32(a + u) == Wrap32(a + b)
  {
  }

  /** The runqueues, as the functions of the scheduler update them. */
  class Scheduler {
    var rq: seq<Rq>
    var task: map<Tid, Task>
    var calcLoadTasks: int

    constructor (cpus: nat)
      ensures View() == Booted(cpus)
    {
      rq, task, calcLoadTasks := seq(cpus, _ => Rq(0, 0, 0)), map[], 0;
    }

    ghost function View(): State
      reads this
    {
      State(rq, task, calcLoadTasks)
    }

    method ActivateTask(p: Tid)
      requires p in task && task[p].cpu < |rq|
      modifies this
      ensures View() == Activate(old(View()), p)
    {
      var c := task[p].cpu;
      if Contributes(task[p]) {
        rq := rq[c := rq[c].(nrUninterruptible := Wrap32(rq[c].nrUninterruptible - 1))];
      }
      task := task[p := task[p].(onRq := true)];
      rq := rq[c := rq[c].(nrRunning := rq[c].nrRunning + 1)];
    }

    method DeactivateTask(p: Tid)
      requires Inv(View()) && p in task && task[p].onRq
      modifies this
      ensures Shaped(old(View())) && Enabled(old(View()), Pull(p, old(task[p].cpu)))
      ensures old(View()).rq[old(task[p].cpu)].nrRunning > 0 && View() == Deactivate(old(View()), p)
    {
      QueuedIsCounted(View(), p);
      var c := task[p].cpu;
      if Contributes(task[p]) {
        rq := rq[c := rq[c].(nrUninterruptible := Wrap32(rq[c].nrUninterruptible + 1))];
      }
      task := task[p := task[p].(onRq := false)];
      rq := rq[c := rq[c].(nrRunning := rq[c].nrRunning - 1)];
    }

    /** Settle the contribution of a sleeper and hide it from other wakers. */
    method MarkWaking(p: Tid)
      requires Shaped(View()) && Enabled(View(), WakeUnlock(p))
      modifies this
      ensures View() == Apply(old(View()), WakeUnlock(p))
    {
      hide Queued, Wrap32;
      var c := task[p].cpu;
      if Contributes(task[p]) {
        rq := rq[c := rq[c].(nrUninterruptible := Wrap32(rq[c].nrUninterruptible - 1))];
      }
      task := task[p := task[p].(state := Waking)];
    }

    /**
     `try_to_wake_up` up to where it drops the runqueue lock, or to its end: nothing for a task that
     is in none of `states`; else the task is runnable then or, `waking`, on its way to be.
     */
    method TryToWakeUp(p: Tid, states: set<TaskState>, running: bool) returns (waking: bool)
      requires Inv(View()) && p in task && states <= {Interruptible, Uninterruptible}
      modifies this
      ensures Inv(View()) && p in task && task[p].cpu == old(task[p].cpu)
      ensures old(task[p].state) !in states ==> View() == old(View()) && !waking
      ensures old(task[p].state) in states ==>
                && waking == (!old(task[p].onRq) && !running)
                && task[p].state == (if waking then Waking else Running) && task[p].onRq == !waking
      ensures old(task[p].state) in states ==>
                var a := if old(task[p].onRq) then WakeQueued(p) else if running then WakeRunning(p) else WakeUnlock(p);
                Enabled(old(View()), a) && View() == Apply(old(View()), a)
    {
      assert Shaped(View()) && task[p].cpu < |rq|;
      if task[p].state !in states {
        return false;
      }
      ghost var a := if task[p].onRq then WakeQueued(p) else if running then WakeRunning(p) else WakeUnlock(p);
      StepKeepsInv(View(), a);
      hide Inv, Queued, Wrap32, Activate;
      if !task[p].onRq {
        if !running {
          MarkWaking(p);
          return true;
        }
        ActivateTask(p);
      }
      task := task[p := task[p].(state := Running)];
      return false;
    }

    /** The rest of it, under the lock of the runqueue that the task has been placed on. */
    method FinishWakeUp(p: Tid)
      requires Inv(View()) && Enabled(View(), WakeActivate(p))
      modifies this
      ensures Inv(View()) && View() == Apply(old(View()), WakeActivate(p))
      ensures p in task && task[p] == old(task[p]).(state := Running, onRq := true)
    {
      assert Shaped(View()) && task[p].cpu < |rq|;
      StepKeepsInv(View(), WakeActivate(p));
      hide Inv, Queued, Wrap32;
      ActivateTask(p);
      task := task[p := task[p].(state := Running)];
    }

    /** `pull_task`, and the part of `__migrate_task` that moves a queued task. */
    method PullTask(p: Tid, cpu: Cpu)
      requires Inv(View()) && Enabled(View(), Pull(p, cpu))
      modifies this
      ensures Inv(View()) && View() == Moved(old(View()), p, cpu)
    {
      StepKeepsInv(View(), Pull(p, cpu));
      DeactivateTask(p);
      task := task[p := task[p].(cpu := cpu)];
      ActivateTask(p);
    }

    method MigrateNrUninterruptible(src: Cpu, dest: Cpu)
      requires Inv(View()) && Enabled(View(), MoveUninterruptible(src, dest))
      modifies this`rq
      ensures Inv(View()) && View() == Apply(old(View()), MoveUninterruptible(src, dest))
    {
      StepKeepsInv(View(), MoveUninterruptible(src, dest));
      rq := rq[dest := rq[dest].(nrUninterruptible := Wrap32(rq[dest].nrUninterruptible + rq[src].nrUninterruptible))];
      rq := rq[src := rq[src].(nrUninterruptible := 0)];
    }

    method CalcLoadAccountActive(c: Cpu)
      requires Inv(View()) && c < |rq|
      modifies this`rq, this`calcLoadTasks
      ensures Inv(View()) && View() == Apply(old(View()), AccountActive(c))
    {
      StepKeepsInv(View(), AccountActive(c));
      var nr_active := Signed32(rq[c].nrRunning + rq[c].nrUninterruptible);
      if nr_active != rq[c].calcLoadActive {
        var delta := nr_active - rq[c].calcLoadActive;
        rq := rq[c := rq[c].(calcLoadActive := nr_active)];
        calcLoadTasks := Signed32(calcLoadTasks + delta);
      }
    }

    /** The number of uninterruptible tasks, as long as it fits a `long`. */
    method NrUninterruptible() returns (sum: nat)
      requires Inv(View())
      ensures |Blocked(task)| < 0x8000_0000 ==> sum == |Blocked(task)|
    {
      assert Wrap32(UninterruptibleSum(rq)) == Wrap32(|Blocked(task)|);
      hide Inv, Blocked, Shaped, Queued;
      sum := 0;
      for i := 0 to |rq|
        invariant sum == Wrap32(UninterruptibleSum(rq[..i]))
      {
        assert rq[..i + 1][..i] == rq[..i];
        SumStep(UninterruptibleSum(rq[..i]), rq[i].nrUninterruptible);
        sum := Wrap32(sum + rq[i].nrUninterruptible);
      }
      assert rq[..|rq|] == rq;
      hide UninterruptibleSum;
      if Signed32(sum) < 0 {
        sum := 0;
      }
    }
  }
}
