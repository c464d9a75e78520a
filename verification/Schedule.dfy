/**
 `schedule()`, as it was and as patched to stay with a forced pid, and the profile that the patch
 is for. One pass runs from the choice of `prev` to `post_schedule`; the class hooks are parameters.
 */
module Schedule {
  import opened Common
  import opened OsControl
  import opened Protocol

  type Tid = nat

  datatype Task = Task(pid: int, state: nat, signalPending: bool, needResched: bool, nvcsw: nat, nivcsw: nat)

  /** A runqueue: `idle` is not queued. */
  datatype Sched = Sched(
    curr: Tid, idle: Tid, queued: set<Tid>, nrSwitches: nat, postSchedule: bool, task: map<Tid, Task>)

  /** What the scheduling classes do in one pass. */
  datatype Hooks = Hooks(
    preemptActive: bool,
    pulled: set<Tid>,              // pre_schedule
    balanced: set<Tid>,            // idle_balance
    pick: set<Tid> -> Tid,         // pick_next_task of the classes above the idle class
    wantsPost: bool,               // ... which may ask for post_schedule
    pushed: set<Tid>)              // post_schedule

  ghost predicate Fits(h: Hooks, s: Sched) {
    && h.pulled + h.balanced <= s.task.Keys && s.idle !in h.pulled + h.balanced
    && forall q | q != {} :: h.pick(q) in q
  }

  /** The state between passes: whoever runs is queued, unless it is the idle task, whose pid is 0. */
  ghost predicate Ready(s: Sched) {
    && s.curr in s.task && s.idle in s.task && s.task[s.idle].pid == 0
    && s.queued <= s.task.Keys && s.idle !in s.queued
    && (s.curr in s.queued || s.curr == s.idle)
    && !s.postSchedule
  }

  /** The patched scheduler stays with the running task. */
  predicate Blocked(s: Sched, pid_force_run: int)
    requires s.curr in s.task
  {
    pid_force_run > 1 && s.task[s.curr].pid == pid_force_run
  }

  /** The running task is about to go to sleep. */
  predicate Sleeps(s: Sched, h: Hooks)
    requires s.curr in s.task
  {
    s.task[s.curr].state != 0 && !h.preemptActive
  }

  /** The tasks to choose from, once the running one has gone to sleep and others have been pulled. */
  function Candidates(s: Sched, h: Hooks): set<Tid>
    requires s.curr in s.task
  {
    var left := if Sleeps(s, h) && !s.task[s.curr].signalPending then s.queued - {s.curr} else s.queued;
    if left + h.pulled == {} then h.balanced else left + h.pulled
  }

  function Next(s: Sched, h: Hooks): Tid
    requires s.curr in s.task
  {
    if Candidates(s, h) == {} then s.idle else h.pick(Candidates(s, h))
  }

  /** The pass of the original scheduler. */
  function OriginalPass(s: Sched, h: Hooks): Sched
    requires s.curr in s.task
  {
    var next, t := Next(s, h), s.task[s.curr];
    var switched := next != s.curr;
    var prev := t.(
      needResched := false,
      state := if Sleeps(s, h) && t.signalPending then 0 else t.state,
      nvcsw := if switched && Sleeps(s, h) then t.nvcsw + 1 else t.nvcsw,
      nivcsw := if switched && !Sleeps(s, h) then t.nivcsw + 1 else t.nivcsw);
    s.(curr := next, task := s.task[s.curr := prev],
       nrSwitches := if switched then s.nrSwitches + 1 else s.nrSwitches,
       queued := if s.postSchedule || h.wantsPost then Candidates(s, h) - (h.pushed - {next}) else Candidates(s, h),
       postSchedule := false)
  }

  class Rq {
    var curr: Tid
    const idle: Tid
    var queued: set<Tid>
    var nrSwitches: nat
    var postSchedule: bool
    var task: map<Tid, Task>

    ghost function View(): Sched
      reads this
    {
      Sched(curr, idle, queued, nrSwitches, postSchedule, task)
    }

    constructor (idle: Tid)
      ensures Ready(View()) && curr == idle == this.idle && queued == {}
    {
      curr, this.idle, queued, nrSwitches, postSchedule := idle, idle, {}, 0, false;
      task := map[idle := Task(0, 0, false, false, 0, 0)];
    }

    method PickNextTask(h: Hooks) returns (next: Tid)
      modifies this`postSchedule
      ensures next == (if queued == {} then idle else h.pick(queued))
      ensures postSchedule == (old(postSchedule) || h.wantsPost)
    {
      postSchedule := postSchedule || h.wantsPost;
      next := if queued == {} then idle else h.pick(queued);
    }

    /** `post_schedule`: the running task is never pushed away. */
    method PostSchedule(h: Hooks)
      modifies this`queued, this`postSchedule
      ensures !postSchedule
      ensures queued == if old(postSchedule) then old(queued) - (h.pushed - {curr}) else old(queued)
    {
      if postSchedule {
        queued := queued - (h.pushed - {curr});
        postSchedule := false;
      }
    }

    /** Count a switch against `prev` and make `next` the running task. */
    method SwitchTo(prev: Tid, next: Tid, voluntary: bool)
      requires prev in task
      modifies this`nrSwitches, this`curr, this`task
      ensures nrSwitches == old(nrSwitches) + 1 && curr == next
      ensures task == old(task)[prev := old(task[prev]).(
                nvcsw := old(task[prev].nvcsw) + (if voluntary then 1 else 0),
                nivcsw := old(task[prev].nivcsw) + (if voluntary then 0 else 1))]
    {
      nrSwitches := nrSwitches + 1;
      curr := next;
      var t := task[prev];
      task := task[prev := if voluntary then t.(nvcsw := t.nvcsw + 1) else t.(nivcsw := t.nivcsw + 1)];
    }

    /** From the choice of `prev` to `pre_schedule`: the running task may go to sleep, unless blocked. */
    method SettlePrev(h: Hooks, sched_block: bool) returns (voluntary: bool)
      requires Ready(View())
      modifies this`queued, this`task
      ensures voluntary == Sleeps(old(View()), h)
      ensures queued == if voluntary && !sched_block && !old(task[curr].signalPending) then old(queued) - {curr}
                        else old(queued)
      ensures task == old(task)[curr := old(task[curr]).(
                needResched := sched_block && old(task[curr].needResched),
                state := if voluntary && old(task[curr].signalPending) then 0 else old(task[curr].state))]
    {
      var prev := curr;
      voluntary := false;
      if !sched_block {
        task := task[prev := task[prev].(needResched := false)];
      }
      if task[prev].state != 0 && !h.preemptActive {
        if task[prev].signalPending {
          task := task[prev := task[prev].(state := 0)];
        } else if !sched_block {
          queued := queued - {prev};
        }
        voluntary := true;
      }
    }

    /** `pre_schedule`, unless blocked, and `idle_balance` on an empty queue. */
    method PullTasks(h: Hooks, sched_block: bool)
      modifies this`queued
      ensures queued == var q := if sched_block then old(queued) else old(queued) + h.pulled;
                        if q == {} then h.balanced else q
    {
      if !sched_block {
        queued := queued + h.pulled;
      }
      if queued == {} {
        queued := h.balanced;
      }
    }

    /** Everything up to `pick_next_task`. */
    method PrepareSwitch(h: Hooks, sched_block: bool) returns (voluntary: bool)
      requires Ready(View())
      modifies this`queued, this`task
      ensures voluntary == Sleeps(old(View()), h)
      ensures !sched_block ==> queued == Candidates(old(View()), h)
      ensures sched_block && old(queued) != {} ==> queued == old(queued)
      ensures task == old(task)[curr := old(task[curr]).(
                needResched := sched_block && old(task[curr].needResched),
                state := if voluntary && old(task[curr].signalPending) then 0 else old(task[curr].state))]
    {
      voluntary := SettlePrev(h, sched_block);
      PullTasks(h, sched_block);
    }

    /** Switch away from `prev` if another task has been picked, and do what the classes left for afterwards. */
    method SwitchAndPost(prev: Tid, next: Tid, voluntary: bool, h: Hooks)
      requires prev in task && curr == prev
      modifies this
      ensures curr == next && !postSchedule
      ensures nrSwitches == if next != prev then old(nrSwitches) + 1 else old(nrSwitches)
      ensures queued == if old(postSchedule) then old(queued) - (h.pushed - {next}) else old(queued)
      ensures task == old(task)[prev := old(task[prev]).(
                nvcsw := old(task[prev].nvcsw) + (if next != prev && voluntary then 1 else 0),
                nivcsw := old(task[prev].nivcsw) + (if next != prev && !voluntary then 1 else 0))]
    {
      if prev != next {
        SwitchTo(prev, next, voluntary);
      }
      PostSchedule(h);
    }

    /** sched_orig.c */
    method ScheduleOriginal(h: Hooks)
      requires Ready(View())
      modifies this
      ensures View() == OriginalPass(old(View()), h)
    {
      hide Candidates, Sleeps;
      var prev := curr;
      var voluntary := PrepareSwitch(h, false);
      var next := PickNextTask(h);
      SwitchAndPost(prev, next, voluntary, h);
    }

    /** sched_mod.c: not blocked it takes the pass of the original, blocked it stays. */
    method SchedulePatched(pid_force_run: int, h: Hooks)
      requires Ready(View())
      modifies this
      ensures Blocked(old(View()), pid_force_run) ==> Stays(old(View()), View(), h)
      ensures !Blocked(old(View()), pid_force_run) ==> View() == OriginalPass(old(View()), h)
    {
      hide Candidates, Sleeps;
      var sched_block := pid_force_run > 1 && task[curr].pid == pid_force_run;
      var prev := curr;
      var voluntary := PrepareSwitch(h, sched_block);
      var next := prev;
      if !sched_block {
        next := PickNextTask(h);
      }
      SwitchAndPost(prev, next, voluntary, h);
    }
  }

  /**
   A pass that stays: the running task, the queue and every counter are the same. All it may do is
   make the task runnable again for a signal; a sleeping task stays queued and running.
   */
  predicate Stays(s: Sched, r: Sched, h: Hooks)
    requires s.curr in s.task
  {
    r == BlockedPass(s, h)
  }

  function BlockedPass(s: Sched, h: Hooks): Sched
    requires s.curr in s.task
  {
    var t := s.task[s.curr];
    s.(task := s.task[s.curr := if Sleeps(s, h) && t.signalPending then t.(state := 0) else t])
  }

  function PatchedPass(s: Sched, pid_force_run: int, h: Hooks): Sched
    requires s.curr in s.task
  {
    if Blocked(s, pid_force_run) then BlockedPass(s, h) else OriginalPass(s, h)
  }

  lemma PassKeepsReady(s: Sched, pid_force_run: int, h: Hooks)
    requires Ready(s) && Fits(h, s)
    ensures Ready(PatchedPass(s, pid_force_run, h))
  {
  }

  /**
   A pass that does switch counts it once in all, and once against the task that leaves the CPU:
   as voluntary exactly when that task was in a sleeping state and was not preempted by the kernel.
   */
  lemma SwitchesAreCounted(s: Sched, pid_force_run: int, h: Hooks)
    requires Ready(s) && Fits(h, s)
    ensures var r := PatchedPass(s, pid_force_run, h);
            var t := s.task[s.curr];
            var switched, voluntary := r.curr != s.curr, t.state != 0 && !h.preemptActive;
            && r.nrSwitches == s.nrSwitches + (if switched then 1 else 0) && s.curr in r.task
            && r.task[s.curr].nvcsw == t.nvcsw + (if switched && voluntary then 1 else 0)
            && r.task[s.curr].nivcsw == t.nivcsw + (if switched && !voluntary then 1 else 0)
            && (forall p | p in s.task && p != s.curr :: p in r.task && r.task[p] == s.task[p])
            && (if pid_force_run > 1 && t.pid == pid_force_run then
                  r == s.(task := s.task[s.curr := t.(state := if voluntary && t.signalPending then 0 else t.state)])
                else r == OriginalPass(s, h))
  {
  }

  /**
   Who runs after a pass that is not blocked. The running task leaves the queue exactly when it is in
   a sleeping state, was not preempted and has no signal; then a signalled one is runnable instead.
   The idle task runs exactly when nothing is left in the queue or brought by the classes, which
   balance only an empty one; otherwise the task the classes pick of those runs, and stays in the queue.
   */
  lemma PassPicksARunnable(s: Sched, h: Hooks)
    requires Ready(s) && Fits(h, s)
    ensures var r := OriginalPass(s, h);
            var t := s.task[s.curr];
            var sleeping := t.state != 0 && !h.preemptActive;
            var left := s.queued - if sleeping && !t.signalPending then {s.curr} else {};
            && s.curr in r.task && !r.task[s.curr].needResched
            && r.task[s.curr].state == (if sleeping && t.signalPending then 0 else t.state)
            && (r.curr == s.idle <==> left + h.pulled == {} && h.balanced == {})
            && (r.curr != s.idle ==> r.curr in r.queued
                                     && r.curr == h.pick(if left + h.pulled != {} then left + h.pulled else h.balanced))
            && r.queued == (if left + h.pulled != {} then left + h.pulled else h.balanced)
                           - (if h.wantsPost then h.pushed - {r.curr} else {})
  {
    var t := s.task[s.curr];
    var left := s.queued - if t.state != 0 && !h.preemptActive && !t.signalPending then {s.curr} else {};
    assert Candidates(s, h) == if left + h.pulled != {} then left + h.pulled else h.balanced;
  }

  /** A pass, something that happens to the runqueue between passes, or an event of the control module. */
  datatype Step = Pass(h: Hooks) | Around(next: Sched) | Control(e: Event)

  /** Between passes tasks are woken, pulled away, signalled and so on, but the running one stays as it is. */
  ghost predicate Surrounds(s: Sched, r: Sched)
    requires Ready(s)
  {
    && Ready(r) && r.curr == s.curr && r.idle == s.idle && r.nrSwitches == s.nrSwitches
    && r.task[r.curr].pid == s.task[s.curr].pid
    && r.task[r.curr].nvcsw == s.task[s.curr].nvcsw && r.task[r.curr].nivcsw == s.task[s.curr].nivcsw
  }

  /** No read, no write and no reset by the watchdog; time may pass and the other timers may fire. */
  ghost predicate Quiet(c: Ctrl, s: Sched, steps: seq<Step>)
    requires Ready(s)
    decreases |steps|
  {
    steps != [] ==>
      match steps[0]
      case Pass(h) =>
        Fits(h, s) && Ready(PatchedPass(s, c.pidForceRun, h)) && Quiet(c, PatchedPass(s, c.pidForceRun, h), steps[1..])
      case Around(next) => Surrounds(s, next) && Quiet(c, next, steps[1..])
      case Control(e) =>
        && (e.Advance? || e.InvalidateFires? || e.KillFires?)
        && Enabled(c, e) && Quiet(OsControl.Step(c, e), s, steps[1..])
  }

  ghost function After(c: Ctrl, s: Sched, steps: seq<Step>): (r: (Ctrl, Sched))
    requires Ready(s) && Quiet(c, s, steps)
    ensures Ready(r.1)
    decreases |steps|
  {
    if steps == [] then (c, s) else
      match steps[0]
      case Pass(h) => After(c, PatchedPass(s, c.pidForceRun, h), steps[1..])
      case Around(next) => After(c, next, steps[1..])
      case Control(e) => After(OsControl.Step(c, e), s, steps[1..])
  }

  /** The running task is the forced one, with its counters at the start; the watchdog is due before the other timer. */
  ghost predicate Profiling(c: Ctrl, s: Sched) {
    && Valid(c) && Ready(s) && Blocked(s, c.pidForceRun)
    && c.kill == Some(c.engagedAt + KILL_APPLICATION_DELAY_NS)
    && c.dNvcsw == s.task[s.curr].nvcsw && c.dNivcsw == s.task[s.curr].nivcsw
  }

  predicate SameBase(d: Ctrl, c: Ctrl) {
    d.dNvcsw == c.dNvcsw && d.dNivcsw == c.dNivcsw && d.lastCmd == c.lastCmd
  }

  lemma ControlKeepsProfiling(c: Ctrl, s: Sched, e: Event)
    requires Profiling(c, s) && (e.Advance? || e.InvalidateFires? || e.KillFires?) && Enabled(c, e)
    ensures Profiling(OsControl.Step(c, e), s) && SameBase(OsControl.Step(c, e), c)
  {
    StepKeepsValid(c, e);
    assert !e.KillFires?;   // the watchdog would have to fire first
  }

  lemma PassKeepsProfiling(c: Ctrl, s: Sched, h: Hooks)
    requires Profiling(c, s) && Fits(h, s)
    ensures Profiling(c, PatchedPass(s, c.pidForceRun, h))
    ensures PatchedPass(s, c.pidForceRun, h).curr == s.curr
    ensures PatchedPass(s, c.pidForceRun, h).nrSwitches == s.nrSwitches
  {
    PassKeepsReady(s, c.pidForceRun, h);
    hide Valid, OriginalPass;
  }

  lemma {:induction false} QuietKeepsProfiling(c: Ctrl, s: Sched, steps: seq<Step>)
    requires Profiling(c, s) && Quiet(c, s, steps)
    ensures var (d, r) := After(c, s, steps);
            Profiling(d, r) && SameBase(d, c) && r.curr == s.curr && r.nrSwitches == s.nrSwitches
    decreases |steps|
  {
    if steps != [] {
      match steps[0]
      case Pass(h) =>
        PassKeepsProfiling(c, s, h);
        hide Profiling, PatchedPass;
        QuietKeepsProfiling(c, PatchedPass(s, c.pidForceRun, h), steps[1..]);
      case Around(next) =>
        assert Profiling(c, next) by { hide Valid; }
        hide Profiling, Surrounds;
        QuietKeepsProfiling(c, next, steps[1..]);
      case Control(e) =>
        ControlKeepsProfiling(c, s, e);
        hide Profiling;
        QuietKeepsProfiling(OsControl.Step(c, e), s, steps[1..]);
    }
  }

  function CountersOf(s: Sched): Counters
    requires s.curr in s.task
  {
    Counters(s.task[s.curr].nvcsw, s.task[s.curr].nivcsw)
  }

  /**
   From a write that disables the OS for the running task to the one that enables it again, with no
   read, write or watchdog in between, the CPU switches to no other task, whatever sleeps, signals
   and wakeups there are; the profile then says zero, and a read that delivers it returns zeros.
   */
  lemma UninterruptedProfile(c0: Ctrl, s0: Sched, start: Event, steps: seq<Step>, stop: Message)
    requires Valid(c0) && Ready(s0)
    requires Disables(c0, start) && start.m.pid == s0.task[s0.curr].pid > 1 && start.found == Some(CountersOf(s0))
    requires Quiet(OsControl.Step(c0, start), s0, steps)
    requires (stop.Stop? || stop.Start?) && stop.cmd == CMD_ENABLE_OS && stop.pid == start.m.pid
    ensures var (c, s) := After(OsControl.Step(c0, start), s0, steps);
            var done := AfterWrite(c, stop, Some(CountersOf(s)));
            && s.curr == s0.curr && s.nrSwitches == s0.nrSwitches && CountersOf(s) == CountersOf(s0)
            && done.dNvcsw == 0 && done.dNivcsw == 0 && done.prfReady && !Forced(done) && done.irqEnabled
            && (c0.lastCmd != CMD_ENABLE_OS ==> Delivers(done, 0))
  {
    var c1 := OsControl.Step(c0, start);
    StartsProfiling(c0, s0, start);
    QuietKeepsProfiling(c1, s0, steps);
    var (c, s) := After(c1, s0, steps);
    assert CountersOf(s) == CountersOf(s0) by { hide Valid, Quiet, After, OsControl.Step, Surrounds; }
    hide Quiet, After, Profiling;
    StopsProfiling(c, s, stop);
  }

  lemma StartsProfiling(c: Ctrl, s: Sched, start: Event)
    requires Valid(c) && Ready(s)
    requires Disables(c, start) && start.m.pid == s.task[s.curr].pid > 1 && start.found == Some(CountersOf(s))
    ensures Profiling(OsControl.Step(c, start), s) && OsControl.Step(c, start).lastCmd == c.lastCmd
  {
    StepKeepsValid(c, start);
    EngagesIffDisables(c, start);
    hide Valid, Masked, InvalidateDelay;
  }

  lemma StopsProfiling(c: Ctrl, s: Sched, stop: Message)
    requires Profiling(c, s) && (stop.Stop? || stop.Start?) && stop.cmd == CMD_ENABLE_OS
    ensures var done := AfterWrite(c, stop, Some(CountersOf(s)));
            && done.dNvcsw == 0 && done.dNivcsw == 0 && done.prfReady && !Forced(done) && done.irqEnabled
            && (c.lastCmd != CMD_ENABLE_OS ==> Delivers(done, 0))
  {
    assert c.lastEnable == OS_DISABLE;
    hide Masked, InvalidateDelay, Valid;
  }
}
