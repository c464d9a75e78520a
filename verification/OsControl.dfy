/**
 The control module: it disables the operating system around a profiled task by forcing the
 scheduler to one pid and masking every interrupt line it knows, and a timer undoes this should
 nobody else. Each handler is one atomic step; of the L1 cache invalidation only its times matter.
 */
module OsControl {
  import opened Common
  import opened Protocol

  /** The interrupt lines of the board. */
  const IRQ_NO: seq<nat> :=
    [17, 18, 20, 21, 22, 23, 24, 28, 29, 30, 34, 41, 42, 43, 45, 58, 72, 74, 76, 77, 78, 79, 247, 251, 252, 253]
  const LINES := 256

  const KILL_APPLICATION_DELAY_NS := 10 * 1_000_000_000
  const SCHED_RESET_DELAY_NS := 900_000
  const MAX_INVALIDATE_DELAY_NS := 999_999_999

  const OS_DISABLE := 0
  const OS_ENABLE := 1
  const NEVER_SET := 0xFF

  /** The switch counters of the task that a pid names. */
  datatype Counters = Counters(nvcsw: nat, nivcsw: nat)

  /** A timer holds the time it fires at. */
  type Timer = Option<nat>

  /** The state of the module, of the scheduler's forced pid and of the interrupt lines. */
  datatype Ctrl = Ctrl(
    pidForceRun: int, lastPid: int,                        // sched_mod.c
    irqEnabled: bool, depth: seq<nat>,                     // the disable depth of every line
    schedReset: Timer, kill: Timer, invalidate: Timer,
    lastEnable: nat, cmd: nat, lastCmd: nat, pId: int,
    prfReady: bool, dNvcsw: nat, dNivcsw: nat,
    invStart: nat, invEnd: nat,                            // t_L1_inv_start, t_L1_inv_end
    now: nat, engagedAt: nat)                              // the clock, and when the OS was last disabled

  predicate Forced(c: Ctrl) {
    c.pidForceRun != 0
  }

  /** The scheduler module's cached pid is the forced one, and each listed line is masked once or not at all. */
  ghost predicate Balanced(pid: int, lastPid: int, irqEnabled: bool, depth: seq<nat>) {
    && pid == lastPid
    && |depth| == LINES
    && (forall i | i in IRQ_NO :: depth[i] == if irqEnabled then 0 else 1)
  }

  /** While a pid is forced or lines are masked, the timer that undoes it is armed; once the OS was enabled, none is. */
  ghost predicate Valid(c: Ctrl) {
    && Balanced(c.pidForceRun, c.lastPid, c.irqEnabled, c.depth)
    && (Forced(c) || !c.irqEnabled ==> c.schedReset == Some(c.engagedAt + SCHED_RESET_DELAY_NS))
    && (Forced(c) || !c.irqEnabled ==> c.lastEnable == OS_DISABLE)
    && (c.lastEnable != OS_DISABLE ==> c.schedReset.None? && c.kill.None?)
    && NotBefore(c.schedReset, c.now) && NotBefore(c.kill, c.now) && NotBefore(c.invalidate, c.now)
  }

  predicate NotBefore(t: Timer, now: nat) {
    t.Some? ==> now <= t.value
  }

  function SetPid(c: Ctrl, pid: int): Ctrl {
    c.(pidForceRun := pid, lastPid := pid)
  }

  /** Every listed line is enabled, or every one is masked once; the other lines are left alone. */
  function Masked(depth: seq<nat>, enabled: bool): (r: seq<nat>)
    ensures |r| == |depth|
    ensures forall i | 0 <= i < |depth| :: r[i] == if i in IRQ_NO then if enabled then 0 else 1 else depth[i]
  {
    seq(|depth|, i requires 0 <= i < |depth| => if i in IRQ_NO then if enabled then 0 else 1 else depth[i])
  }

  function SetIrqs(c: Ctrl, enabled: bool): Ctrl {
    c.(irqEnabled := enabled, depth := Masked(c.depth, enabled))
  }

  function ResetCntrs(c: Ctrl): Ctrl {
    c.(cmd := CMD_NONE, dNvcsw := 0, dNivcsw := 0, invStart := 0, invEnd := 0)
  }

  /** The OS is disabled for `pid`, under two timers. */
  function Engaged(c: Ctrl, pid: int): Ctrl {
    SetPid(SetIrqs(c, false), pid).(
      schedReset := Some(c.now + SCHED_RESET_DELAY_NS), kill := Some(c.now + KILL_APPLICATION_DELAY_NS),
      lastEnable := OS_DISABLE, engagedAt := c.now)
  }

  /** The OS runs normally again. */
  function Released(c: Ctrl): Ctrl {
    SetPid(SetIrqs(c, true), 0)
  }

  /** Nothing happens when the OS was last set the same way. */
  function WithOs(c: Ctrl, pid: int, enable: nat): Ctrl {
    if enable == c.lastEnable then c
    else if enable == OS_DISABLE then Engaged(c, pid)
    else Released(c).(schedReset := None, kill := None, lastEnable := enable)
  }

  function AfterSchedReset(c: Ctrl): Ctrl {
    Released(c).(schedReset := None)
  }

  function AfterKill(c: Ctrl): Ctrl {
    Released(c).(kill := None, invalidate := None)
  }

  function AfterInvalidate(c: Ctrl, start: nat, end: nat): Ctrl {
    c.(invalidate := None, invStart := start, invEnd := end)
  }

  /** A profile is handed out when one is ready and the command is not that of the last read. */
  predicate Delivers(c: Ctrl, offset: int) {
    offset <= 0 && c.prfReady && c.cmd != c.lastCmd
  }

  function AfterRead(c: Ctrl, offset: int): Ctrl {
    var r := Released(c).(schedReset := None, kill := None, invalidate := None);
    var s := if Delivers(c, offset) then ResetCntrs(r) else r;
    s.(lastCmd := s.cmd)
  }

  /** What a read hands out: nothing at a positive offset, and zeros when no profile is delivered. */
  function ReadOut(c: Ctrl, offset: int): seq<Byte> {
    if offset > 0 then []
    else if Delivers(c, offset) then Answer(c.invEnd - c.invStart, c.dNvcsw, c.dNivcsw)
    else Answer(0, 0, 0)
  }

  function Difference(now: nat, then_: nat): nat {
    if now > then_ then now - then_ else 0
  }

  function InvalidateDelay(delayUs: nat): nat {
    var ns := delayUs * 1000 % 0x1_0000_0000_0000_0000;
    if ns > MAX_INVALIDATE_DELAY_NS then MAX_INVALIDATE_DELAY_NS else ns
  }

  /** What a well-formed command does to a task that exists. */
  function Commanded(c: Ctrl, delayNs: nat, task: Counters): Ctrl {
    var d := c.(invalidate := None);
    if c.cmd == CMD_DISABLE_OS then
      var e := WithOs(d, c.pId, OS_DISABLE).(
                 dNvcsw := task.nvcsw, dNivcsw := task.nivcsw, invStart := 0, invEnd := 0);
      if delayNs > 0 then e.(invalidate := Some(c.now + delayNs)) else e
    else if c.cmd == CMD_ENABLE_OS then
      WithOs(d.(dNvcsw := Difference(task.nvcsw, c.dNvcsw), dNivcsw := Difference(task.nivcsw, c.dNivcsw),
                prfReady := true), c.pId, OS_ENABLE)
    else d
  }

  /** `found` is the task the pid of the message names, if there is one. */
  function AfterWrite(c: Ctrl, m: Message, found: Option<Counters>): Ctrl
    requires !m.Overrun?
  {
    var d := c.(prfReady := false);
    match m
    case CopyFault => d
    case Garbage => ResetCntrs(d)
    case Stop(pid, cmd) => Addressed(d.(pId := pid, cmd := cmd), 0, found)
    case Start(pid, cmd, delayUs) => Addressed(d.(pId := pid, cmd := cmd), InvalidateDelay(delayUs), found)
  }

  function Addressed(c: Ctrl, delayNs: nat, found: Option<Counters>): Ctrl {
    if found.None? then ResetCntrs(SetIrqs(c, true)) else Commanded(c, delayNs, found.value)
  }

  /** Every entry is a line, and none is listed twice. */
  predicate Lines(irqs: seq<nat>) {
    forall n | 0 <= n < |irqs| :: irqs[n] < LINES && irqs[n] !in irqs[..n]
  }

  lemma ListedLine(n: nat)
    requires n < |IRQ_NO|
    ensures IRQ_NO[n] < LINES && forall m | 0 <= m < n :: IRQ_NO[m] < IRQ_NO[n]
  {
  }

  lemma ListedLines()
    ensures Lines(IRQ_NO)
  {
    forall n | 0 <= n < |IRQ_NO| ensures IRQ_NO[n] < LINES && IRQ_NO[n] !in IRQ_NO[..n] {
      ListedLine(n);
    }
  }

  lemma ListedUpTo(irqs: seq<nat>, n: nat)
    requires n < |irqs|
    ensures forall i: nat :: i in irqs[..n + 1] <==> i in irqs[..n] || i == irqs[n]
  {
    assert irqs[..n + 1] == irqs[..n] + [irqs[n]];
  }

  lemma PidIsCached(pid: int, lastPid: int, irqEnabled: bool, depth: seq<nat>)
    requires Balanced(pid, lastPid, irqEnabled, depth)
    ensures pid == lastPid && forall p :: Balanced(p, p, irqEnabled, depth)
  {
  }

  /** Setting all listed lines alike, and the pid with its cache, restores the balance. */
  lemma MaskedIsBalanced(pid: int, lastPid: int, irqEnabled: bool, depth: seq<nat>, enabled: bool)
    requires Balanced(pid, lastPid, irqEnabled, depth)
    ensures Balanced(pid, lastPid, enabled, Masked(depth, enabled))
    ensures forall p :: Balanced(p, p, enabled, Masked(depth, enabled))
  {
  }

  class OsCtrl {
    var pidForceRun: int
    var lastPid: int
    var irqEnabled: bool
    const depth: array<nat>
    var schedReset: Timer
    var kill: Timer
    var invalidate: Timer
    var lastEnable: nat
    var cmd: nat
    var lastCmd: nat
    var pId: int
    var prfReady: bool
    var dNvcsw: nat
    var dNivcsw: nat
    var invStart: nat
    var invEnd: nat
    var now: nat
    ghost var engagedAt: nat

    ghost function View(): Ctrl
      reads this, depth
    {
      Ctrl(pidForceRun, lastPid, irqEnabled, depth[..], schedReset, kill, invalidate, lastEnable, cmd, lastCmd, pId,
           prfReady, dNvcsw, dNivcsw, invStart, invEnd, now, engagedAt)
    }

    /** A module just loaded: every line of the list is enabled and no pid is forced. */
    constructor (now: nat)
      ensures fresh(depth) && Valid(View()) && View().lastEnable == NEVER_SET
      ensures pidForceRun == 0 && irqEnabled && !prfReady && cmd == CMD_NONE && this.now == now
    {
      pidForceRun, lastPid, irqEnabled, lastEnable, cmd, lastCmd, pId := 0, 0, true, NEVER_SET, CMD_NONE, CMD_NONE, 0;
      schedReset, kill, invalidate, prfReady, dNvcsw, dNivcsw := None, None, None, false, 0, 0;
      this.now, engagedAt, invStart, invEnd := now, 0, 0, 0;
      depth := new nat[LINES](_ => 0);
    }

    /** `set_pid_force_run` writes the forced pid only when the cached one differs. */
    method SetPidForceRun(pid: int)
      requires pidForceRun == lastPid
      modifies this`pidForceRun, this`lastPid
      ensures pidForceRun == pid && lastPid == pid
    {
      if pid != lastPid {
        pidForceRun := pid;
      }
      lastPid := pid;
    }

    method EnableIrq(i: nat)
      requires i < depth.Length && depth[i] > 0   // no unbalanced enable
      modifies depth
      ensures depth[..] == old(depth[..])[i := old(depth[i]) - 1]
    {
      depth[i] := depth[i] - 1;
    }

    method DisableIrq(i: nat)
      requires i < depth.Length
      modifies depth
      ensures depth[..] == old(depth[..])[i := old(depth[i]) + 1]
    {
      depth[i] := depth[i] + 1;
    }

    /** `IRQ_ENABLE` over a list of lines. */
    method IrqEnable(irqs: seq<nat>)
      requires Lines(irqs) && depth.Length == LINES && forall i | i in irqs :: depth[i] == if irqEnabled then 0 else 1
      modifies this`irqEnabled, depth
      ensures irqEnabled && forall i | 0 <= i < LINES :: depth[i] == if i in irqs then 0 else old(depth[i])
    {
      var n := 0;
      while !irqEnabled && n < |irqs|
        invariant n <= |irqs| && irqEnabled == old(irqEnabled) && (irqEnabled ==> n == 0)
        invariant forall i | 0 <= i < LINES :: depth[i] == if i in irqs[..n] then 0 else old(depth[i])
      {
        ListedUpTo(irqs, n);
        EnableIrq(irqs[n]);
        n := n + 1;
      }
      irqEnabled := true;
    }

    /** `IRQ_DISABLE` over a list of lines. */
    method IrqDisable(irqs: seq<nat>)
      requires Lines(irqs) && depth.Length == LINES && forall i | i in irqs :: depth[i] == if irqEnabled then 0 else 1
      modifies this`irqEnabled, depth
      ensures !irqEnabled && forall i | 0 <= i < LINES :: depth[i] == if i in irqs then 1 else old(depth[i])
    {
      var n := 0;
      while irqEnabled && n < |irqs|
        invariant n <= |irqs| && irqEnabled == old(irqEnabled) && (!irqEnabled ==> n == 0)
        invariant forall i | 0 <= i < LINES :: depth[i] == if i in irqs[..n] then 1 else old(depth[i])
      {
        ListedUpTo(irqs, n);
        DisableIrq(irqs[n]);
        n := n + 1;
      }
      irqEnabled := false;
    }

    method SetIrqNos(enabled: bool)
      requires Balanced(pidForceRun, lastPid, irqEnabled, depth[..])
      modifies this`irqEnabled, depth
      ensures View() == SetIrqs(old(View()), enabled)
    {
      ListedLines();
      hide Lines;
      if enabled {
        IrqEnable(IRQ_NO);
      } else {
        IrqDisable(IRQ_NO);
      }
      assert depth[..] == Masked(old(depth[..]), enabled);
    }
  
    /** Resume normal operation: the scheduler is not forced and the lines are enabled. */
    method Release()
      requires Balanced(pidForceRun, lastPid, irqEnabled, depth[..])
      modifies this`pidForceRun, this`lastPid, this`irqEnabled, depth
      ensures View() == Released(old(View()))
    {
      hide Masked, Balanced;
      PidIsCached(pidForceRun, lastPid, irqEnabled, depth[..]);
      SetPidForceRun(0);
      SetIrqNos(true);
    }

    /** Disable the OS for `pid`: the two timers first, then the lines, then the scheduler. */
    method Engage(pid: int)
      requires Balanced(pidForceRun, lastPid, irqEnabled, depth[..])
      modifies this`kill, this`schedReset, this`engagedAt, this`irqEnabled, this`pidForceRun, this`lastPid, depth
      ensures View() == Engaged(old(View()), pid).(lastEnable := old(lastEnable))
    {
      hide Masked, Balanced;
      PidIsCached(pidForceRun, lastPid, irqEnabled, depth[..]);
      StartTimers();
      SetIrqNos(false);
      SetPidForceRun(pid);
    }

    method StartTimers()
      modifies this`kill, this`schedReset, this`engagedAt
      ensures View() == old(View()).(schedReset := Some(now + SCHED_RESET_DELAY_NS),
                                     kill := Some(now + KILL_APPLICATION_DELAY_NS), engagedAt := now)
    {
      kill := Some(now + KILL_APPLICATION_DELAY_NS);
      schedReset := Some(now + SCHED_RESET_DELAY_NS);
      engagedAt := now;
    }

    /** Release, and stop all three timers. */
    method ReleaseAndStop()
      requires Balanced(pidForceRun, lastPid, irqEnabled, depth[..])
      modifies this, depth
      ensures View() == Released(old(View())).(schedReset := None, kill := None, invalidate := None)
    {
      hide Masked, Balanced;
      Release();
      schedReset, kill, invalidate := None, None, None;
    }

    method CancelTimers()
      modifies this`kill, this`schedReset
      ensures View() == old(View()).(schedReset := None, kill := None)
    {
      schedReset := None;
      kill := None;
    }

    /** `set_os` */
    method SetOs(pid: int, enable: nat)
      requires Balanced(pidForceRun, lastPid, irqEnabled, depth[..])
      modifies this, depth
      ensures View() == WithOs(old(View()), pid, enable) && now == old(now)
    {
      hide Masked, Balanced;
      if enable != lastEnable {
        CancelTimers();
        if enable == OS_DISABLE {
          Engage(pid);
        } else {
          Release();
        }
      }
      lastEnable := enable;
    }
  
    method ResetCounters()
      modifies this`cmd, this`dNvcsw, this`dNivcsw, this`invStart, this`invEnd
      ensures View() == ResetCntrs(old(View()))
    {
      cmd := CMD_NONE;
      dNvcsw, dNivcsw := 0, 0;
      invStart, invEnd := 0, 0;
    }

    /** The reset timer has fired. */
    method SchedResetInterruptHandler()
      requires Valid(View())
      modifies this, depth
      ensures View() == AfterSchedReset(old(View()))
    {
      hide Masked, Balanced;
      schedReset := None;
      Release();
    }

    /** The application timer has fired; a task other than pid 0 is sent SIGKILL if it is found. */
    method KillApplicationInterruptHandler(found: bool) returns (killed: bool)
      requires Valid(View())
      modifies this, depth
      ensures View() == AfterKill(old(View())) && killed == (pId != 0 && found)
    {
      hide Masked, Balanced;
      kill := None;
      Release();
      invalidate := None;
      if pId == 0 {
        return false;
      }
      killed := found;
    }

    /** The cache is invalidated from `start` to `end`; nothing else depends on it. */
    method InvalidateL1CacheInterruptHandler(start: nat, end: nat)
      modifies this`invalidate, this`invStart, this`invEnd
      ensures View() == AfterInvalidate(old(View()), start, end)
    {
      invStart := start;
      invEnd := end;
      invalidate := None;
    }

    method OnReadHandler(offset: int) returns (out: seq<Byte>)
      requires Valid(View())
      modifies this, depth
      ensures View() == AfterRead(old(View()), offset) && out == ReadOut(old(View()), offset)
    {
      hide Masked, Balanced, Answer;
      ReleaseAndStop();
      out := Answer(0, 0, 0);
      if offset <= 0 && prfReady && cmd != lastCmd {
        out := Answer(invEnd - invStart, dNvcsw, dNivcsw);
        ResetCounters();
      }
      lastCmd := cmd;
      if offset > 0 {
        out := [];
      }
    }

    /** The command of a parsed message, for the task its pid names. */
    method HandleCommand(delayNs: nat, task: Counters)
      requires Valid(View())
      modifies this, depth
      ensures View() == Commanded(old(View()), delayNs, task)
    {
      hide Masked, WithOs, Balanced;
      invalidate := None;
      if cmd == CMD_DISABLE_OS {
        StartProfile(delayNs, task);
      } else if cmd == CMD_ENABLE_OS {
        StopProfile(task);
      }
    }

    method StartProfile(delayNs: nat, task: Counters)
      requires Balanced(pidForceRun, lastPid, irqEnabled, depth[..])
      modifies this, depth
      ensures var e := WithOs(old(View()), old(pId), OS_DISABLE).(
                         dNvcsw := task.nvcsw, dNivcsw := task.nivcsw, invStart := 0, invEnd := 0);
              View() == if delayNs > 0 then e.(invalidate := Some(old(now) + delayNs)) else e
    {
      hide Masked, WithOs, Balanced;
      SetOs(pId, OS_DISABLE);
      StartCounting(delayNs, task);
    }

    method StartCounting(delayNs: nat, task: Counters)
      modifies this`dNvcsw, this`dNivcsw, this`invStart, this`invEnd, this`invalidate
      ensures var e := old(View()).(dNvcsw := task.nvcsw, dNivcsw := task.nivcsw, invStart := 0, invEnd := 0);
              View() == if delayNs > 0 then e.(invalidate := Some(now + delayNs)) else e
    {
      dNvcsw, dNivcsw := task.nvcsw, task.nivcsw;
      invStart, invEnd := 0, 0;
      if delayNs > 0 {
        invalidate := Some(now + delayNs);
      }
    }

    method StopProfile(task: Counters)
      requires Balanced(pidForceRun, lastPid, irqEnabled, depth[..])
      modifies this, depth
      ensures View() ==
              WithOs(old(View()).(dNvcsw := Difference(task.nvcsw, old(dNvcsw)),
                                  dNivcsw := Difference(task.nivcsw, old(dNivcsw)), prfReady := true),
                     old(pId), OS_ENABLE)
    {
      hide Masked, WithOs, Balanced;
      dNvcsw := if task.nvcsw > dNvcsw then task.nvcsw - dNvcsw else 0;
      dNivcsw := if task.nivcsw > dNivcsw then task.nivcsw - dNivcsw else 0;
      prfReady := true;
      SetOs(pId, OS_ENABLE);
    }

    /** `cleanup_module` */
    method CleanupModule()
      requires Valid(View())
      modifies this, depth
      ensures View() == Released(old(View())).(schedReset := None, kill := None, invalidate := None)
      ensures Valid(View()) && Unloaded(View())
    {
      hide Masked, Balanced;
      MaskedIsBalanced(pidForceRun, lastPid, irqEnabled, depth[..], true);
      ReleaseAndStop();
    }

    /** Reads the fields of a command that fits the buffer. */
    method ParseCommand(b: seq<Byte>, faults: bool) returns (parsed: bool, delayNs: nat)
      requires |b| <= PROCFS_MAX_SIZE
      modifies this`cmd, this`pId, this`dNvcsw, this`dNivcsw, this`invStart, this`invEnd
      ensures var m := Parse(b, faults);
              && parsed == (m.Stop? || m.Start?)
              && delayNs == (if m.Start? then InvalidateDelay(m.delayUs) else 0)
              && View() == match m
                           case CopyFault => old(View())
                           case Garbage => ResetCntrs(old(View()))
                           case _ => old(View()).(pId := m.pid, cmd := m.cmd)
    {
      hide InvalidateDelay, Value, PidOf;
      parsed, delayNs := false, 0;
      if !faults {
        if |b| == STOP_CMD_LENGTH {
          pId, cmd := PidOf(b[..PID_LENGTH]), b[PID_LENGTH];
          parsed := true;
        } else if |b| == START_CMD_LENGTH {
          pId, cmd := PidOf(b[..PID_LENGTH]), b[PID_LENGTH];
          delayNs := InvalidateDelay(Value(b[PID_LENGTH + 1..]));
          parsed := true;
        } else {
          ResetCounters();
        }
      }
    }

    /** What the variables beside the buffer hold once the copy has run past it: anything. */
    method Overwritten() returns (ok: bool)
      modifies this
    {
      pidForceRun, lastPid, irqEnabled, schedReset, kill, invalidate := *, *, *, *, *, *;
      lastEnable, cmd, lastCmd, pId, prfReady, dNvcsw, dNivcsw, invStart, invEnd := *, *, *, *, *, *, *, *, *;
      ok := *;
    }

    /**
     Fails unless the written bytes parse and their pid names a task. All bytes are copied first;
     nothing is known after a write that is longer than the buffer.
     */
    method OnWrittenHandler(b: seq<Byte>, faults: bool, found: Option<Counters>) returns (ok: bool)
      requires Valid(View())
      modifies this, depth
      ensures |b| <= PROCFS_MAX_SIZE ==>
                View() == AfterWrite(old(View()), Parse(b, faults), found)
                && ok == ((Parse(b, faults).Stop? || Parse(b, faults).Start?) && found.Some?)
    {
      hide Masked, Balanced, Parse, InvalidateDelay;
      if |b| > PROCFS_MAX_SIZE {
        ok := Overwritten();
        return;
      }
      prfReady := false;
      var parsed, delayNs := ParseCommand(b, faults);
      ok := parsed && found.Some?;
      if ok {
        HandleCommand(delayNs, found.value);
      } else if parsed {
        SetIrqNos(true);
        ResetCounters();
      }
    }
  }

  /** What unloading the module leaves behind. */
  predicate Unloaded(c: Ctrl) {
    !Forced(c) && c.irqEnabled && c.schedReset.None? && c.kill.None? && c.invalidate.None?
  }

  datatype Event =
    | Read(offset: int)
    | Write(m: Message, found: Option<Counters>)
    | SchedResetFires
    | KillFires
    | InvalidateFires(start: nat, end: nat) // the cache is invalidated from start to end
    | Advance(now: nat)                     // time passes, up to the next armed timer

  predicate Enabled(c: Ctrl, e: Event) {
    match e
    case Read(_) => true
    case Write(m, _) => !m.Overrun?
    case SchedResetFires => c.schedReset == Some(c.now)
    case KillFires => c.kill == Some(c.now)
    case InvalidateFires(start, end) => c.invalidate == Some(c.now) && start <= end
    case Advance(t) => c.now <= t && NotBefore(c.schedReset, t) && NotBefore(c.kill, t) && NotBefore(c.invalidate, t)
  }

  function Step(c: Ctrl, e: Event): Ctrl
    requires Enabled(c, e)
  {
    match e
    case Read(offset) => AfterRead(c, offset)
    case Write(m, found) => AfterWrite(c, m, found)
    case SchedResetFires => AfterSchedReset(c)
    case KillFires => AfterKill(c)
    case InvalidateFires(start, end) => AfterInvalidate(c, start, end)
    case Advance(t) => c.(now := t)
  }

  /** A write that disables the OS for a task, unless the OS was last disabled and not enabled since. */
  predicate Disables(c: Ctrl, e: Event) {
    && e.Write? && e.found.Some? && (e.m.Stop? || e.m.Start?) && e.m.cmd == CMD_DISABLE_OS
    && c.lastEnable != OS_DISABLE
  }

  lemma WithOsKeepsValid(c: Ctrl, pid: int, enable: nat)
    requires Valid(c)
    ensures Valid(WithOs(c, pid, enable))
  {
    hide Masked, Balanced;
    MaskedIsBalanced(c.pidForceRun, c.lastPid, c.irqEnabled, c.depth, enable != OS_DISABLE);
  }

  /** The counters, the command and the cache timer are outside the invariant. */
  lemma OthersKeepValid(c: Ctrl, d: Ctrl)
    requires Valid(c) && NotBefore(d.invalidate, c.now)
    requires d == c.(dNvcsw := d.dNvcsw, dNivcsw := d.dNivcsw, prfReady := d.prfReady, cmd := d.cmd, pId := d.pId,
                     invalidate := d.invalidate, invStart := d.invStart, invEnd := d.invEnd)
    ensures Valid(d)
  {
  }

  lemma CommandKeepsValid(c: Ctrl, delayNs: nat, task: Counters)
    requires Valid(c)
    ensures Valid(Commanded(c, delayNs, task))
  {
    hide Valid, Masked, Difference;
    var d := c.(invalidate := None);
    OthersKeepValid(c, d);
    if c.cmd == CMD_DISABLE_OS {
      WithOsKeepsValid(d, c.pId, OS_DISABLE);
      OthersKeepValid(WithOs(d, c.pId, OS_DISABLE), Commanded(c, delayNs, task));
    } else if c.cmd == CMD_ENABLE_OS {
      var e := d.(dNvcsw := Difference(task.nvcsw, c.dNvcsw), dNivcsw := Difference(task.nivcsw, c.dNivcsw),
                  prfReady := true);
      OthersKeepValid(d, e);
      WithOsKeepsValid(e, c.pId, OS_ENABLE);
    }
  }

  lemma WriteKeepsValid(c: Ctrl, m: Message, found: Option<Counters>)
    requires Valid(c) && !m.Overrun?
    ensures Valid(AfterWrite(c, m, found))
  {
    hide Commanded, Masked, InvalidateDelay;
    if found.Some? && (m.Stop? || m.Start?) {
      var d := c.(prfReady := false, pId := m.pid, cmd := m.cmd);
      assert Valid(d);
      CommandKeepsValid(d, if m.Stop? then 0 else InvalidateDelay(m.delayUs), found.value);
    }
  }

  lemma StepKeepsValid(c: Ctrl, e: Event)
    requires Valid(c) && Enabled(c, e)
    ensures Valid(Step(c, e))
  {
    hide Masked, Balanced, AfterWrite;
    MaskedIsBalanced(c.pidForceRun, c.lastPid, c.irqEnabled, c.depth, true);
    if e.Write? {
      WriteKeepsValid(c, e.m, e.found);
    }
  }

  ghost predicate Runs(c: Ctrl, events: seq<Event>)
    decreases |events|
  {
    events != [] ==> Enabled(c, events[0]) && Runs(Step(c, events[0]), events[1..])
  }

  ghost function Exec(c: Ctrl, events: seq<Event>): Ctrl
    requires Runs(c, events)
    decreases |events|
  {
    if events == [] then c else Exec(Step(c, events[0]), events[1..])
  }

  lemma {:induction false} RunKeepsValid(c: Ctrl, events: seq<Event>)
    requires Valid(c) && Runs(c, events)
    ensures Valid(Exec(c, events))
    decreases |events|
  {
    hide Valid, Step, Enabled;
    if events != [] {
      StepKeepsValid(c, events[0]);
      RunKeepsValid(Step(c, events[0]), events[1..]);
    }
  }

  /**
   While a pid is forced or lines are masked, the reset timer is armed and no more than 900000 ns
   have passed since the OS was disabled. The listed lines are masked once or not at all, as
   `irq_enabled` says, and the forced pid is the cached one.
   */
  ghost predicate Watched(c: Ctrl) {
    && (Forced(c) || !c.irqEnabled ==>
          && c.schedReset == Some(c.engagedAt + 900_000)
          && c.now <= c.engagedAt + 900_000)
    && |c.depth| == LINES && (forall i | i in IRQ_NO :: c.depth[i] == if c.irqEnabled then 0 else 1)
    && c.pidForceRun == c.lastPid
  }

  /** In every run whose writes fit the buffer. */
  lemma WatchdogBoundsForcing(c0: Ctrl, events: seq<Event>)
    requires Valid(c0) && Runs(c0, events)
    ensures Watched(Exec(c0, events))
  {
    RunKeepsValid(c0, events);
  }

  predicate Overruns(e: Event) {
    e.Write? && e.m.Overrun?
  }

  /** The events may lead from `c` to `d`: after a write that overruns the buffer, to any state. */
  ghost predicate Reaches(c: Ctrl, events: seq<Event>, d: Ctrl)
    decreases |events|
  {
    if events == [] then d == c
    else Overruns(events[0]) || (Enabled(c, events[0]) && Reaches(Step(c, events[0]), events[1..], d))
  }

  lemma {:induction false} ReachesWithoutOverrun(c: Ctrl, events: seq<Event>, d: Ctrl)
    requires forall k | 0 <= k < |events| :: !Overruns(events[k])
    ensures Reaches(c, events, d) <==> Runs(c, events) && d == Exec(c, events)
    decreases |events|
  {
    hide Enabled, Step;
    if events != [] && Enabled(c, events[0]) {
      ReachesWithoutOverrun(Step(c, events[0]), events[1..], d);
    }
  }

  lemma {:induction false} ReachesAnything(c: Ctrl, events: seq<Event>, d: Ctrl, any: Ctrl)
    requires Reaches(c, events, d) && exists k | 0 <= k < |events| :: Overruns(events[k])
    ensures Reaches(c, events, any)
    decreases |events|
  {
    hide Enabled, Step;
    if !Overruns(events[0]) {
      var k :| 0 <= k < |events| && Overruns(events[k]);
      assert Overruns(events[1..][k - 1]);
      ReachesAnything(Step(c, events[0]), events[1..], d, any);
    }
  }

  /** The watchdog can be relied on after `events` if and only if no write among them overran the buffer. */
  lemma WatchdogHoldsIff(c0: Ctrl, events: seq<Event>, d0: Ctrl)
    requires Valid(c0) && Reaches(c0, events, d0)
    ensures (forall d | Reaches(c0, events, d) :: Watched(d)) <==>
            forall k | 0 <= k < |events| :: !Overruns(events[k])
  {
    hide Valid, Reaches, Runs, Exec;
    if forall k | 0 <= k < |events| :: !Overruns(events[k]) {
      forall d | Reaches(c0, events, d) ensures Watched(d) {
        ReachesWithoutOverrun(c0, events, d);
        WatchdogBoundsForcing(c0, events);
      }
    } else {
      var lost := c0.(pidForceRun := 1, lastPid := 0);
      ReachesAnything(c0, events, d0, lost);
      assert !Watched(lost);
    }
  }

  /** 14 bytes are enough to lose it. */
  lemma FourteenBytesOverrun(c: Ctrl, b: seq<Byte>)
    requires Valid(c) && |b| == 14
    ensures exists d :: Reaches(c, [Write(Parse(b, false), None)], d) && !Watched(d)
  {
    var lost := c.(pidForceRun := 1, lastPid := 0);
    assert Reaches(c, [Write(Parse(b, false), None)], lost) && !Watched(lost);
  }

  /** Forcing begins, and the time it is measured from is set, exactly by a write that disables the OS. */
  lemma EngagesIffDisables(c: Ctrl, e: Event)
    requires Enabled(c, e)
    ensures Disables(c, e) ==>
              var r := Step(c, e);
              && r.pidForceRun == e.m.pid && !r.irqEnabled && r.engagedAt == c.now && r.lastEnable == OS_DISABLE
              && r.schedReset == Some(c.now + 900_000) && r.kill == Some(c.now + 10_000_000_000)
              && r.dNvcsw == e.found.value.nvcsw && r.dNivcsw == e.found.value.nivcsw
    ensures !Disables(c, e) ==>
              var r := Step(c, e);
              && r.engagedAt == c.engagedAt
              && (r.pidForceRun == c.pidForceRun || r.pidForceRun == 0) && (c.irqEnabled ==> r.irqEnabled)
  {
    hide Masked, InvalidateDelay, Difference;
    if e.Write? {
      var d := if e.m.Stop? || e.m.Start? then c.(prfReady := false, pId := e.m.pid, cmd := e.m.cmd) else c;
      if e.found.Some? && (e.m.Stop? || e.m.Start?) {
        var delay := if e.m.Stop? then 0 else InvalidateDelay(e.m.delayUs);
        assert Step(c, e) == Commanded(d, delay, e.found.value);
        hide AfterWrite, Step;
      }
    } else {
      hide AfterWrite;
    }
  }

  /** An event that gives the machine back: a read, an enabling write to a task, or one of the two timers. */
  predicate Releases(e: Event) {
    || e.Read? || e.SchedResetFires? || e.KillFires?
    || Enables(e)
  }

  /** A read, an enabling write and both timers give the machine back. */
  lemma ReleasedAfter(c: Ctrl, e: Event)
    requires Valid(c) && Enabled(c, e)
    requires Releases(e)
    ensures !Forced(Step(c, e)) && Step(c, e).irqEnabled
  {
    assert Forced(c) || !c.irqEnabled ==> c.lastEnable == OS_DISABLE;
    hide Valid, Masked, InvalidateDelay, Difference;
    if !e.Write? {
      hide AfterWrite;
    }
  }

  /** A write that enables the OS for a task. */
  predicate Enables(e: Event) {
    e.Write? && e.found.Some? && (e.m.Stop? || e.m.Start?) && e.m.cmd == CMD_ENABLE_OS
  }

  /**
   After an enabling write or a read neither the reset timer nor the one that kills is armed; after
   the write, a disabling one for a task engages again.
   */
  lemma EnablingDisarms(c: Ctrl, e: Event)
    requires Valid(c) && Enabled(c, e) && (e.Read? || Enables(e))
    ensures var r := Step(c, e);
            && r.kill.None? && r.schedReset.None?
            && (if e.Read? then r.invalidate.None? && r.lastEnable == c.lastEnable else r.lastEnable == OS_ENABLE)
  {
    assert c.lastEnable != OS_DISABLE ==> c.schedReset.None? && c.kill.None?;
    hide Valid, Masked, Difference, InvalidateDelay, Balanced;
    if e.Read? {
      hide AfterWrite;
    }
  }

  lemma StepStaysDisarmed(c: Ctrl, e: Event)
    requires Valid(c) && Enabled(c, e) && c.kill.None? && c.schedReset.None? && !Disables(c, e)
    ensures Step(c, e).kill.None? && Step(c, e).schedReset.None?
  {
    hide Valid, Masked, Difference, InvalidateDelay, Balanced;
    if !e.Write? {
      hide AfterWrite;
    }
  }

  /** None of `events` is a write that disables the OS when it happens. */
  ghost predicate NoneDisables(c: Ctrl, events: seq<Event>)
    requires Runs(c, events)
    decreases |events|
  {
    events != [] ==> !Disables(c, events[0]) && NoneDisables(Step(c, events[0]), events[1..])
  }

  lemma {:induction false} StaysDisarmed(c: Ctrl, events: seq<Event>)
    requires Valid(c) && Runs(c, events) && c.kill.None? && c.schedReset.None? && NoneDisables(c, events)
    ensures Exec(c, events).kill.None? && Exec(c, events).schedReset.None?
    decreases |events|
  {
    if events != [] {
      StepKeepsValid(c, events[0]);
      StepStaysDisarmed(c, events[0]);
      hide Step, Enabled, Valid, Disables;
      StaysDisarmed(Step(c, events[0]), events[1..]);
    }
  }

  /** A task that was profiled to the end is not killed: not before the OS is disabled again. */
  lemma NoKillAfterStop(c: Ctrl, stop: Event, events: seq<Event>)
    requires Valid(c) && Enabled(c, stop) && (stop.Read? || Enables(stop))
    requires Runs(Step(c, stop), events) && NoneDisables(Step(c, stop), events)
    ensures !Enabled(Exec(Step(c, stop), events), KillFires)
    ensures !Enabled(Exec(Step(c, stop), events), SchedResetFires)
  {
    StepKeepsValid(c, stop);
    EnablingDisarms(c, stop);
    hide Step, Valid, Runs, Exec, Disables;
    StaysDisarmed(Step(c, stop), events);
  }

  /** A timer that fires is spent; of the others the one that kills also stops the cache timer. */
  lemma TimersAreSpent(c: Ctrl, e: Event)
    requires Enabled(c, e)
    ensures var r := Step(c, e);
            && (e.SchedResetFires? ==> r.schedReset.None? && r.kill == c.kill && r.invalidate == c.invalidate)
            && (e.KillFires? ==> r.kill.None? && r.schedReset == c.schedReset && r.invalidate.None?)
            && (e.InvalidateFires? ==>
                  r.invalidate.None? && r.kill == c.kill && r.schedReset == c.schedReset
                  && r.pidForceRun == c.pidForceRun && r.irqEnabled == c.irqEnabled)
            && (e.Advance? ==> r == c.(now := e.now))
  {
    hide Masked, AfterWrite;
  }

  /** What a write that fails leaves: no profile to hand out, and the forced pid and the timers as they were. */
  lemma FailedWrites(c: Ctrl, m: Message, found: Option<Counters>)
    requires m.CopyFault? || m.Garbage? || ((m.Stop? || m.Start?) && found.None?)
    ensures var r := AfterWrite(c, m, found);
            && !r.prfReady && r.pidForceRun == c.pidForceRun && r.lastEnable == c.lastEnable
            && r.schedReset == c.schedReset && r.kill == c.kill && r.invalidate == c.invalidate
            && (m.CopyFault? ==> r == c.(prfReady := false))
            && (!m.CopyFault? ==> r.cmd == CMD_NONE && r.dNvcsw == 0 && r.dNivcsw == 0 && r.invStart == r.invEnd == 0)
            && r.irqEnabled == (c.irqEnabled || m.Stop? || m.Start?)
  {
    hide Masked;
  }

  /** A command that is neither of the two only stops the cache timer. */
  lemma UnknownCommandIsIgnored(c: Ctrl, m: Message, task: Counters)
    requires (m.Stop? || m.Start?) && m.cmd != CMD_DISABLE_OS && m.cmd != CMD_ENABLE_OS
    ensures AfterWrite(c, m, Some(task)) == c.(prfReady := false, pId := m.pid, cmd := m.cmd, invalidate := None)
  {
  }

  /** The cache timer of a start fires after its delay, capped below a second; a delay of zero arms none. */
  lemma CacheTimerDelay(c: Ctrl, m: Message, task: Counters)
    requires m.Start? && m.cmd == CMD_DISABLE_OS && m.delayUs * 1000 < 0x1_0000_0000_0000_0000
    ensures var r := AfterWrite(c, m, Some(task));
            && (m.delayUs == 0 ==> r.invalidate.None?)
            && (0 < m.delayUs < 1_000_000 ==> r.invalidate == Some(c.now + m.delayUs * 1000))
            && (m.delayUs >= 1_000_000 ==> r.invalidate == Some(c.now + 999_999_999))
  {
    hide Masked;
  }

  /** Nothing else ends the forcing, moves its timer, or disables lines again while it lasts. */
  lemma StepStaysForced(c: Ctrl, e: Event)
    requires Valid(c) && Forced(c) && Enabled(c, e) && !Releases(e)
    ensures var r := Step(c, e);
            && r.pidForceRun == c.pidForceRun && r.schedReset == c.schedReset && r.engagedAt == c.engagedAt
            && (c.irqEnabled ==> r.irqEnabled)
  {
    assert c.lastEnable == OS_DISABLE;
    hide Valid, Masked, InvalidateDelay, Difference, NotBefore;
    if e.Write? && e.found.Some? && (e.m.Stop? || e.m.Start?) {
      CommandStaysForced(c.(prfReady := false, pId := e.m.pid, cmd := e.m.cmd),
                         if e.m.Stop? then 0 else InvalidateDelay(e.m.delayUs), e.found.value);
      hide Commanded;
    }
  }

  lemma CommandStaysForced(c: Ctrl, delayNs: nat, task: Counters)
    requires c.lastEnable == OS_DISABLE && c.cmd != CMD_ENABLE_OS
    ensures var r := Commanded(c, delayNs, task);
            && r.pidForceRun == c.pidForceRun && r.schedReset == c.schedReset && r.engagedAt == c.engagedAt
            && r.irqEnabled == c.irqEnabled
  {
    hide Masked, Difference;
  }

  /**
   A write that names no task enables the lines, but the scheduler stays forced through whatever
   follows until something releases it, and the reset timer does so within 900000 ns of the start.
   */
  lemma {:induction false} UnknownPidStaysForced(c: Ctrl, m: Message, events: seq<Event>)
    requires Valid(c) && Forced(c) && (m.Stop? || m.Start?)
    requires Runs(AfterWrite(c, m, None), events) && forall k | 0 <= k < |events| :: !Releases(events[k])
    ensures var r := Exec(AfterWrite(c, m, None), events);
            && r.irqEnabled && r.pidForceRun == c.pidForceRun
            && r.schedReset == Some(c.engagedAt + SCHED_RESET_DELAY_NS) && r.now <= c.engagedAt + SCHED_RESET_DELAY_NS
            && (Enabled(r, SchedResetFires) ==> !Forced(Step(r, SchedResetFires)))
  {
    WriteKeepsValid(c, m, None);
    StaysForced(AfterWrite(c, m, None), events);
    hide Masked, Exec, Runs;
  }

  lemma {:induction false} StaysForced(c: Ctrl, events: seq<Event>)
    requires Valid(c) && Forced(c) && Runs(c, events) && forall k | 0 <= k < |events| :: !Releases(events[k])
    ensures var r := Exec(c, events);
            && Valid(r) && r.pidForceRun == c.pidForceRun && r.engagedAt == c.engagedAt
            && (c.irqEnabled ==> r.irqEnabled)
    decreases |events|
  {
    if events != [] {
      StepKeepsValid(c, events[0]);
      StepStaysForced(c, events[0]);
      hide Step, Enabled, Valid;
      StaysForced(Step(c, events[0]), events[1..]);
    }
  }

  lemma StaysDisabled(c: Ctrl, e: Event)
    requires Enabled(c, e) && c.lastEnable == OS_DISABLE
    requires e.Write? && (e.m.Stop? || e.m.Start?) ==> e.m.cmd != CMD_ENABLE_OS
    ensures Step(c, e).lastEnable == OS_DISABLE && !Disables(c, e)
  {
    hide Masked, InvalidateDelay, Difference;
  }

  /**
   Once released by the reset timer or a read, the OS cannot be disabled again before it has been
   enabled explicitly: `set_os` remembers its last request, not that something else undid it.
   */
  lemma {:induction false} StaysReleased(c: Ctrl, events: seq<Event>)
    requires Valid(c) && Runs(c, events) && !Forced(c) && c.irqEnabled && c.lastEnable == OS_DISABLE
    requires forall k | 0 <= k < |events| ::
               events[k].Write? && (events[k].m.Stop? || events[k].m.Start?) ==> events[k].m.cmd != CMD_ENABLE_OS
    ensures !Forced(Exec(c, events)) && Exec(c, events).irqEnabled
    decreases |events|
  {
    if events != [] {
      StepKeepsValid(c, events[0]);
      EngagesIffDisables(c, events[0]);
      StaysDisabled(c, events[0]);
      hide Step, Enabled, Valid;
      StaysReleased(Step(c, events[0]), events[1..]);
    }
  }

  /** A profile is handed out at most once: after any read, none is until the next write. */
  lemma {:induction false} DeliveredOnce(c: Ctrl, first: int, events: seq<Event>, offset: int)
    requires Runs(AfterRead(c, first), events)
    requires forall k | 0 <= k < |events| :: !events[k].Write?
    ensures !Delivers(Exec(AfterRead(c, first), events), offset)
  {
    SameCommand(AfterRead(c, first), events);
  }

  lemma {:induction false} SameCommand(c: Ctrl, events: seq<Event>)
    requires Runs(c, events) && c.cmd == c.lastCmd
    requires forall k | 0 <= k < |events| :: !events[k].Write?
    ensures Exec(c, events).cmd == Exec(c, events).lastCmd
    decreases |events|
  {
    if events != [] {
      assert Step(c, events[0]).cmd == Step(c, events[0]).lastCmd by { hide Masked, AfterWrite; }
      hide Step, Enabled;
      SameCommand(Step(c, events[0]), events[1..]);
    }
  }

  /** The depths stay, or all listed lines are set alike. */
  ghost predicate MasksOnly(d: seq<nat>, r: seq<nat>) {
    r == d || r == Masked(d, true) || r == Masked(d, false)
  }

  lemma CommandMasks(c: Ctrl, delayNs: nat, task: Counters)
    ensures MasksOnly(c.depth, Commanded(c, delayNs, task).depth)
  {
    hide Masked, Difference;
  }

  lemma StepMasks(c: Ctrl, e: Event)
    requires Enabled(c, e)
    ensures MasksOnly(c.depth, Step(c, e).depth)
  {
    hide Masked, InvalidateDelay, Commanded;
    if e.Write? && e.found.Some? && (e.m.Stop? || e.m.Start?) {
      CommandMasks(c.(prfReady := false, pId := e.m.pid, cmd := e.m.cmd),
                   if e.m.Stop? then 0 else InvalidateDelay(e.m.delayUs), e.found.value);
    }
  }

  /** No run ever touches a line that is not listed. */
  lemma {:induction false} OtherLinesUntouched(c: Ctrl, events: seq<Event>, i: nat)
    requires Runs(c, events) && i < |c.depth| && i !in IRQ_NO
    ensures |Exec(c, events).depth| == |c.depth| && Exec(c, events).depth[i] == c.depth[i]
    decreases |events|
  {
    if events != [] {
      StepMasks(c, events[0]);
      hide Step, Enabled;
      OtherLinesUntouched(Step(c, events[0]), events[1..], i);
    }
  }
}
