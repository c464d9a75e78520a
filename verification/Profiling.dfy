/**
 The profiling library against the control module: a start, whatever the timers and other readers
 do, a stop and a read. The library measures the run time less the time spent invalidating the
 cache, and refuses the measurement when it is zero or the task was switched.
 */
module Profiling {
  import opened Common
  import opened Words
  import opened Protocol
  import opened OsControl

  datatype Status = Success | BadValue

  /** The measured time of a run, from the answer of the module. */
  function Measured(runNs: int, rx: seq<Byte>): nat
    requires |rx| == RX_LENGTH
  {
    var invNs := Value(rx[..DELAY_LENGTH]);
    if Elapsed(runNs) > invNs then Elapsed(runNs) - invNs else 0
  }

  /** What stopping returns when every file operation succeeds. */
  function StopStatus(runNs: int, rx: seq<Byte>): Status
    requires |rx| == RX_LENGTH
  {
    if Measured(runNs, rx) == 0 || rx[DELAY_LENGTH] != 0 || rx[DELAY_LENGTH + 1] != 0 then BadValue else Success
  }

  function StartBytes(pid: int, delayUs: nat): (r: seq<Byte>)
    requires Fits(Start(pid, CMD_DISABLE_OS, delayUs))
    ensures |r| == START_CMD_LENGTH
  {
    Pack(Start(pid, CMD_DISABLE_OS, delayUs))
  }

  function StopBytes(pid: int): (r: seq<Byte>)
    requires Fits(Stop(pid, CMD_ENABLE_OS))
    ensures |r| == STOP_CMD_LENGTH
  {
    Pack(Stop(pid, CMD_ENABLE_OS))
  }

  /** The time that the cache was being invalidated. */
  ghost function Spent(events: seq<Event>): int {
    if events == [] then 0
    else (if events[0].InvalidateFires? then events[0].end - events[0].start else 0) + Spent(events[1..])
  }

  ghost predicate Reads(events: seq<Event>) {
    exists k | 0 <= k < |events| :: events[k].Read?
  }

  ghost predicate NoWrites(events: seq<Event>) {
    forall k | 0 <= k < |events| :: !events[k].Write?
  }

  /** A task is being profiled; the cache timer is armed only while nothing was spent. */
  ghost predicate Profiled(c: Ctrl, t: Counters) {
    && c.cmd == CMD_DISABLE_OS && !c.prfReady && c.dNvcsw == t.nvcsw && c.dNivcsw == t.nivcsw
    && (c.invalidate.Some? ==> c.invEnd == c.invStart)
  }

  lemma StartIsProfiled(c: Ctrl, pid: int, delayUs: nat, t: Counters)
    requires Fits(Start(pid, CMD_DISABLE_OS, delayUs))
    ensures var d := AfterWrite(c, Parse(StartBytes(pid, delayUs), false), Some(t));
            Profiled(d, t) && d.invEnd == d.invStart && d.lastCmd == c.lastCmd
  {
    hide Parse, Pack, Masked, InvalidateDelay;
    ParseOfPack(Start(pid, CMD_DISABLE_OS, delayUs));
  }

  lemma StepStaysProfiled(c: Ctrl, e: Event, t: Counters)
    requires Profiled(c, t) && Enabled(c, e) && !e.Write?
    ensures var d := Step(c, e);
            && Profiled(d, t) && d.invEnd - d.invStart == c.invEnd - c.invStart + Spent([e])
            && d.lastCmd == if e.Read? then CMD_DISABLE_OS else c.lastCmd
  {
    hide AfterWrite, Masked;
    assert Spent([e][1..]) == 0;
  }

  lemma {:induction false} RunStaysProfiled(c: Ctrl, events: seq<Event>, t: Counters)
    requires Profiled(c, t) && Runs(c, events) && NoWrites(events)
    ensures var d := Exec(c, events);
            && Profiled(d, t) && d.invEnd - d.invStart == c.invEnd - c.invStart + Spent(events)
            && d.lastCmd == if Reads(events) then CMD_DISABLE_OS else c.lastCmd
    decreases |events|
  {
    if events != [] {
      StepStaysProfiled(c, events[0], t);
      RunStaysProfiled(Step(c, events[0]), events[1..], t);
      hide Step, Enabled, Profiled;
      assert Spent([events[0]]) + Spent(events[1..]) == Spent(events) by {
        assert Spent([events[0]][1..]) == 0;
      }
      assert Reads(events) <==> events[0].Read? || Reads(events[1..]) by {
        forall k | 0 <= k < |events| && events[k].Read? ensures events[0].Read? || Reads(events[1..]) {
          if k > 0 {
            assert events[1..][k - 1].Read?;
          }
        }
        if Reads(events[1..]) {
          var k :| 0 <= k < |events[1..]| && events[1..][k].Read?;
          assert events[k + 1].Read?;
        }
      }
    }
  }

  lemma StopIsReady(c: Ctrl, pid: int, s: Counters, t: Counters)
    requires Profiled(c, s) && Fits(Stop(pid, CMD_ENABLE_OS))
    ensures var d := AfterWrite(c, Parse(StopBytes(pid), false), Some(t));
            && d.prfReady && d.cmd == CMD_ENABLE_OS && d.lastCmd == c.lastCmd
            && d.invEnd - d.invStart == c.invEnd - c.invStart
            && d.dNvcsw == Difference(t.nvcsw, s.nvcsw) && d.dNivcsw == Difference(t.nivcsw, s.nivcsw)
  {
    hide Parse, Pack, Masked, Difference;
    ParseOfPack(Stop(pid, CMD_ENABLE_OS));
  }

  /** The state that a session leaves for the library to read. */
  ghost function Session(c: Ctrl, pid: int, delayUs: nat, s: Counters, events: seq<Event>, t: Counters): Ctrl
    requires Fits(Start(pid, CMD_DISABLE_OS, delayUs))
    requires Runs(AfterWrite(c, Parse(StartBytes(pid, delayUs), false), Some(s)), events)
  {
    AfterWrite(Exec(AfterWrite(c, Parse(StartBytes(pid, delayUs), false), Some(s)), events),
               Parse(StopBytes(pid), false), Some(t))
  }

  /**
   What a session answers, from any state and whatever happens in between: the profile of exactly
   this session, unless the last read before it saw an enabling command and none came since.
   */
  lemma SessionAnswers(c: Ctrl, pid: int, delayUs: nat, s: Counters, events: seq<Event>, t: Counters)
    requires Fits(Start(pid, CMD_DISABLE_OS, delayUs)) && NoWrites(events)
    requires Runs(AfterWrite(c, Parse(StartBytes(pid, delayUs), false), Some(s)), events)
    ensures ReadOut(Session(c, pid, delayUs, s, events, t), 0) ==
            if c.lastCmd == CMD_ENABLE_OS && !Reads(events) then Answer(0, 0, 0)
            else Answer(Spent(events), Difference(t.nvcsw, s.nvcsw), Difference(t.nivcsw, s.nivcsw))
  {
    hide AfterWrite, Parse, Profiled, Difference, Answer, Exec, Runs, Reads;
    StartIsProfiled(c, pid, delayUs, s);
    var d := AfterWrite(c, Parse(StartBytes(pid, delayUs), false), Some(s));
    RunStaysProfiled(d, events, s);
    StopIsReady(Exec(d, events), pid, s, t);
  }

  /**
   The library succeeds exactly when it measured some time and both counters grew by a multiple of
   256: only their low bytes are handed out.
   */
  lemma SuccessIff(runNs: int, ns: int, nvcsw: nat, nivcsw: nat)
    ensures StopStatus(runNs, Answer(ns, nvcsw, nivcsw)) == Success <==>
            Elapsed(runNs) > Elapsed(ns) && nvcsw % 0x100 == 0 && nivcsw % 0x100 == 0
  {
    hide Answer, Value, Elapsed;
    AnswerFields(ns, nvcsw, nivcsw);
  }

  /**
   A session succeeds exactly when some time was measured and both counters moved by a multiple of
   256; one that is not answered succeeds however often the task was switched.
   */
  lemma SessionSucceedsIff(c: Ctrl, pid: int, delayUs: nat, s: Counters, events: seq<Event>, t: Counters, runNs: int)
    requires Fits(Start(pid, CMD_DISABLE_OS, delayUs)) && NoWrites(events)
    requires Runs(AfterWrite(c, Parse(StartBytes(pid, delayUs), false), Some(s)), events)
    requires s.nvcsw <= t.nvcsw && s.nivcsw <= t.nivcsw
    ensures var answered := c.lastCmd != CMD_ENABLE_OS || Reads(events);
            StopStatus(runNs, ReadOut(Session(c, pid, delayUs, s, events, t), 0)) == Success <==>
            if answered then
              && Elapsed(runNs) > Elapsed(Spent(events))
              && (t.nvcsw - s.nvcsw) % 0x100 == 0 && (t.nivcsw - s.nivcsw) % 0x100 == 0
            else Elapsed(runNs) > 0
  {
    hide AfterWrite, Parse, Answer, ReadOut, StopStatus, Exec, Runs, Reads, Spent;
    SessionAnswers(c, pid, delayUs, s, events, t);
    SuccessIff(runNs, Spent(events), Difference(t.nvcsw, s.nvcsw), Difference(t.nivcsw, s.nivcsw));
    SuccessIff(runNs, 0, 0, 0);
  }

  /** 256 voluntary switches between start and stop, and the measurement is accepted. */
  lemma SwitchesGoUnnoticed(c: Ctrl, pid: int)
    requires Fits(Stop(pid, CMD_ENABLE_OS)) && c.lastCmd != CMD_ENABLE_OS
    ensures StopStatus(1000, ReadOut(Session(c, pid, 0, Counters(0, 0), [], Counters(256, 0)), 0)) == Success
  {
    hide AfterWrite, Parse, Answer, ReadOut, StopStatus;
    SessionSucceedsIff(c, pid, 0, Counters(0, 0), [], Counters(256, 0), 1000);
  }

  /** Below about 2.1 s, the range of a `long`, the measured time is the run time less the time spent. */
  lemma MeasuredIsExact(runNs: nat, ns: nat, nvcsw: nat, nivcsw: nat)
    requires runNs < 0x8000_0000 && ns < 0x8000_0000
    ensures Measured(runNs, Answer(ns, nvcsw, nivcsw)) == if runNs > ns then runNs - ns else 0
  {
    ElapsedIsExactIff(runNs);
    ElapsedIsExactIff(ns);
    hide Answer, Value, Elapsed;
    AnswerFields(ns, nvcsw, nivcsw);
  }
}
