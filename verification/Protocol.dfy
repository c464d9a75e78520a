/**
 The bytes that the profiling library and the control module exchange. Both run on the same
 big-endian machine, where a `pid_t` is a 32-bit signed number.
 */
module Protocol {
  import opened Common
  import opened Words

  type Byte = b: nat | b < 0x100

  const PID_LENGTH := 4
  const DELAY_LENGTH := 8
  const STOP_CMD_LENGTH := PID_LENGTH + 1
  const START_CMD_LENGTH := PID_LENGTH + 1 + DELAY_LENGTH
  const RX_LENGTH := DELAY_LENGTH + 2

  /** The size of the buffer that the module copies every write into, before it looks at the length. */
  const PROCFS_MAX_SIZE := 13

  const CMD_DISABLE_OS := 0x00
  const CMD_ENABLE_OS := 0x01
  const CMD_NONE := 0xFF

  /**
   A write: its pid and command, and the invalidation delay in microseconds of the longer form; or
   one that is longer than the buffer, cannot be copied, or has neither length.
   */
  datatype Message =
    | Overrun
    | CopyFault
    | Garbage
    | Stop(pid: int, cmd: nat)
    | Start(pid: int, cmd: nat, delayUs: nat)

  /** The fields of a command fit their C types. */
  predicate Fits(m: Message) {
    && (m.Stop? || m.Start?)
    && -0x8000_0000 <= m.pid < 0x8000_0000 && m.cmd < 0x100
    && (m.Start? ==> m.delayUs < U64_RANGE)
  }

  /** `n` bytes of a number, the highest first. */
  function Bytes(v: nat, n: nat): (r: seq<Byte>)
    ensures |r| == n
  {
    if n == 0 then [] else Bytes(v / 0x100, n - 1) + [v % 0x100]
  }

  function Value(b: seq<Byte>): nat {
    if b == [] then 0 else 0x100 * Value(b[..|b| - 1]) + b[|b| - 1]
  }

  function Power256(n: nat): nat {
    if n == 0 then 1 else 0x100 * Power256(n - 1)
  }

  lemma {:induction false} ValueOfBytes(v: nat, n: nat)
    requires v < Power256(n)
    ensures Value(Bytes(v, n)) == v
  {
    if n > 0 {
      ValueOfBytes(v / 0x100, n - 1);
      assert Bytes(v, n)[..n - 1] == Bytes(v / 0x100, n - 1);
    }
  }

  lemma {:induction false} BytesOfValue(b: seq<Byte>)
    ensures Value(b) < Power256(|b|) && Bytes(Value(b), |b|) == b
  {
    if b != [] {
      BytesOfValue(b[..|b| - 1]);
      assert b == b[..|b| - 1] + [b[|b| - 1]];
    }
  }

  lemma WordLengths()
    ensures Power256(PID_LENGTH) == ULONG_RANGE && Power256(DELAY_LENGTH) == U64_RANGE
  {
    assert Power256(2) == 0x1_0000;
    assert Power256(4) == 0x1_0000 * Power256(2);
    assert Power256(6) == 0x1_0000 * Power256(4);
  }

  function PidOf(b: seq<Byte>): int {
    Signed32(Value(b))
  }

  /** What the module makes of a write: the length alone tells the commands apart. */
  function Parse(b: seq<Byte>, faults: bool): (m: Message)
    ensures m.Overrun? <==> |b| > PROCFS_MAX_SIZE
  {
    if |b| > PROCFS_MAX_SIZE then Overrun
    else if faults then CopyFault
    else if |b| == STOP_CMD_LENGTH then Stop(PidOf(b[..PID_LENGTH]), b[PID_LENGTH])
    else if |b| == START_CMD_LENGTH then
      Start(PidOf(b[..PID_LENGTH]), b[PID_LENGTH], Value(b[PID_LENGTH + 1..]))
    else Garbage
  }

  /** The buffer the library fills for a command. */
  function Pack(m: Message): (r: seq<Byte>)
    requires Fits(m)
    ensures |r| == if m.Start? then START_CMD_LENGTH else STOP_CMD_LENGTH
  {
    Bytes(Wrap32(m.pid), PID_LENGTH) + [m.cmd] + if m.Start? then Bytes(m.delayUs, DELAY_LENGTH) else []
  }

  /** The module reads exactly what the library wrote. */
  lemma ParseOfPack(m: Message)
    requires Fits(m)
    ensures Parse(Pack(m), false) == m
  {
    hide Bytes, Value, Power256;
    WordLengths();
    ValueOfBytes(Wrap32(m.pid), PID_LENGTH);
    var b := Pack(m);
    assert b[..PID_LENGTH] == Bytes(Wrap32(m.pid), PID_LENGTH);
    if m.Start? {
      ValueOfBytes(m.delayUs, DELAY_LENGTH);
      assert b[PID_LENGTH + 1..] == Bytes(m.delayUs, DELAY_LENGTH);
    }
  }

  /** No write of either length is misread: its command packs to the same bytes. Only a longer one overruns. */
  lemma PackOfParse(b: seq<Byte>)
    ensures Parse(b, false).Overrun? <==> |b| > START_CMD_LENGTH
    ensures Parse(b, false).Garbage? <==> |b| < START_CMD_LENGTH && |b| != STOP_CMD_LENGTH
    ensures var m := Parse(b, false); m.Stop? || m.Start? ==> Fits(m) && Pack(m) == b
  {
    hide Bytes, Value, Power256;
    WordLengths();
    if |b| == STOP_CMD_LENGTH || |b| == START_CMD_LENGTH {
      BytesOfValue(b[..PID_LENGTH]);
      BytesOfValue(b[PID_LENGTH + 1..]);
      assert b == b[..PID_LENGTH] + [b[PID_LENGTH]] + b[PID_LENGTH + 1..];
    }
  }

  /** `ELAPSED` over two times in nanoseconds: computed in a `long`, then stored as a `u64`. */
  function Elapsed(ns: int): nat {
    Wrap64(Signed32(ns))
  }

  lemma ElapsedIsExactIff(ns: int)
    ensures Elapsed(ns) == ns <==> 0 <= ns < 0x8000_0000 || U64_RANGE - 0x8000_0000 <= ns < U64_RANGE
  {
  }

  /** The answer to a read: the time spent invalidating, and the low bytes of two counters. */
  function Answer(ns: int, nvcsw: nat, nivcsw: nat): (r: seq<Byte>)
    ensures |r| == RX_LENGTH
  {
    Bytes(Elapsed(ns), DELAY_LENGTH) + [nvcsw % 0x100, nivcsw % 0x100]
  }

  lemma AnswerFields(ns: int, nvcsw: nat, nivcsw: nat)
    ensures var rx := Answer(ns, nvcsw, nivcsw);
            && Value(rx[..DELAY_LENGTH]) == Elapsed(ns)
            && rx[DELAY_LENGTH] == nvcsw % 0x100 && rx[DELAY_LENGTH + 1] == nivcsw % 0x100
  {
    hide Bytes, Value, Power256;
    WordLengths();
    ValueOfBytes(Elapsed(ns), DELAY_LENGTH);
    assert Answer(ns, nvcsw, nivcsw)[..DELAY_LENGTH] == Bytes(Elapsed(ns), DELAY_LENGTH);
  }
}
