/**
What the delta modulation channel plays: every bit of every byte it takes moves the level once, lowest
bit first and byte after byte, however clocks and fetches are interleaved; and where a programmed sample
lies.
*/
module DmcLevels {
  import opened Arithmetic
  import opened Dmc
  import opened DmcRuns
  import Iteration
  import opened MachineWords
  import opened Options

  type Bit = b: int | 0 <= b < 2

  // ----- bits and levels

  /** The low `n` bits of a byte, lowest first. */
  function Bits(value: Byte, n: nat): (bits: seq<Bit>)
    ensures |bits| == n
    decreases n
  {
    if n == 0 then [] else [value % 2] + Bits(value / 2, n - 1)
  }

  lemma BitsSpelled(value: Byte)
    ensures Bits(value, 8) == [value % 2, value / 2 % 2, value / 4 % 2, value / 8 % 2,
                               value / 16 % 2, value / 32 % 2, value / 64 % 2, value / 128 % 2]
  {
    var high := value / 16;
    FourBits(value);
    FourBits(high);
    BitsSplit(value, 4, 4, 16);
    HighBits(value, high);
  }

  lemma HighBits(value: Byte, high: Byte)
    requires high == value / 16
    ensures high / 2 == value / 32 && high / 4 == value / 64 && high / 8 == value / 128
  {
  }

  lemma FourBits(value: Byte)
    ensures Bits(value, 4) == [value % 2, value / 2 % 2, value / 4 % 2, value / 8 % 2]
  {
    assert value / 2 / 2 == value / 4 && value / 4 / 2 == value / 8;
    assert Bits(value / 8, 1) == [value / 8 % 2] + Bits(value / 8 / 2, 0);
    assert Bits(value / 4, 2) == [value / 4 % 2] + Bits(value / 8, 1);
    assert Bits(value / 2, 3) == [value / 2 % 2] + Bits(value / 4, 2);
  }

  lemma BitsSplit(value: Byte, m: nat, n: nat, scale: nat)
    requires m == 4 && scale == 16
    ensures Bits(value, m + n) == Bits(value, m) + Bits(value / scale, n)
  {
    var v1, v2, v3 := value / 2, value / 4, value / 8;
    assert v1 / 2 == v2 && v2 / 2 == v3 && v3 / 2 == value / 16;
    assert Bits(v3, 1 + n) == Bits(v3, 1) + Bits(value / 16, n);
    assert Bits(v2, 2 + n) == Bits(v2, 2) + Bits(value / 16, n);
    assert Bits(v1, 3 + n) == Bits(v1, 3) + Bits(value / 16, n);
  }

  /** A set bit raises the level by 2, a clear one lowers it by 2, where 0 to 127 allows it. */
  function Moved(level: int, bit: Bit): int {
    var target := if bit == 1 then level + 2 else level - 2;
    if 0 <= target <= 127 then target else level
  }

  function Moves(level: int, bits: seq<Bit>): int
    decreases |bits|
  {
    if bits == [] then level else Moves(Moved(level, bits[0]), bits[1..])
  }

  lemma {:induction false} MovesAppend(level: int, a: seq<Bit>, b: seq<Bit>)
    ensures Moves(level, a + b) == Moves(Moves(level, a), b)
    decreases |a|
  {
    if a == [] {
      assert a + b == b;
    } else {
      assert (a + b)[1..] == a[1..] + b;
      MovesAppend(Moved(level, a[0]), a[1..], b);
    }
  }

  function Ones(bits: seq<Bit>): nat {
    if bits == [] then 0 else bits[0] + Ones(bits[1..])
  }

  /** Away from the ends the level moves by two for every set bit less every clear one. */
  lemma {:induction false} MovesInRange(level: int, bits: seq<Bit>)
    requires 2 * |bits| <= level <= 127 - 2 * |bits|
    ensures Moves(level, bits) == level + 2 * Ones(bits) - 2 * (|bits| - Ones(bits))
    decreases |bits|
  {
    if bits == [] {
    } else {
      MovesInRange(Moved(level, bits[0]), bits[1..]);
    }
  }

  // ----- the output unit plays what is pending

  /** The bits still to be played: what is left in the shifter, and the buffered byte. */
  function Pending(o: Output): seq<Bit> {
    (if o.silence then [] else Bits(o.shiftReg, o.bitsRemaining)) +
    (if o.buffer.Some? then Bits(o.buffer.value, 8) else [])
  }

  /** The bit that the next bit time plays, if it is not a silent one. */
  function PlayedBit(o: Output): seq<Bit> {
    var r := Refilled(o);
    if r.silence then [] else [r.shiftReg % 2]
  }

  function PlayedBits(o: Output, n: nat): seq<Bit>
    decreases n
  {
    if n == 0 then [] else PlayedBit(o) + PlayedBits(OutputBit(o), n - 1)
  }

  lemma RefillKeepsPending(o: Output)
    ensures Pending(Refilled(o)) == Pending(o) && Refilled(o).level == o.level
    ensures Refilled(o).bitsRemaining > 0
  {
  }

  lemma Grouped(a: seq<Bit>, b: seq<Bit>, c: seq<Bit>)
    ensures (a + b) + c == a + (b + c)
  {
  }

  lemma MovesOne(level: int, bit: Bit)
    ensures Moves(level, [bit]) == Moved(level, bit)
  {
    assert [bit][1..] == [];
  }

  lemma ShiftPlays(o: Output, r: Output, first: Bit, rest: seq<Bit>)
    requires r == Refilled(o) && !r.silence && r.bitsRemaining > 0
    requires first == r.shiftReg % 2 && rest == Bits(r.shiftReg / 2, r.bitsRemaining - 1)
    ensures [first] + Pending(OutputBit(o)) == Pending(r)
  {
    var tail := if r.buffer.Some? then Bits(r.buffer.value, 8) else [];
    Grouped([first], rest, tail);
    assert Bits(r.shiftReg, r.bitsRemaining) == [first] + rest;
    assert Pending(OutputBit(o)) == rest + tail;
  }

  lemma LevelPlays(o: Output)
    requires o.level <= 127
    ensures OutputBit(o).level == Moves(o.level, PlayedBit(o)) <= 127
  {
    var r := Refilled(o);
    MovesOne(r.level, r.shiftReg % 2);
  }

  lemma BitPlayed(o: Output)
    ensures PlayedBit(o) + Pending(OutputBit(o)) == Pending(o)
  {
    RefillKeepsPending(o);
    var r := Refilled(o);
    if !r.silence {
      ShiftPlays(o, r, r.shiftReg % 2, Bits(r.shiftReg / 2, r.bitsRemaining - 1));
    }
  }

  lemma {:induction false} BitsPlayed(o: Output, n: nat)
    ensures PlayedBits(o, n) + Pending(Iteration.Iterate(OutputBit, o, n)) == Pending(o)
    decreases n
  {
    if n == 0 {
    } else {
      var next := OutputBit(o);
      BitPlayed(o);
      BitsPlayed(next, n - 1);
      Grouped(PlayedBit(o), PlayedBits(next, n - 1), Pending(Iteration.Iterate(OutputBit, next, n - 1)));
    }
  }

  lemma {:induction false} LevelsPlay(o: Output, n: nat)
    requires o.level <= 127
    ensures Iteration.Iterate(OutputBit, o, n).level == Moves(o.level, PlayedBits(o, n)) <= 127
    decreases n
  {
    if n == 0 {
    } else {
      var next := OutputBit(o);
      LevelPlays(o);
      LevelsPlay(next, n - 1);
      MovesAppend(o.level, PlayedBit(o), PlayedBits(next, n - 1));
    }
  }

  // ----- whole runs

  /** The bits played in one operation, and the bits of the byte it takes. */
  function PlayedIn(c: Channel, op: Op): seq<Bit> {
    if op.Clock? && c.enabled then PlayedBits(c.output, Quotient(c.timer + op.cycles, Period(c.rate))) else []
  }

  function TakenIn(c: Channel, op: Op): seq<Bit> {
    if op.Fetch? && Accepts(c) then Bits(op.value, 8) else []
  }

  function Played(c: Channel, ops: seq<Op>): seq<Bit>
    decreases |ops|
  {
    if ops == [] then [] else PlayedIn(c, ops[0]) + Played(Step(c, ops[0]), ops[1..])
  }

  function Taken(c: Channel, ops: seq<Op>): seq<Bit>
    decreases |ops|
  {
    if ops == [] then [] else TakenIn(c, ops[0]) + Taken(Step(c, ops[0]), ops[1..])
  }

  lemma ClockPlays(c: Channel, cycles: nat)
    requires c.output.level <= 127
    ensures var d := Clocked(c, cycles);
      PlayedIn(c, Clock(cycles)) + Pending(d.output) == Pending(c.output) &&
      d.output.level == Moves(c.output.level, PlayedIn(c, Clock(cycles))) <= 127
  {
    if c.enabled {
      var n := Quotient(c.timer + cycles, Period(c.rate));
      BitsPlayed(c.output, n);
      LevelsPlay(c.output, n);
    }
  }

  lemma FetchPends(c: Channel, value: Byte)
    ensures Pending(Fetched(c, value).output) == Pending(c.output) + TakenIn(c, Fetch(value))
  {
  }

  lemma OpPlays(c: Channel, op: Op)
    requires c.output.level <= 127 && !op.Write?
    ensures var d := Step(c, op);
      PlayedIn(c, op) + Pending(d.output) == Pending(c.output) + TakenIn(c, op) &&
      d.output.level == Moves(c.output.level, PlayedIn(c, op)) <= 127
  {
    if op.Clock? {
      ClockPlays(c, op.cycles);
    } else {
      FetchPends(c, op.value);
    }
  }

  lemma Rearranged(a: seq<Bit>, b: seq<Bit>, end: seq<Bit>, middle: seq<Bit>, start: seq<Bit>,
                   x: seq<Bit>, y: seq<Bit>)
    requires a + middle == start + x && b + end == middle + y
    ensures (a + b) + end == start + (x + y)
  {
    assert (a + b) + end == a + (b + end) == (a + middle) + y;
  }

  /**
  However clocks and fetches alternate: the bits played, followed by those still pending, are the bits
  that were pending, followed by the bits of every byte taken; and the level has moved by exactly the bits
  played.
  */
  lemma {:induction false} EveryBitPlays(c: Channel, ops: seq<Op>)
    requires c.output.level <= 127 && NoWrites(ops)
    ensures Played(c, ops) + Pending(Run(c, ops).output) == Pending(c.output) + Taken(c, ops)
    ensures Run(c, ops).output.level == Moves(c.output.level, Played(c, ops)) <= 127
    decreases |ops|
  {
    if ops == [] {
    } else {
      var op, next := ops[0], Step(c, ops[0]);
      OpPlays(c, op);
      EveryBitPlays(next, ops[1..]);
      Rearranged(PlayedIn(c, op), Played(next, ops[1..]), Pending(Run(c, ops).output), Pending(next.output),
                 Pending(c.output), TakenIn(c, op), Taken(next, ops[1..]));
      MovesAppend(c.output.level, PlayedIn(c, op), Played(next, ops[1..]));
    }
  }

  /** Once nothing is pending, the level is moved by all bits of all bytes, and by nothing else. */
  lemma AllBytesPlayed(c: Channel, ops: seq<Op>)
    requires c.output.level <= 127 && NoWrites(ops)
    requires Pending(c.output) == [] == Pending(Run(c, ops).output)
    ensures Run(c, ops).output.level == Moves(c.output.level, Taken(c, ops))
  {
    EveryBitPlays(c, ops);
    assert Played(c, ops) + [] == Played(c, ops) && [] + Taken(c, ops) == Taken(c, ops);
  }

  // ----- a programmed sample

  /** The sample registers written and the channel started. */
  function Programmed(c: Channel, control: Byte, start: Byte, length: Byte, status: Byte): Channel {
    Written(Written(Written(Written(c, 0x4010, control), 0x4012, start), 0x4013, length), 0x4015, status)
  }

  lemma ProgrammedReader(c: Channel, control: Byte, start: Byte, length: Byte, status: Byte)
    requires c.reader.bytesRemaining == 0 && 0x10 <= status % 0x20
    ensures var d := Programmed(c, control, start, length, status);
      d.enabled && d.rate == control % 16 && AtByte(d.reader, 0) &&
      d.reader.sampleAddr == 0xC000 + 0x40 * start && d.reader.sampleLength == 0x10 * length + 1 &&
      d.reader.loop == (control % 0x80 >= 0x40) && d.reader.irqEnabled == (control >= 0x80) &&
      !d.reader.irqFlag
  {
    StatusBit(status);
    ControlBit(control);
  }

  lemma StatusBit(status: Byte)
    ensures status % 0x20 >= 0x10 <==> (status / 16) % 2 == 1
  {
    assert status == 0x20 * (status / 0x20) + status % 0x20;
  }

  lemma ControlBit(control: Byte)
    ensures control % 0x80 >= 0x40 <==> (control / 64) % 2 == 1
  {
    assert control == 0x80 * (control / 0x80) + control % 0x80;
  }

  /**
  A sample programmed through its registers: byte k comes from $C000 plus 64 times the address register
  plus k, around from $FFFF to $8000, k counting around at 16 times the length register plus 1 while bit 6
  of the control register is set; otherwise each byte is read once, and the last one interrupts if bit 7 is.
  */
  lemma ProgrammedSample(
    c: Channel, control: Byte, start: Byte, length: Byte, status: Byte, ops: seq<Op>, k: nat, size: nat)
    requires c.reader.bytesRemaining == 0 && 0x10 <= status % 0x20 && NoWrites(ops)
    requires size == 0x10 * length + 1
    requires k < |ReadAddrs(Programmed(c, control, start, length, status), ops)|
    ensures var d := Programmed(c, control, start, length, status);
      var addrs := ReadAddrs(d, ops);
      var flat := 0xC000 + 0x40 * start + (if control % 0x80 >= 0x40 then k % size else k);
      addrs[k] == (if flat <= 0xFFFF then flat else flat - 0x8000) &&
      (control % 0x80 < 0x40 ==>
        |addrs| <= size && (Run(d, ops).reader.irqFlag <==> control >= 0x80 && |addrs| == size))
  {
    var d := Programmed(c, control, start, length, status);
    ProgrammedReader(c, control, start, length, status);
    if control % 0x80 >= 0x40 {
      LoopReads(d, ops, 0);
      RemainderIsMod(k, size);
    } else {
      OneShotReads(d, ops, 0);
    }
  }

  /** Switched off, the channel plays nothing more and takes nothing; the level and the shifter wait. */
  lemma SwitchedOff(c: Channel, status: Byte, ops: seq<Op>)
    requires status % 0x20 < 0x10 && NoWrites(ops)
    ensures var d := Run(Written(c, 0x4015, status), ops);
      !d.enabled && d.output == c.output.(buffer := None) && d.reader.bytesRemaining == 0 &&
      !d.reader.irqFlag && PendingFetch(d).None?
  {
    StatusBit(status);
    StaysOff(Written(c, 0x4015, status), ops);
  }

  lemma {:induction false} StaysOff(c: Channel, ops: seq<Op>)
    requires !c.enabled && c.reader.bytesRemaining == 0 && NoWrites(ops)
    ensures Run(c, ops) == c
    decreases |ops|
  {
    if ops == [] {
    } else {
      StaysOff(Step(c, ops[0]), ops[1..]);
    }
  }

  // ----- registers during a sample

  /** Equal channels, up to the interrupt flag. */
  predicate AlikeButIrq(a: Channel, b: Channel) {
    a == b.(reader := b.reader.(irqFlag := a.reader.irqFlag))
  }

  lemma StepAlike(a: Channel, b: Channel, op: Op)
    requires AlikeButIrq(a, b) && !op.Write?
    ensures AlikeButIrq(Step(a, op), Step(b, op))
  {
  }

  lemma {:induction false} RunAlike(a: Channel, b: Channel, ops: seq<Op>)
    requires AlikeButIrq(a, b) && NoWrites(ops)
    ensures ReadAddrs(a, ops) == ReadAddrs(b, ops) && AlikeButIrq(Run(a, ops), Run(b, ops))
    decreases |ops|
  {
    if ops == [] {
    } else {
      StepAlike(a, b, ops[0]);
      RunAlike(Step(a, ops[0]), Step(b, ops[0]), ops[1..]);
    }
  }

  /** Enabling a channel in the middle of its sample acknowledges its interrupt and changes nothing else. */
  lemma EnabledAgain(c: Channel, status: Byte, ops: seq<Op>)
    requires c.enabled && c.reader.bytesRemaining > 0 && status % 0x20 >= 0x10 && NoWrites(ops)
    ensures var d := Written(c, 0x4015, status);
      !d.reader.irqFlag && ReadAddrs(d, ops) == ReadAddrs(c, ops) && Run(d, ops).output == Run(c, ops).output
  {
    StatusBit(status);
    RunAlike(Written(c, 0x4015, status), c, ops);
  }

  lemma {:induction false} StaysQuiet(c: Channel, ops: seq<Op>)
    requires !c.reader.irqFlag && !c.reader.irqEnabled && NoWrites(ops)
    ensures !Run(c, ops).reader.irqFlag
    decreases |ops|
  {
    if ops == [] {
    } else {
      StaysQuiet(Step(c, ops[0]), ops[1..]);
    }
  }

  /** A control byte without bit 7 acknowledges the interrupt, and none comes after it; one with it keeps it. */
  lemma ControlQuiets(c: Channel, control: Byte, ops: seq<Op>)
    requires NoWrites(ops)
    ensures control < 0x80 ==> !Run(Written(c, 0x4010, control), ops).reader.irqFlag
    ensures control >= 0x80 ==> Written(c, 0x4010, control).reader.irqFlag == c.reader.irqFlag
  {
    if control < 0x80 {
      StaysQuiet(Written(c, 0x4010, control), ops);
    }
  }

  /** A level written directly is where the following bits move from. */
  lemma LevelWritten(c: Channel, value: Byte, ops: seq<Op>)
    requires NoWrites(ops)
    ensures var d := Written(c, 0x4011, value);
      Run(d, ops).output.level == Moves(value % 0x80, Played(d, ops)) &&
      Pending(d.output) == Pending(c.output) && d.reader == c.reader
  {
    EveryBitPlays(Written(c, 0x4011, value), ops);
  }
}
