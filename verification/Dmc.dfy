/**
The 2A03 delta modulation channel: a reader that fetches sample bytes, and an output unit that
shifts them into the DAC level.
*/
module Dmc {
  import opened Arithmetic
  import Iteration
  import opened MachineWords
  import opened Options

  type Rate = r: int | 0 <= r < 16
  type SampleLength = n: int | 1 <= n <= 0xFF1 witness 1

  const RATES: seq<nat> :=
    [428, 380, 340, 320, 286, 254, 226, 214, 190, 160, 142, 128, 106, 85, 72, 54]

  function Period(rate: Rate): (p: nat)
    ensures 54 <= p <= 428
  {
    RATES[rate]
  }

  datatype Reader = Reader(
    sampleAddr: Word, sampleLength: SampleLength, currentAddr: Word, bytesRemaining: nat,
    loop: bool, irqEnabled: bool, irqFlag: bool)

  datatype Output = Output(
    level: Byte, shiftReg: Byte, bitsRemaining: Byte, silence: bool, buffer: Option<Byte>)

  datatype Channel = Channel(enabled: bool, rate: Rate, timer: nat, reader: Reader, output: Output)

  function PowerOn(): Channel {
    Channel(false, 0, 0, Reader(0xC000, 1, 0xC000, 0, false, false, false), Output(0, 0, 0, true, None))
  }

  // ----- the output unit

  /** An exhausted shifter takes the buffered byte, or eight bits of silence. */
  function Refilled(o: Output): Output {
    if o.bitsRemaining != 0 then o
    else if o.buffer.Some? then Output(o.level, o.buffer.value, 8, false, None)
    else o.(bitsRemaining := 8, silence := true)
  }

  function LevelAfter(o: Output): Byte {
    if o.silence then o.level
    else if o.shiftReg % 2 == 1 then (if o.level <= 125 then o.level + 2 else o.level)
    else if o.level >= 2 then o.level - 2
    else o.level
  }

  /** One bit of output. */
  function OutputBit(o: Output): Output {
    var r := Refilled(o);
    r.(level := LevelAfter(r), shiftReg := r.shiftReg / 2,
       bitsRemaining := if r.bitsRemaining > 0 then r.bitsRemaining - 1 else 0)
  }

  /** A chunk of CPU cycles outputs one bit per full period. */
  function Clocked(c: Channel, cycles: nat): Channel {
    if !c.enabled then c
    else
      var total := c.timer + cycles;
      c.(timer := Remainder(total, Period(c.rate)),
         output := Iteration.Iterate(OutputBit, c.output, Quotient(total, Period(c.rate))))
  }

  lemma {:induction false} QuotientAdd(x: nat, y: nat, n: nat)
    requires n > 0
    ensures Quotient(x + y, n) == Quotient(x, n) + Quotient(Remainder(x, n) + y, n)
    ensures Remainder(x + y, n) == Remainder(Remainder(x, n) + y, n)
    decreases x
  {
    if x < n {
    } else {
      QuotientAdd(x - n, y, n);
    }
  }

  /** However cycles are cut into chunks, the output is the same. */
  lemma ClockSplit(c: Channel, a: nat, b: nat)
    ensures Clocked(Clocked(c, a), b) == Clocked(c, a + b)
  {
    if c.enabled {
      var p := Period(c.rate);
      QuotientAdd(c.timer + a, b, p);
      Iteration.IterateAdd(OutputBit, c.output, Quotient(c.timer + a, p),
                           Quotient(Remainder(c.timer + a, p) + b, p));
    }
  }

  // ----- the reader

  function NextAddr(addr: Word): Word {
    if addr == 0xFFFF then 0x8000 else addr + 1
  }

  function Restarted(r: Reader): Reader {
    r.(currentAddr := r.sampleAddr, bytesRemaining := r.sampleLength)
  }

  function PendingFetch(c: Channel): Option<Word> {
    if c.enabled && c.reader.bytesRemaining > 0 && c.output.buffer.None? then Some(c.reader.currentAddr)
    else None
  }

  predicate Accepts(c: Channel) {
    c.reader.bytesRemaining > 0 && c.output.buffer.None?
  }

  /** The reader once one more byte has arrived. */
  function Advanced(r: Reader): Reader
    requires r.bytesRemaining > 0
  {
    var n := r.(currentAddr := NextAddr(r.currentAddr), bytesRemaining := r.bytesRemaining - 1);
    if n.bytesRemaining > 0 then n
    else if n.loop then Restarted(n)
    else n.(irqFlag := n.irqFlag || n.irqEnabled)
  }

  function Fetched(c: Channel, value: Byte): Channel {
    if Accepts(c) then
      c.(reader := Advanced(c.reader), output := c.output.(buffer := Some(value)))
    else c
  }

  // ----- registers

  type Register = a: int | 0x4010 <= a <= 0x4015 witness 0x4010

  function Enabled(c: Channel): Channel {
    var timed := if c.enabled then c
                 else c.(timer := 0, output := c.output.(bitsRemaining := 0, silence := true));
    timed.(enabled := true,
           reader := if c.reader.bytesRemaining == 0 then Restarted(c.reader) else c.reader)
  }

  function Written(c: Channel, addr: Register, value: Byte): Channel {
    var r := c.reader;
    if addr == 0x4010 then
      c.(rate := value % 16,
         reader := r.(loop := (value / 64) % 2 == 1, irqEnabled := value >= 0x80,
                      irqFlag := r.irqFlag && value >= 0x80))
    else if addr == 0x4011 then c.(output := c.output.(level := value % 0x80))
    else if addr == 0x4012 then c.(reader := r.(sampleAddr := SampleAddr(value)))
    else if addr == 0x4013 then c.(reader := r.(sampleLength := 16 * value + 1))
    else if addr == 0x4014 then c
    else
      var quiet := c.(reader := r.(irqFlag := false));
      if (value / 16) % 2 == 1 then Enabled(quiet)
      else quiet.(enabled := false, reader := quiet.reader.(bytesRemaining := 0),
                  output := c.output.(buffer := None))
  }

  function SampleAddr(value: Byte): (a: Word)
    ensures a >= 0xC000
  {
    0xC000 + 0x40 * value
  }

  // ----- the channel in place

  class DmcChannel {
    var enabled: bool
    var rate: Rate
    var timerAccum: nat
    var reader: Reader
    var output: Output

    constructor ()
      ensures State() == PowerOn()
    {
      enabled, rate, timerAccum, reader, output :=
        false, 0, 0, PowerOn().reader, PowerOn().output;
    }

    ghost function State(): Channel
      reads this
    {
      Channel(enabled, rate, timerAccum, reader, output)
    }

    method OutputOneBit()
      modifies this`output
      ensures output == OutputBit(old(output))
    {
      if output.bitsRemaining == 0 {
        if output.buffer.Some? {
          output := output.(shiftReg := output.buffer.value, bitsRemaining := 8, silence := false,
                            buffer := None);
        } else {
          output := output.(bitsRemaining := 8, silence := true);
        }
      }
      if !output.silence {
        if output.shiftReg % 2 == 1 {
          if output.level <= 125 {
            output := output.(level := output.level + 2);
          }
        } else if output.level >= 2 {
          output := output.(level := output.level - 2);
        }
      }
      output := output.(shiftReg := output.shiftReg / 2, bitsRemaining := output.bitsRemaining - 1);
    }

    method ClockOutput(cycles: nat)
      modifies this`timerAccum, this`output
      ensures State() == Clocked(old(State()), cycles)
    {
      if !enabled {
        return;
      }
      var period := Period(rate);
      timerAccum := timerAccum + cycles;
      while timerAccum >= period
        invariant Iteration.Iterate(OutputBit, output, Quotient(timerAccum, period))
               == old(Iteration.Iterate(OutputBit, output, Quotient(timerAccum + cycles, period)))
        invariant Remainder(timerAccum, period) == Remainder(old(timerAccum) + cycles, period)
      {
        timerAccum := timerAccum - period;
        OutputOneBit();
      }
    }

    method CompleteSampleFetch(value: Byte)
      modifies this`reader, this`output
      ensures State() == Fetched(old(State()), value)
    {
      if reader.bytesRemaining == 0 || output.buffer.Some? {
        return;
      }
      output := output.(buffer := Some(value));
      reader := reader.(currentAddr := NextAddr(reader.currentAddr),
                        bytesRemaining := reader.bytesRemaining - 1);
      if reader.bytesRemaining == 0 {
        if reader.loop {
          reader := Restarted(reader);
        } else if reader.irqEnabled {
          reader := reader.(irqFlag := true);
        }
      }
    }

    method WriteRegister(addr: Register, value: Byte)
      modifies this
      ensures State() == Written(old(State()), addr, value)
    {
      if addr == 0x4010 {
        rate := value % 16;
        reader := reader.(loop := (value / 64) % 2 == 1, irqEnabled := value >= 0x80);
        if value < 0x80 {
          reader := reader.(irqFlag := false);
        }
      } else if addr == 0x4011 {
        output := output.(level := value % 0x80);
      } else if addr == 0x4012 {
        reader := reader.(sampleAddr := (0xC000 + 0x40 * value) % 0x1_0000);
      } else if addr == 0x4013 {
        reader := reader.(sampleLength := 16 * value + 1);
      } else if addr == 0x4015 {
        WriteStatus(value);
      }
    }

    method WriteStatus(value: Byte)
      modifies this
      ensures State() == Written(old(State()), 0x4015, value)
    {
      reader := reader.(irqFlag := false);
      if (value / 16) % 2 == 1 {
        if !enabled {
          timerAccum := 0;
          output := output.(bitsRemaining := 0, silence := true);
        }
        enabled := true;
        if reader.bytesRemaining == 0 {
          reader := Restarted(reader);
        }
      } else {
        enabled := false;
        reader := reader.(bytesRemaining := 0);
        output := output.(buffer := None);
      }
    }
  }
}
