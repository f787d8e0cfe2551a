/**
The frame sequencer of the 2A03 and the units it clocks: envelopes, linear counter, length
counters and sweeps.
*/
module ApuFrame {
  import Iteration
  import opened MachineWords
  import opened Schedule

  const U64_MAX := 0xFFFF_FFFF_FFFF_FFFF
  type Count = n: int | 0 <= n <= U64_MAX

  type Regs = s: seq<Byte> | |s| == 0x18 witness seq(0x18, _ => 0)
  type Lengths = s: seq<Byte> | |s| == 4 witness [0, 0, 0, 0]
  type Envelopes = s: seq<Envelope> | |s| == 3 witness seq(3, _ => Envelope(0, 0, false))
  type SweepDividers = s: seq<Byte> | |s| == 2 witness [0, 0]
  type SweepReloads = s: seq<bool> | |s| == 2 witness [false, false]
  type Channel = c: int | 0 <= c < 4

  datatype Envelope = Envelope(divider: Byte, decay: Byte, start: bool)

  datatype Units = Units(
    regs: Regs, frameCounter: Byte, lengths: Lengths, envelopes: Envelopes, linear: Byte,
    linearReload: bool, sweepDividers: SweepDividers, sweepReloads: SweepReloads,
    frameIrq: bool, frameIrqEvents: Count)

  // ----- the units

  function EnvelopeClocked(e: Envelope, control: Byte): Envelope {
    var period := control % 16;
    if e.start then Envelope(period, 15, false)
    else if e.divider == 0 then
      Envelope(period,
               if e.decay > 0 then e.decay - 1 else if (control / 32) % 2 == 1 then 15 else 0, false)
    else e.(divider := e.divider - 1)
  }

  /** The register that holds a channel's halt bit. */
  function ControlRegister(channel: Channel): nat {
    if channel == 0 then 0 else if channel == 1 then 4 else if channel == 2 then 8 else 12
  }

  predicate IsHalted(regs: Regs, channel: Channel) {
    var control := regs[ControlRegister(channel)];
    if channel == 2 then control >= 0x80 else (control / 32) % 2 == 1
  }

  function LengthClocked(length: Byte, halted: bool): Byte {
    if halted || length == 0 then length else length - 1
  }

  function LinearClocked(u: Units): Units {
    var control := u.regs[8];
    u.(linear := if u.linearReload then control % 0x80 else if u.linear > 0 then u.linear - 1 else 0,
       linearReload := u.linearReload && control >= 0x80)
  }

  function PulseTimer(regs: Regs, channel: nat): nat
    requires channel < 2
  {
    TimerOf(regs[channel * 4 + 2], regs[channel * 4 + 3])
  }

  function TimerOf(lo: int, hi: int): int {
    lo + 0x100 * (hi % 8)
  }

  /** The timer a sweep would set. */
  function SweepTarget(sweep: int, timer: int, channel: nat): int {
    var change := Shifted(timer, sweep % 8);
    if (sweep / 8) % 2 == 1 then timer - change - (if channel == 0 then 1 else 0)
    else timer + change
  }

  function Shifted(timer: int, shift: int): int
    decreases shift
  {
    if shift <= 0 then timer else Shifted(timer / 2, shift - 1)
  }

  function WithTimer(regs: Regs, channel: nat, timer: nat): Regs
    requires channel < 2 && timer < 0x800
  {
    var hi := regs[channel * 4 + 3];
    regs[channel * 4 + 2 := timer % 0x100][channel * 4 + 3 := hi - hi % 8 + timer / 0x100]
  }

  /** The registers after a sweep whose divider expired. */
  function Swept(regs: Regs, channel: nat): Regs
    requires channel < 2
  {
    var sweep := regs[channel * 4 + 1];
    var timer := PulseTimer(regs, channel);
    var target := SweepTarget(sweep, timer, channel);
    if sweep >= 0x80 && sweep % 8 > 0 && timer >= 8 && 8 <= target <= 0x7FF
    then WithTimer(regs, channel, target) else regs
  }

  function SweepClocked(u: Units, channel: nat): Units
    requires channel < 2
  {
    var period := (u.regs[channel * 4 + 1] / 16) % 8 + 1;
    if u.sweepReloads[channel] then
      u.(sweepDividers := u.sweepDividers[channel := period],
         sweepReloads := u.sweepReloads[channel := false])
    else if u.sweepDividers[channel] > 0 then
      u.(sweepDividers := u.sweepDividers[channel := u.sweepDividers[channel] - 1])
    else
      u.(sweepDividers := u.sweepDividers[channel := period], regs := Swept(u.regs, channel))
  }

  function Quarter(u: Units): Units {
    var e: Envelopes := [EnvelopeClocked(u.envelopes[0], u.regs[0]),
                         EnvelopeClocked(u.envelopes[1], u.regs[4]),
                         EnvelopeClocked(u.envelopes[2], u.regs[12])];
    LinearClocked(u.(envelopes := e))
  }

  function LengthsClocked(u: Units): Lengths {
    [LengthClocked(u.lengths[0], IsHalted(u.regs, 0)), LengthClocked(u.lengths[1], IsHalted(u.regs, 1)),
     LengthClocked(u.lengths[2], IsHalted(u.regs, 2)), LengthClocked(u.lengths[3], IsHalted(u.regs, 3))]
  }

  function Half(u: Units): Units {
    SweepClocked(SweepClocked(u.(lengths := LengthsClocked(u)), 0), 1)
  }

  // ----- the schedule

  predicate IsFiveStep(frameCounter: Byte) { frameCounter >= 0x80 }
  predicate IrqEnabled(frameCounter: Byte) { (frameCounter / 64) % 2 == 0 }

  function Counted(n: Count): Count {
    if n == U64_MAX then n else n + 1
  }

  function Interrupted(u: Units): Units {
    if IrqEnabled(u.frameCounter) then
      u.(frameIrq := true, frameIrqEvents := Counted(u.frameIrqEvents))
    else u
  }

  /** All four points clock the quarter units, every other one the half units, the last one the IRQ. */
  function Event(fiveStep: bool, k: nat, u: Units): Units {
    var halves := if k % 2 == 1 then Half(Quarter(u)) else Quarter(u);
    if k == 3 && !fiveStep then Interrupted(halves) else halves
  }

  function PlanOf(fiveStep: bool): (p: Plan<Units>)
    ensures IsPlan(p)
  {
    if fiveStep then Plan(7_457, 14_913, 22_371, 37_281, 37_282, (k, u) => Event(true, k, u))
    else Plan(7_457, 14_913, 22_371, 29_829, 29_830, (k, u) => Event(false, k, u))
  }

  /** The sequencer after a write of its control register. */
  function Restarted(u: Units, value: Byte): Sequencer<Units> {
    var v := u.(regs := u.regs[0x17 := value], frameCounter := value,
                frameIrq := u.frameIrq && IrqEnabled(value));
    Sequencer(PlanOf(IsFiveStep(value)), 0, if IsFiveStep(value) then Half(Quarter(v)) else v)
  }

  // ----- the sequencer in place

  class FrameSequencer {
    var regs: Regs
    var frameCounter: Byte
    var lengthCounter: Lengths
    var envelopes: Envelopes
    var triangleLinearCounter: Byte
    var triangleLinearReload: bool
    var pulseSweepDivider: SweepDividers
    var pulseSweepReload: SweepReloads
    var frameCycle: nat
    var frameIrqFlag: bool
    var frameIrqEvents: Count
    var writeCount: Count

    constructor ()
      ensures Valid()
      ensures State().position == 0
    {
      regs, frameCounter, lengthCounter := seq(0x18, _ => 0), 0, [0, 0, 0, 0];
      envelopes := seq(3, _ => Envelope(0, 0, false));
      triangleLinearCounter, triangleLinearReload := 0, false;
      pulseSweepDivider, pulseSweepReload := [0, 0], [false, false];
      frameCycle, frameIrqFlag, frameIrqEvents, writeCount := 0, false, 0, 0;
    }

    ghost function UnitsState(): Units
      reads this
    {
      Units(regs, frameCounter, lengthCounter, envelopes, triangleLinearCounter, triangleLinearReload,
            pulseSweepDivider, pulseSweepReload, frameIrqFlag, frameIrqEvents)
    }

    ghost function State(): Sequencer<Units>
      reads this
    {
      Sequencer(PlanOf(IsFiveStep(frameCounter)), frameCycle, UnitsState())
    }

    ghost predicate Valid()
      reads this
    {
      IsRunning(State())
    }

    method ClockEnvelope(idx: nat, control: Byte)
      requires idx < 3
      modifies this`envelopes
      ensures envelopes == old(envelopes)[idx := EnvelopeClocked(old(envelopes)[idx], control)]
    {
      var env := envelopes[idx];
      var period := control % 16;
      if env.start {
        env := Envelope(period, 15, false);
      } else if env.divider == 0 {
        env := env.(divider := period);
        if env.decay > 0 {
          env := env.(decay := env.decay - 1);
        } else if (control / 32) % 2 == 1 {
          env := env.(decay := 15);
        }
      } else {
        env := env.(divider := env.divider - 1);
      }
      envelopes := envelopes[idx := env];
    }

    method ClockTriangleLinear()
      modifies this`triangleLinearCounter, this`triangleLinearReload
      ensures UnitsState() == LinearClocked(old(UnitsState()))
    {
      if triangleLinearReload {
        triangleLinearCounter := regs[8] % 0x80;
      } else if triangleLinearCounter > 0 {
        triangleLinearCounter := triangleLinearCounter - 1;
      }
      if regs[8] < 0x80 {
        triangleLinearReload := false;
      }
    }

    method ClockQuarterFrame()
      modifies this`envelopes, this`triangleLinearCounter, this`triangleLinearReload
      ensures UnitsState() == Quarter(old(UnitsState()))
    {
      ClockEnvelope(0, regs[0]);
      ClockEnvelope(1, regs[4]);
      ClockEnvelope(2, regs[12]);
      assert envelopes == Quarter(old(UnitsState())).envelopes;
      ClockTriangleLinear();
    }

    method ClockLengthCounter(channel: Channel)
      modifies this`lengthCounter
      ensures lengthCounter == old(lengthCounter)[
                channel := LengthClocked(old(lengthCounter)[channel], IsHalted(regs, channel))]
    {
      if !IsHalted(regs, channel) && lengthCounter[channel] > 0 {
        lengthCounter := lengthCounter[channel := lengthCounter[channel] - 1];
      }
    }

    method ClockSweep(channel: nat)
      requires channel < 2
      modifies this`regs, this`pulseSweepDivider, this`pulseSweepReload
      ensures UnitsState() == SweepClocked(old(UnitsState()), channel)
    {
      var period := (regs[channel * 4 + 1] / 16) % 8 + 1;
      if pulseSweepReload[channel] {
        pulseSweepDivider := pulseSweepDivider[channel := period];
        pulseSweepReload := pulseSweepReload[channel := false];
        return;
      }
      if pulseSweepDivider[channel] > 0 {
        pulseSweepDivider := pulseSweepDivider[channel := pulseSweepDivider[channel] - 1];
        return;
      }
      pulseSweepDivider := pulseSweepDivider[channel := period];
      regs := Swept(regs, channel);
    }

    method ClockLengthCounters()
      modifies this`lengthCounter
      ensures lengthCounter == LengthsClocked(old(UnitsState()))
    {
      ClockLengthCounter(0);
      ClockLengthCounter(1);
      ClockLengthCounter(2);
      ClockLengthCounter(3);
    }

    method ClockHalfFrame()
      modifies this`lengthCounter, this`regs, this`pulseSweepDivider, this`pulseSweepReload
      ensures UnitsState() == Half(old(UnitsState()))
    {
      ClockLengthCounters();
      ClockSweep(0);
      ClockSweep(1);
    }

    /** One scheduled point. */
    method ClockFrameEvent(k: nat)
      modifies this`envelopes, this`triangleLinearCounter, this`triangleLinearReload, this`lengthCounter,
               this`regs, this`pulseSweepDivider, this`pulseSweepReload, this`frameIrqFlag,
               this`frameIrqEvents
      ensures UnitsState() == Event(IsFiveStep(frameCounter), k, old(UnitsState()))
    {
      ClockQuarterFrame();
      if k % 2 == 1 {
        ClockHalfFrame();
      }
      if k == 3 && !IsFiveStep(frameCounter) && IrqEnabled(frameCounter) {
        frameIrqFlag := true;
        frameIrqEvents := Counted(frameIrqEvents);
      }
    }

    method ClockFrameEventsBetween(start: nat, end: nat)
      modifies this`envelopes, this`triangleLinearCounter, this`triangleLinearReload, this`lengthCounter,
               this`regs, this`pulseSweepDivider, this`pulseSweepReload, this`frameIrqFlag,
               this`frameIrqEvents
      ensures UnitsState() == Between(PlanOf(IsFiveStep(frameCounter)), start, end, old(UnitsState()))
    {
      ghost var plan := PlanOf(IsFiveStep(frameCounter));
      var points := if IsFiveStep(frameCounter) then [7_457, 14_913, 22_371, 37_281]
                    else [7_457, 14_913, 22_371, 29_829];
      for k := 0 to 4
        invariant UnitsState() == BetweenFirst(plan, start, end, old(UnitsState()), k)
      {
        BetweenFirstNext(plan, start, end, old(UnitsState()), k, points[k]);
        if start < points[k] <= end {
          ClockFrameEvent(k);
        }
      }
      BetweenFirstFour(plan, start, end, old(UnitsState()));
    }

    /** Select the mode, start its period over, and clock everything at once in five-step mode. */
    method WriteFrameCounter(value: Byte)
      modifies this`regs, this`frameCounter, this`frameCycle, this`envelopes, this`triangleLinearCounter,
               this`triangleLinearReload, this`lengthCounter, this`pulseSweepDivider,
               this`pulseSweepReload, this`frameIrqFlag, this`frameIrqEvents
      ensures State() == Restarted(old(UnitsState()), value)
    {
      regs := regs[0x17 := value];
      frameCounter := value;
      frameCycle := 0;
      if !IrqEnabled(value) {
        frameIrqFlag := false;
      }
      if IsFiveStep(value) {
        ClockQuarterFrame();
        ClockHalfFrame();
      }
    }

    /** A write to $4017 as the bus makes it, counted. */
    method WriteRegister(value: Byte)
      modifies this
      ensures State() == Restarted(old(UnitsState()), value)
      ensures writeCount == if old(writeCount) == U64_MAX then 0 else old(writeCount) + 1
    {
      WriteFrameCounter(value);
      writeCount := if writeCount == U64_MAX then 0 else writeCount + 1;
    }

    /** A chunk of any size, over any number of periods, is that many single cycles. */
    method ClockFrameSequencer(cycles: nat)
      requires Valid()
      modifies this`regs, this`frameCycle, this`envelopes, this`triangleLinearCounter,
               this`triangleLinearReload, this`lengthCounter, this`pulseSweepDivider,
               this`pulseSweepReload, this`frameIrqFlag, this`frameIrqEvents
      ensures Valid() && State() == ChunkClocked(old(State()), cycles)
      ensures State() == Iteration.Iterate(Tick, old(State()), cycles)
    {
      ghost var plan := PlanOf(IsFiveStep(frameCounter));
      var period := if IsFiveStep(frameCounter) then 37_282 else 29_830;
      var start: nat, end: nat := frameCycle, frameCycle + cycles;
      while end >= period
        invariant Span(plan, start, end, UnitsState()) == ChunkClocked(old(State()), cycles)
        decreases end
      {
        ClockFrameEventsBetween(start, period);
        start, end := 0, end - period;
      }
      ClockFrameEventsBetween(start, end);
      frameCycle := end;
      ChunkIsTicks(old(State()), cycles);
    }
  }
}
