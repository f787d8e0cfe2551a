/**
Namco 163 sound.  One of the active channels updates every 15 cycles, in turn; its output is
held and integrated over the cycles between two samples.  The cycle accounting around the
updates is in module Integrator.
*/
module Namco163 {
  import MachineWords
  import Iteration
  import Arithmetic
  import opened Integrator

  type Ram = r: seq<MachineWords.Byte> | |r| == 128 witness seq(128, _ => 0)
  type Outputs = o: seq<int> | |o| == 8 witness seq(8, _ => 0)
  type Channel = c: int | 0 <= c < 8

  /** Sound RAM, the channel whose turn it is, and the held outputs. */
  datatype Voices = Voices(
    ram: Ram, channel: Channel, dac: int, averaged: bool, outputs: Outputs)

  // ----- channel registers in sound RAM

  /** The lowest active channel; the active ones are this one up to 7. */
  function First(ram: Ram): Channel {
    7 - (ram[0x7F] / 16) % 8
  }

  function Base(channel: Channel): (b: nat)
    ensures 0x40 <= b <= 0x78
  {
    0x40 + channel * 8
  }

  function Join24(lo: int, mid: int, hi: int): int {
    lo + 0x100 * mid + 0x1_0000 * hi
  }

  function Phase(ram: Ram, channel: Channel): (n: nat)
    ensures n < 0x100_0000
  {
    var b := Base(channel);
    Join24(ram[b + 1], ram[b + 3], ram[b + 5])
  }

  function Frequency(ram: Ram, channel: Channel): (n: nat)
    ensures n < 0x4_0000
  {
    var b := Base(channel);
    Join24(ram[b], ram[b + 2], ram[b + 4] % 4)
  }

  /** The wave length in samples: 4 to 256. */
  function Length(ram: Ram, channel: Channel): (n: nat)
    ensures 4 <= n <= 256
  {
    WaveLength(ram[Base(channel) + 4])
  }

  function WaveLength(control: int): int {
    256 - (control - control % 4)
  }

  /** The phase wraps at this many steps. */
  function Period(ram: Ram, channel: Channel): (n: nat)
    ensures 0 < n <= 0x100_0000
  {
    Length(ram, channel) * 0x1_0000
  }

  function WithPhase(ram: Ram, channel: Channel, phase: nat): Ram {
    var b := Base(channel);
    ram[b + 1 := phase % 0x100][b + 3 := (phase / 0x100) % 0x100][b + 5 := (phase / 0x1_0000) % 0x100]
  }

  function Advanced(ram: Ram, channel: Channel): Ram {
    WithPhase(ram, channel, (Phase(ram, channel) + Frequency(ram, channel)) % Period(ram, channel))
  }

  function Nibble(cell: int, high: bool): int {
    (if high then cell / 16 else cell) % 16
  }

  /** The wave position: the integer part of the phase plus the channel's wave offset. */
  function Position(phase: int, offset: int): (n: nat)
    ensures n < 256
  {
    (phase / 0x1_0000 + offset) % 0x100
  }

  /** The 4-bit wave sample at a position, two to a byte. */
  function WaveSample(ram: Ram, position: int): (n: int)
    requires 0 <= position < 256
    ensures 0 <= n < 16
  {
    Nibble(ram[position / 2], position % 2 == 1)
  }

  /** The wave sample under a channel's phase. */
  function Sample(ram: Ram, channel: Channel): (n: int)
    ensures 0 <= n < 16
  {
    WaveSample(ram, Position(Phase(ram, channel), ram[Base(channel) + 6]))
  }

  function Volume(ram: Ram, channel: Channel): (n: int)
    ensures 0 <= n < 16
  {
    ram[Base(channel) + 7] % 16
  }

  /** The sample, centred and scaled by the channel's volume. */
  function Output(ram: Ram, channel: Channel): int {
    (Sample(ram, channel) - 8) * Volume(ram, channel)
  }

  function Sum(s: seq<int>): int {
    if s == [] then 0 else s[0] + Sum(s[1..])
  }

  /** The DAC level: the channel just played, or the mean of the held active outputs. */
  function Mixed(averaged: bool, outputs: Outputs, first: Channel, output: int): int {
    if averaged then Arithmetic.TruncDiv(Sum(outputs[first..]), 8 - first) else output
  }

  /** The channel that plays next; one that is no longer active gives way to channel 7. */
  function Playing(channel: Channel, first: Channel): Channel {
    if channel < first then 7 else channel
  }

  function Following(channel: Channel, first: Channel): Channel
    requires first <= channel
  {
    if channel == first then 7 else channel - 1
  }

  function Update(v: Voices): Voices {
    var first := First(v.ram);
    var channel := Playing(v.channel, first);
    var ram := Advanced(v.ram, channel);
    var output := Output(ram, channel);
    var outputs: Outputs := v.outputs[channel := output];
    Voices(ram, Following(channel, first), Mixed(v.averaged, outputs, first, output), v.averaged, outputs)
  }

  function Level(v: Voices): int {
    v.dac
  }

  // ----- the sound unit in place

  class SoundUnit {
    const internalRam: array<MachineWords.Byte>
    const channelOutputs: array<int>
    var soundDivider: Divider
    var soundChannel: Channel
    var dac: int
    var averagedOutput: bool
    var sampleArea: int
    var sampleCycles: nat

    constructor ()
      ensures Valid() && fresh(internalRam) && fresh(channelOutputs)
      ensures VoicesState() == Voices(seq(128, _ => 0), 7, 0, false, seq(8, _ => 0))
      ensures soundDivider == 15 && sampleArea == 0 && sampleCycles == 0
    {
      internalRam := new MachineWords.Byte[128](_ => 0);
      channelOutputs := new int[8](_ => 0);
      soundDivider, soundChannel, dac, averagedOutput, sampleArea, sampleCycles :=
        15, 7, 0, false, 0, 0;
      new;
      assert internalRam[..] == seq(128, _ => 0) && channelOutputs[..] == seq(8, _ => 0);
    }

    ghost predicate Valid()
    {
      internalRam.Length == 128 && channelOutputs.Length == 8
    }

    ghost function VoicesState(): Voices
      requires Valid()
      reads this, internalRam, channelOutputs
    {
      Voices(internalRam[..], soundChannel, dac, averagedOutput, channelOutputs[..])
    }

    ghost function State(enabled: bool): Sound<Voices>
      requires Valid()
      reads this, internalRam, channelOutputs
    {
      Sound(Update, Level, enabled, VoicesState(), soundDivider, sampleArea, sampleCycles)
    }

    method AdvancePhase()
      requires Valid()
      modifies internalRam
      ensures internalRam[..] == Advanced(old(internalRam[..]), soundChannel)
    {
      var base := Base(soundChannel);
      var period := Period(internalRam[..], soundChannel);
      var phase := Join24(internalRam[base + 1], internalRam[base + 3], internalRam[base + 5]);
      var frequency := Join24(internalRam[base], internalRam[base + 2], internalRam[base + 4] % 4);
      phase := (phase + frequency) % period;
      internalRam[base + 1] := phase % 0x100;
      internalRam[base + 3] := (phase / 0x100) % 0x100;
      internalRam[base + 5] := (phase / 0x1_0000) % 0x100;
    }

    /** Play `output` on the current channel. */
    method HoldOutput(output: int, first: Channel)
      requires Valid()
      modifies this`dac, channelOutputs
      ensures channelOutputs[..] == old(channelOutputs[..])[soundChannel := output]
      ensures dac == Mixed(averagedOutput, channelOutputs[..], first, output)
    {
      channelOutputs[soundChannel] := output;
      var outputs := channelOutputs[..];
      dac := if averagedOutput then Arithmetic.TruncDiv(Sum(outputs[first..]), 8 - first) else output;
    }

    method UpdateChannel()
      requires Valid()
      modifies this`soundChannel, this`dac, internalRam, channelOutputs
      ensures VoicesState() == Update(old(VoicesState()))
    {
      var first := First(internalRam[..]);
      if soundChannel < first {
        soundChannel := 7;
      }
      AdvancePhase();
      var output := Output(internalRam[..], soundChannel);
      HoldOutput(output, first);
      soundChannel := if soundChannel == first then 7 else soundChannel - 1;
    }

    /** Any number of cycles in one call is that many single cycles. */
    method ClockExpansionAudio(enabled: bool, cycles0: nat)
      requires Valid()
      modifies this, internalRam, channelOutputs
      ensures State(enabled) == Iteration.Iterate(Tick, old(State(enabled)), cycles0)
    {
      if !enabled {
        SilentTicks(State(enabled), cycles0);
        sampleCycles := sampleCycles + cycles0;
        return;
      }
      var cycles := cycles0;
      while cycles > 0
        invariant cycles >= 0
        invariant Iteration.Iterate(Tick, State(true), cycles)
               == Iteration.Iterate(Tick, old(State(enabled)), cycles0)
        decreases cycles
      {
        cycles := StepChunk(cycles);
      }
    }

    /** Hold the level for `step` cycles. */
    method Integrate(step: nat)
      requires Valid()
      modifies this`sampleArea, this`sampleCycles
      ensures State(true) == Integrated(old(State(true)), step)
    {
      TimesIsProduct(step, dac);
      sampleArea := sampleArea + dac * step;
      sampleCycles := sampleCycles + step;
    }

    /** Advance to the next update, or to the end of the chunk if that comes first. */
    method StepChunk(cycles0: nat) returns (cycles: nat)
      requires Valid() && cycles0 > 0
      modifies this, internalRam, channelOutputs
      ensures cycles < cycles0
      ensures Iteration.Iterate(Tick, State(true), cycles) == Iteration.Iterate(Tick, old(State(true)), cycles0)
    {
      ghost var s := State(true);
      var step := if cycles0 < soundDivider then cycles0 else soundDivider;
      Integrate(step);
      cycles := cycles0 - step;
      if step == soundDivider {
        UpdateTick(s, step);
        UpdateChannel();
        soundDivider := UPDATE_CYCLES;
      } else {
        HeldTicks(s, step);
        soundDivider := soundDivider - step;
      }
      Iteration.IterateCut(Tick, s, cycles0, step, cycles);
    }

    /** Take the scaled mean level; the product wraps in 64 bits. */
    method ExpansionAudioSample(enabled: bool) returns (value: int)
      requires Valid()
      modifies this`sampleArea, this`sampleCycles
      ensures value == Arithmetic.AsI16(SampleValue(old(State(enabled))))
      ensures State(enabled) == Drained(old(State(enabled)))
    {
      var scaled := if sampleCycles > 0 then Arithmetic.TruncDiv(AsI64(sampleArea * PCM_SCALE), sampleCycles)
                    else if enabled then dac * PCM_SCALE else 0;
      sampleArea, sampleCycles := 0, 0;
      value := Arithmetic.AsI16(scaled);
    }
  }
}
