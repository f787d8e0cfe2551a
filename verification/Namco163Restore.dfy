/**
What a restored Namco 163 does afterwards: for which cartridges and output modes nobody can
tell it from the saved one, and which accepted snapshots sample without overflow.
*/
module Namco163Restore {
  import opened Arithmetic
  import opened Integrator
  import opened Iteration
  import opened MachineWords
  import opened Namco163
  import opened Namco163Snapshot
  import Namco163Turns

  // ----- accepted snapshots and the 64-bit product

  /** The chip `target` with this integral over this many cycles, at a level it can hold. */
  function Holding(target: Chip, cycles: nat, area: int): Chip {
    target.(sampleArea := area, sampleCycles := cycles,
            voices := target.voices.(dac := 0, outputs := seq(8, _ => 0)))
  }

  /** Any chip accepts some snapshot with any integral its cycle count allows. */
  lemma AcceptsIntegral(target: Chip, cycles: nat, area: int)
    requires cycles <= RESTORE_CYCLES && 0 - MAX_LEVEL * cycles <= area <= MAX_LEVEL * cycles
    ensures exists b ::
      Restore(target, b).Some? && Restore(target, b).value.sampleCycles == cycles &&
      Restore(target, b).value.sampleArea == area
  {
    var c := Holding(target, cycles, area);
    RestoredChip(c, target);
    assert Restore(target, Snapshot(c)).Some?;
  }

  /** The next sample of every snapshot that `target` accepts with this cycle count fits 64 bits. */
  ghost predicate SamplesFit(target: Chip, cycles: nat) {
    forall b :: Restore(target, b).Some? && Restore(target, b).value.sampleCycles == cycles ==>
      FitsI64(Restore(target, b).value.sampleArea * PCM_SCALE)
  }

  lemma AcceptedIsBounded(target: Chip, b: seq<Byte>)
    requires Restore(target, b).Some?
    ensures var c := Restore(target, b).value;
      c.sampleCycles <= RESTORE_CYCLES &&
      0 - MAX_LEVEL * c.sampleCycles <= c.sampleArea <= MAX_LEVEL * c.sampleCycles
  {
  }

  /**
  Among the cycle counts that a restore lets through, exactly those up to i64::MAX / 21600 never
  overflow at the next sample.
  */
  lemma SamplesFitIff(target: Chip, cycles: nat)
    requires cycles <= RESTORE_CYCLES
    ensures SamplesFit(target, cycles) <==> cycles <= I64_MAX / 21_600
  {
    ScalingFitsIff(cycles);
    if cycles <= I64_MAX / 21_600 {
      forall b | Restore(target, b).Some? && Restore(target, b).value.sampleCycles == cycles
        ensures FitsI64(Restore(target, b).value.sampleArea * PCM_SCALE)
      {
        AcceptedIsBounded(target, b);
      }
    } else {
      var area :| 0 - MAX_LEVEL * cycles <= area <= MAX_LEVEL * cycles && !FitsI64(area * PCM_SCALE);
      AcceptsIntegral(target, cycles, area);
    }
  }

  /** The next sample of every snapshot accepted with this cycle count is the exact scaled mean. */
  ghost predicate SamplesExact(target: Chip, cycles: nat)
    requires cycles > 0
  {
    forall b :: Restore(target, b).Some? && Restore(target, b).value.sampleCycles == cycles ==>
      SampleValue(SoundOf(Restore(target, b).value)) == ExactMean(Restore(target, b).value.sampleArea, cycles)
  }

  /** Above that bound it is not only the product that overflows: some restored sample is wrong. */
  lemma SamplesExactIff(target: Chip, cycles: nat)
    requires 0 < cycles <= RESTORE_CYCLES
    ensures SamplesExact(target, cycles) <==> cycles <= I64_MAX / 21_600
  {
    MeanExactIff(cycles);
    if cycles <= I64_MAX / 21_600 {
      forall b | Restore(target, b).Some? && Restore(target, b).value.sampleCycles == cycles
        ensures SampleValue(SoundOf(Restore(target, b).value))
             == ExactMean(Restore(target, b).value.sampleArea, cycles)
      {
        AcceptedIsBounded(target, b);
      }
    } else {
      var area :| 0 - MAX_LEVEL * cycles <= area <= MAX_LEVEL * cycles &&
        ScaledMean(area, cycles) != ExactMean(area, cycles);
      AcceptsIntegral(target, cycles, area);
    }
  }

  /** Every chip accepts a snapshot whose next sample overflows. */
  lemma RestoreAdmitsOverflow(target: Chip)
    ensures exists b ::
      Restore(target, b).Some? && !FitsI64(Restore(target, b).value.sampleArea * PCM_SCALE)
  {
    SamplesFitIff(target, I64_MAX / 21_600 + 1);
  }

  // ----- where held outputs are never heard

  /** Submappers 1 and 2 have no sound, whatever is written. */
  predicate IsSilent(config: Config) {
    config.submapper == 1 || config.submapper == 2
  }

  ghost predicate AlikeSounds(s: Sound<Voices>, t: Sound<Voices>) {
    Namco163Turns.IsUnit(s) && (!s.voices.averaged || !s.enabled) &&
    t == s.(voices := s.voices.(outputs := t.voices.outputs))
  }

  lemma TickAlike(s: Sound<Voices>, t: Sound<Voices>)
    requires AlikeSounds(s, t)
    ensures AlikeSounds(Tick(s), Tick(t))
  {
  }

  /** The same chip up to held outputs, which multiplexed or silent output never looks at. */
  ghost predicate Alike(a: Chip, b: Chip) {
    (!a.voices.averaged || IsSilent(a.config)) && b == WithOutputs(a, b.voices.outputs)
  }

  lemma ClockAlike(a: Chip, b: Chip, cycles: nat)
    requires Alike(a, b)
    ensures Alike(Step(a, ClockAudio(cycles)), Step(b, ClockAudio(cycles)))
  {
    var s, t := SoundOf(a), SoundOf(b);
    forall x, y | AlikeSounds(x, y)
      ensures AlikeSounds(Tick(x), Tick(y))
    {
      TickAlike(x, y);
    }
    IterateRelated(Tick, AlikeSounds, s, t, cycles);
    TicksKeepMode(s, cycles);
  }

  lemma {:induction false} TicksKeepMode(s: Sound<Voices>, n: nat)
    requires Namco163Turns.IsUnit(s)
    ensures Iterate(Tick, s, n).voices.averaged == s.voices.averaged
    decreases n
  {
    if n == 0 {
    } else {
      TicksKeepMode(Tick(s), n - 1);
    }
  }

  lemma StepAlike(a: Chip, b: Chip, op: Op)
    requires Alike(a, b)
    ensures Alike(Step(a, op), Step(b, op))
  {
    if op.ClockAudio? {
      ClockAlike(a, b, op.cycles);
    }
  }

  lemma SamplesAlike(a: Chip, b: Chip)
    requires Alike(a, b)
    ensures SampleValue(SoundOf(a)) == SampleValue(SoundOf(b))
  {
  }

  lemma SeeAlike(a: Chip, b: Chip, op: Op)
    requires Alike(a, b)
    ensures See(a, op) == See(b, op)
  {
    StepAlike(a, b, op);
    SamplesAlike(a, b);
  }

  lemma ObserveAlike(a: Chip, b: Chip, ops: seq<Op>)
    requires Alike(a, b)
    ensures Observe(a, ops) == Observe(b, ops)
  {
    forall x, y, op | Alike(x, y)
      ensures Alike(Step(x, op), Step(y, op)) && See(x, op) == See(y, op)
    {
      StepAlike(x, y, op);
      SeeAlike(x, y, op);
    }
    ObservedRelated(Step, See, Alike, a, b, ops);
  }

  lemma {:induction false} RunKeepsCartridge(c: Chip, ops: seq<Op>)
    ensures SameCartridge(c, Run(c, ops))
    decreases |ops|
  {
    if ops == [] {
    } else {
      if ops[0].ClockAudio? {
        TicksKeepMode(SoundOf(c), ops[0].cycles);
      }
      RunKeepsCartridge(Step(c, ops[0]), ops[1..]);
    }
  }

  // ----- the exact condition

  /** The chip `c` comes back in `target` and then shows the same as `c` would have. */
  predicate ComesBack(c: Chip, target: Chip, after: seq<Op>) {
    var restored := Restore(target, Snapshot(c));
    restored.Some? && Observe(restored.value, after) == Observe(c, after)
  }

  /**
  Every run of this cartridge within the cycle bound can be saved, restored into any chip of the
  same cartridge, and continued by any operations without anybody noticing.
  */
  ghost predicate RestoresUnnoticed(config: Config, nametables: NtRegs, chr: seq<Byte>, averaged: bool) {
    forall before: seq<Op>, target: Chip, after: seq<Op> ::
      var c := Run(PowerOn(config, nametables, chr, averaged), before);
      c.sampleCycles <= RESTORE_CYCLES && SameCartridge(c, target) ==> ComesBack(c, target, after)
  }

  lemma RestoreIsBisimilar(
    config: Config, nametables: NtRegs, chr: seq<Byte>, averaged: bool, before: seq<Op>, target: Chip,
    after: seq<Op>)
    requires !averaged || IsSilent(config)
    requires var c := Run(PowerOn(config, nametables, chr, averaged), before);
      c.sampleCycles <= RESTORE_CYCLES && SameCartridge(c, target)
    ensures ComesBack(Run(PowerOn(config, nametables, chr, averaged), before), target, after)
  {
    var c := Run(PowerOn(config, nametables, chr, averaged), before);
    ReachableIsSound(config, nametables, chr, averaged, before);
    RunKeepsCartridge(PowerOn(config, nametables, chr, averaged), before);
    RestoredChip(c, target);
    ObserveAlike(c, WithOutputs(c, target.voices.outputs), after);
  }

  // ----- a run whose restore is heard

  /** Sound RAM of two channels, the last at full volume, over a wave that starts at its peak. */
  function Loud(): Ram {
    seq(128, i => if i == 0 then 0xFF else if i == 0x7F then 0x1F else 0)
  }

  function Quiet(): Outputs {
    seq(8, _ => 0)
  }

  /** The writes that fill it, and one update. */
  function Play(): seq<Op> {
    [WritePrg(0xF800, 0xFF), WritePrg(0x4800, 0x1F), WritePrg(0x4800, 0xFF), ClockAudio(15)]
  }

  /** One more update, a sample to drain the integral, and the level itself. */
  function Listen(): seq<Op> {
    [ClockAudio(15), TakeSample, TakeSample]
  }

  /** The first six registers of a channel, frequency, phase and wave length, are zero. */
  predicate StandsStill(ram: Ram, channel: Channel) {
    var b := Base(channel);
    ram[b] == 0 && ram[b + 1] == 0 && ram[b + 2] == 0 && ram[b + 3] == 0 && ram[b + 4] == 0 &&
    ram[b + 5] == 0
  }

  lemma StillPhase(ram: Ram, channel: Channel)
    requires StandsStill(ram, channel)
    ensures Phase(ram, channel) == 0
  {
  }

  lemma StillFrequency(ram: Ram, channel: Channel)
    requires StandsStill(ram, channel)
    ensures Frequency(ram, channel) == 0
  {
  }

  lemma ZeroMod(n: nat)
    requires n > 0
    ensures 0 % n == 0
  {
  }

  lemma PhaseRewritten(ram: Ram, channel: Channel)
    requires StandsStill(ram, channel)
    ensures WithPhase(ram, channel, 0) == ram
  {
  }

  lemma StillAdvance(ram: Ram, channel: Channel)
    requires StandsStill(ram, channel)
    ensures Advanced(ram, channel) == ram
  {
    StillPhase(ram, channel);
    StillFrequency(ram, channel);
    ZeroMod(Period(ram, channel));
    PhaseRewritten(ram, channel);
  }

  lemma FirstPosition(phase: int, offset: int)
    requires phase == 0 && offset == 0
    ensures Position(phase, offset) == 0
  {
  }

  lemma FirstSample(ram: Ram, position: int)
    requires position == 0 && ram[0] == 0xFF
    ensures WaveSample(ram, position) == 15
  {
  }

  lemma SampleAtStart(ram: Ram, channel: Channel, phase: nat, position: nat)
    requires phase == Phase(ram, channel) == 0 && ram[Base(channel) + 6] == 0
    requires position == Position(phase, ram[Base(channel) + 6]) && ram[0] == 0xFF
    ensures Sample(ram, channel) == 15
  {
    FirstPosition(phase, ram[Base(channel) + 6]);
    FirstSample(ram, position);
  }

  /** The sample at the start of a wave that starts at its peak. */
  lemma StillSample(ram: Ram, channel: Channel)
    requires Phase(ram, channel) == 0 && ram[Base(channel) + 6] == 0 && ram[0] == 0xFF
    ensures Sample(ram, channel) == 15
  {
    SampleAtStart(ram, channel, Phase(ram, channel), Position(Phase(ram, channel), ram[Base(channel) + 6]));
  }

  lemma StandingSeven(ram: Ram)
    requires ram == Loud()
    ensures StandsStill(ram, 7) && ram[Base(7) + 6] == 0 && ram[127] == 0x1F && ram[0] == 0xFF
  {
  }

  lemma StandingSix(ram: Ram)
    requires ram == Loud()
    ensures StandsStill(ram, 6) && ram[119] == 0
  {
  }

  lemma LoudVolume(ram: Ram)
    requires ram[127] == 0x1F
    ensures Volume(ram, 7) == 15
  {
    assert Base(7) == 120;
  }

  lemma NoVolume(ram: Ram)
    requires ram[119] == 0
    ensures Volume(ram, 6) == 0
  {
    assert Base(6) == 112;
  }

  lemma LoudSeven(ram: Ram)
    requires ram == Loud()
    ensures Output(ram, 7) == 105
  {
    StandingSeven(ram);
    StillPhase(ram, 7);
    StillSample(ram, 7);
    LoudVolume(ram);
  }

  lemma LoudSix(ram: Ram)
    requires ram == Loud()
    ensures Output(ram, 6) == 0
  {
    StandingSix(ram);
    NoVolume(ram);
  }

  lemma LoudStill(ram: Ram, channel: Channel)
    requires ram == Loud() && channel >= 6
    ensures Advanced(ram, channel) == ram
  {
    StandingSeven(ram);
    StandingSix(ram);
    StillAdvance(ram, channel);
  }

  lemma LoudFirst()
    ensures First(Loud()) == 6
  {
  }

  lemma SumOfTwo(x: int, y: int)
    ensures Sum([x, y]) == x + y
  {
    assert [x, y][1..] == [y] && [y][1..] == [];
    assert Sum([y]) == y + Sum([]);
  }

  lemma MixOfTwo(outputs: Outputs, output: int)
    ensures Mixed(true, outputs, 6, output) == TruncDiv(outputs[6] + outputs[7], 2)
  {
    assert outputs[6..] == [outputs[6], outputs[7]];
    SumOfTwo(outputs[6], outputs[7]);
  }

  /** A turn of one of two channels over RAM that stands still. */
  lemma StillTurn(v: Voices, output: int, outputs: Outputs, sum: int)
    requires First(v.ram) == 6 <= v.channel && v.averaged
    requires Advanced(v.ram, v.channel) == v.ram && Output(v.ram, v.channel) == output
    requires outputs == v.outputs[v.channel := output] && sum == outputs[6] + outputs[7]
    ensures Update(v) == Voices(v.ram, if v.channel == 6 then 7 else 6, TruncDiv(sum, 2), true, outputs)
  {
    MixOfTwo(outputs, output);
  }

  lemma FirstTurn()
    ensures Update(Voices(Loud(), 7, 0, true, Quiet())) == Voices(Loud(), 6, 52, true, Quiet()[7 := 105])
  {
    LoudFirst();
    LoudStill(Loud(), 7);
    LoudSeven(Loud());
    StillTurn(Voices(Loud(), 7, 0, true, Quiet()), 105, Quiet()[7 := 105], 105);
  }

  lemma SecondTurn(dac: int, outputs: Outputs, held: int)
    requires held == outputs[7]
    ensures Level(Update(Voices(Loud(), 6, dac, true, outputs))) == TruncDiv(held, 2)
  {
    var silenced: Outputs := outputs[6 := 0];
    LoudFirst();
    LoudStill(Loud(), 6);
    LoudSix(Loud());
    StillTurn(Voices(Loud(), 6, dac, true, outputs), 0, silenced, held);
  }

  lemma ObserveOne(c: Chip, x: Op, rest: seq<Op>)
    ensures Observe(c, [x] + rest) == [See(c, x)] + Observe(Step(c, x), rest)
  {
    assert ([x] + rest)[1..] == rest;
  }

  lemma ObserveThree(c: Chip, x: Op, y: Op, z: Op)
    ensures Observe(c, [x, y, z]) == [See(c, x), See(Step(c, x), y), See(Step(Step(c, x), y), z)]
  {
    assert [x, y, z] == [x] + ([y] + ([z] + []));
    ObserveOne(Step(Step(c, x), y), z, []);
    ObserveOne(Step(c, x), y, [z] + []);
    ObserveOne(c, x, [y] + ([z] + []));
  }

  /** The first update after a full divider. */
  lemma NextUpdate(c: Chip)
    requires AudioEnabled(c) && c.divider == 15
    ensures Step(c, ClockAudio(15)) == WithSound(c, Updated(SoundOf(c), 15))
  {
    UpdateTick(SoundOf(c), 15);
  }

  /** A drained chip samples its level. */
  lemma DrainedLevel(c: Chip, value: int)
    requires AudioEnabled(c) && value == Level(c.voices) * PCM_SCALE
    ensures Seen(Step(c, TakeSample), TakeSample) == AsI16(value)
  {
  }

  /** After a chip's next update, a drained sample is its level. */
  lemma NextLevelIsHeard(c: Chip, value: int)
    requires AudioEnabled(c) && c.divider == 15 && value == Level(Update(c.voices)) * PCM_SCALE
    ensures |Observe(c, Listen())| == 3 && Observe(c, Listen())[2].value == AsI16(value)
  {
    NextUpdate(c);
    DrainedLevel(Step(c, ClockAudio(15)), value);
    ObserveThree(c, ClockAudio(15), TakeSample, TakeSample);
  }

  /** The registers and sound RAM after the three writes of Play. */
  lemma Filled(config: Config, nametables: NtRegs, chr: seq<Byte>)
    requires !IsSilent(config)
    ensures var c0 := PowerOn(config, nametables, chr, true);
      var c := Step(Step(Step(c0, Play()[0]), Play()[1]), Play()[2]);
      c.voices == Voices(Loud(), 7, 0, true, Quiet()) && c.divider == 15 && c.sampleCycles == 0 &&
      AudioEnabled(c)
  {
    var c0 := PowerOn(config, nametables, chr, true);
    var c := Step(Step(Step(c0, Play()[0]), Play()[1]), Play()[2]);
    assert c.voices.ram == Loud();
  }

  lemma PlayedInTurn(c: Chip)
    ensures Run(c, Play())
         == Step(Step(Step(Step(c, Play()[0]), Play()[1]), Play()[2]), ClockAudio(15))
  {
    var c1 := Step(c, Play()[0]);
    var c2 := Step(c1, Play()[1]);
    var c3 := Step(c2, Play()[2]);
    FoldLeftTail(Step, c, Play(), 0);
    FoldLeftTail(Step, c1, Play(), 1);
    FoldLeftTail(Step, c2, Play(), 2);
    FoldLeftTail(Step, c3, Play(), 3);
  }

  lemma FirstUpdate(c: Chip)
    requires c.voices == Voices(Loud(), 7, 0, true, Quiet()) && c.divider == 15 && AudioEnabled(c)
    requires c.sampleCycles == 0
    ensures var d := Step(c, ClockAudio(15));
      d.voices == Voices(Loud(), 6, 52, true, Quiet()[7 := 105]) && d.divider == 15 &&
      d.sampleCycles == 15 && AudioEnabled(d)
  {
    NextUpdate(c);
    FirstTurn();
  }

  /** What playing leaves behind. */
  lemma Played(config: Config, nametables: NtRegs, chr: seq<Byte>)
    requires !IsSilent(config)
    ensures var c := Run(PowerOn(config, nametables, chr, true), Play());
      c.voices == Voices(Loud(), 6, 52, true, Quiet()[7 := 105]) && c.divider == 15 &&
      c.sampleCycles == 15 && AudioEnabled(c)
  {
    var c := PowerOn(config, nametables, chr, true);
    Filled(config, nametables, chr);
    PlayedInTurn(c);
    FirstUpdate(Step(Step(Step(c, Play()[0]), Play()[1]), Play()[2]));
  }

  /** A chip that holds `held` for the channel just played is next heard at half of it. */
  lemma HeldIsHeard(c: Chip, outputs: Outputs, held: int, value: int)
    requires AudioEnabled(c) && c.divider == 15 && c.voices == Voices(Loud(), 6, 52, true, outputs)
    requires held == outputs[7] && value == TruncDiv(held, 2) * PCM_SCALE
    requires -21_600 <= value <= 21_600
    ensures |Observe(c, Listen())| == 3 && Observe(c, Listen())[2].value == value
  {
    SampleUnchanged(value);
    SecondTurn(52, outputs, held);
    NextLevelIsHeard(c, value);
  }

  lemma SampleUnchanged(value: int)
    requires -21_600 <= value <= 21_600
    ensures AsI16(value) == value
  {
  }

  /** Two chips that hold different levels of the channel just played are told apart. */
  lemma LevelsAreHeard(c: Chip, d: Chip)
    requires AudioEnabled(c) && c.divider == 15 && d == WithOutputs(c, Quiet())
    requires c.voices == Voices(Loud(), 6, 52, true, Quiet()[7 := 105])
    ensures Observe(c, Listen()) != Observe(d, Listen())
  {
    HeldIsHeard(c, Quiet()[7 := 105], 105, 9_360);
    HeldIsHeard(d, Quiet(), 0, 0);
  }

  /** A freshly powered chip continues it at another level. */
  lemma AveragedOutputIsLost(config: Config, nametables: NtRegs, chr: seq<Byte>)
    requires !IsSilent(config)
    ensures var on := PowerOn(config, nametables, chr, true);
      var c := Run(on, Play());
      c.sampleCycles <= RESTORE_CYCLES && SameCartridge(c, on) && !ComesBack(c, on, Listen())
  {
    var on := PowerOn(config, nametables, chr, true);
    var c := Run(on, Play());
    Played(config, nametables, chr);
    RunKeepsCartridge(on, Play());
    ReachableIsSound(config, nametables, chr, true, Play());
    RestoredChip(c, on);
    LevelsAreHeard(c, WithOutputs(c, Quiet()));
  }

  /**
  A restore is unnoticed, whatever was run before and whatever follows, if and only if output is
  multiplexed or the board has no sound.
  */
  lemma RestoresUnnoticedIff(config: Config, nametables: NtRegs, chr: seq<Byte>, averaged: bool)
    ensures RestoresUnnoticed(config, nametables, chr, averaged) <==> !averaged || IsSilent(config)
  {
    if !averaged || IsSilent(config) {
      forall before: seq<Op>, target: Chip, after: seq<Op> |
        var c := Run(PowerOn(config, nametables, chr, averaged), before);
        c.sampleCycles <= RESTORE_CYCLES && SameCartridge(c, target)
        ensures ComesBack(Run(PowerOn(config, nametables, chr, averaged), before), target, after)
      {
        RestoreIsBisimilar(config, nametables, chr, averaged, before, target, after);
      }
    } else {
      AveragedOutputIsLost(config, nametables, chr);
    }
  }
}
