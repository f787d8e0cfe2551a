/**
Namco 163 as a whole: registers, work RAM, CHR backing and sound, its snapshot, and what a
restored chip does afterwards.
*/
module Namco163Snapshot {
  import Arithmetic
  import opened Banks
  import opened Codec
  import opened Integrator
  import Iteration
  import opened MachineWords
  import opened Namco163
  import Namco163Turns
  import Options

  type RamAddr = a: int | 0 <= a < 0x80
  type IrqCounter = n: int | 0 <= n <= 0x7FFF
  type U64 = n: int | 0 <= n < 0x1_0000_0000_0000_0000
  type PrgRegs = s: seq<Byte> | |s| == 3 && forall i :: 0 <= i < 3 ==> s[i] < 64 witness [0, 1, 2]
  type ChrRegs = s: seq<Byte> | |s| == 8 witness seq(8, _ => 0)
  type NtRegs = s: seq<Byte> | |s| == 4 witness [0, 0, 0, 0]
  type ChrMode = b: int | 0 <= b < 0x100 && b % 64 == 0
  type PrgRam = s: seq<Byte> | |s| == 0x2000 witness seq(0x2000, _ => 0)

  /** What the cartridge fixes. */
  datatype Config = Config(rom: seq<Byte>, submapper: Byte, battery: bool, chrWritable: bool)

  datatype Registers = Registers(
    ramPort: Byte, ramAddr: RamAddr, irqEnabled: bool, irqPending: bool, irqCounter: IrqCounter,
    audioWrites: U64, prgRegs: PrgRegs, chrRegs: ChrRegs, ntRegs: NtRegs, chrMode: ChrMode,
    soundDisabled: bool)

  datatype Chip = Chip(
    config: Config, regs: Registers, voices: Voices, divider: Divider, sampleArea: int,
    sampleCycles: nat, prgRam: PrgRam, chr: seq<Byte>)

  function AudioEnabled(c: Chip): bool {
    !c.regs.soundDisabled && c.config.submapper != 1 && c.config.submapper != 2
  }

  function SoundOf(c: Chip): Sound<Voices> {
    Sound(Update, Level, AudioEnabled(c), c.voices, c.divider, c.sampleArea, c.sampleCycles)
  }

  function WithSound(c: Chip, s: Sound<Voices>): Chip {
    c.(voices := s.voices, divider := s.divider, sampleArea := s.sampleArea, sampleCycles := s.sampleCycles)
  }

  // ----- operations

  datatype Op =
    | ReadPrg(addr: Word)
    | WritePrg(addr: Word, value: Byte)
    | ReadChr(addr: Word)
    | WriteChr(addr: Word, value: Byte)
    | ClockCpu(cycles: nat)
    | ClearIrq
    | ClockAudio(cycles: nat)
    | TakeSample
    | ReadNametables

  function Incremented(r: Registers): Registers {
    if r.ramPort >= 0x80 then r.(ramAddr := (r.ramAddr + 1) % 0x80) else r
  }

  function PrgWindow(c: Chip, addr: Word): nat
    requires addr >= 0x8000
  {
    var count := BankCount(|c.config.rom|, K8);
    var slot := (addr - 0x8000) / K8;
    if slot < 3 then c.regs.prgRegs[slot] % count else count - 1
  }

  function ReadPrgValue(c: Chip, addr: Word): Byte {
    if addr < 0x4800 then 0
    else if addr < 0x5000 then c.voices.ram[c.regs.ramAddr]
    else if addr < 0x5800 then c.regs.irqCounter % 0x100
    else if addr < 0x6000 then c.regs.irqCounter / 0x100 + 0x80 * Bit(c.regs.irqEnabled)
    else if addr < 0x8000 then c.prgRam[addr % K8]
    else ReadBank(c.config.rom, K8, PrgWindow(c, addr), addr % K8)
  }

  function ReadPrgStep(c: Chip, addr: Word): Chip {
    if 0x4800 <= addr < 0x5000 then c.(regs := Incremented(c.regs)) else c
  }

  /** The four 2 KiB windows of work RAM are writable one by one under the $4 key. */
  predicate RamWritable(port: Byte, addr: Word)
    requires 0x6000 <= addr < 0x8000
  {
    var window := (addr - 0x6000) / 0x800;
    port / 0x10 == 4 && (port / (if window == 0 then 1 else if window == 1 then 2
                                 else if window == 2 then 4 else 8)) % 2 == 0
  }

  function WriteRegister(r: Registers, addr: Word, value: Byte): Registers
    requires addr >= 0x8000
  {
    if addr < 0xC000 then r.(chrRegs := r.chrRegs[(addr - 0x8000) / 0x800 := value])
    else if addr < 0xE000 then r.(ntRegs := r.ntRegs[(addr - 0xC000) / 0x800 := value])
    else if addr < 0xE800 then
      r.(prgRegs := r.prgRegs[0 := value % 0x40], soundDisabled := (value / 0x40) % 2 == 1)
    else if addr < 0xF000 then
      r.(prgRegs := r.prgRegs[1 := value % 0x40], chrMode := value - value % 0x40)
    else if addr < 0xF800 then r.(prgRegs := r.prgRegs[2 := value % 0x40])
    else r.(ramPort := value, ramAddr := value % 0x80)
  }

  function SaturatingIncrement(n: U64): U64 {
    if n == 0xFFFF_FFFF_FFFF_FFFF then n else n + 1
  }

  function WritePrgStep(c: Chip, addr: Word, value: Byte): Chip {
    var r := c.regs;
    if addr < 0x4800 then c
    else if addr < 0x5000 then
      var cell: Ram := c.voices.ram[r.ramAddr := value];
      c.(voices := c.voices.(ram := cell),
         regs := Incremented(r.(audioWrites := SaturatingIncrement(r.audioWrites))))
    else if addr < 0x5800 then
      c.(regs := r.(irqCounter := r.irqCounter - r.irqCounter % 0x100 + value, irqPending := false))
    else if addr < 0x6000 then
      c.(regs := r.(irqCounter := r.irqCounter % 0x100 + 0x100 * (value % 0x80),
                    irqEnabled := value >= 0x80, irqPending := false))
    else if addr < 0x8000 then
      if RamWritable(r.ramPort, addr) then c.(prgRam := c.prgRam[addr % K8 := value]) else c
    else c.(regs := WriteRegister(r, addr, value))
  }

  function ClockCpuStep(r: Registers, cycles: nat): Registers {
    if !r.irqEnabled then r
    else if r.irqCounter + cycles < 0x7FFF then r.(irqCounter := r.irqCounter + cycles)
    else r.(irqCounter := 0x7FFF, irqPending := true)
  }

  function ChrBank(c: Chip, addr: Word): nat {
    c.regs.chrRegs[(addr / 0x400) % 8]
  }

  function Step(c: Chip, op: Op): Chip {
    match op
    case ReadPrg(addr) => ReadPrgStep(c, addr)
    case WritePrg(addr, value) => WritePrgStep(c, addr, value)
    case ReadChr(_) => c
    case WriteChr(addr, value) =>
      if c.config.chrWritable then
        c.(chr := WriteBank(c.chr, 0x400, ChrBank(c, addr), addr % 0x400, value))
      else c
    case ClockCpu(cycles) => c.(regs := ClockCpuStep(c.regs, cycles))
    case ClearIrq => c.(regs := c.regs.(irqPending := false))
    case ClockAudio(cycles) => WithSound(c, Iteration.Iterate(Tick, SoundOf(c), cycles))
    case TakeSample => WithSound(c, Drained(SoundOf(c)))
    case ReadNametables => c
  }

  /** What the rest of the machine sees of one operation. */
  function Seen(c: Chip, op: Op): int {
    match op
    case ReadPrg(addr) => ReadPrgValue(c, addr)
    case ReadChr(addr) => ReadBank(c.chr, 0x400, ChrBank(c, addr), addr % 0x400)
    case TakeSample => Arithmetic.AsI16(SampleValue(SoundOf(c)))
    case ReadNametables =>
      c.regs.ntRegs[0] % 2 + 2 * (c.regs.ntRegs[1] % 2) + 4 * (c.regs.ntRegs[2] % 2)
      + 8 * (c.regs.ntRegs[3] % 2)
    case _ => 0
  }

  datatype Observation = Observation(value: int, irq: bool)

  function See(c: Chip, op: Op): Observation {
    Observation(Seen(c, op), Step(c, op).regs.irqPending)
  }

  function Observe(c: Chip, ops: seq<Op>): seq<Observation> {
    Iteration.Observed(Step, See, c, ops)
  }

  function Run(c: Chip, ops: seq<Op>): Chip {
    Iteration.FoldLeft(Step, c, ops)
  }

  // ----- every reachable chip

  function PowerOn(config: Config, nametables: NtRegs, chr: seq<Byte>, averaged: bool): Chip {
    Chip(config,
         Registers(0, 0, false, false, 0, 0, [0, 1, 2], seq(8, _ => 0), nametables, 0, false),
         Voices(seq(128, _ => 0), 7, 0, averaged, seq(8, _ => 0)), 15, 0, 0,
         seq(0x2000, _ => 0), chr)
  }

  /** The sound levels are real ones and the integral is bounded by its cycles. */
  ghost predicate IsSound(c: Chip) {
    Namco163Turns.IsLoud(c.voices) && IsBounded(SoundOf(c))
  }

  lemma StepKeepsSound(c: Chip, op: Op)
    requires IsSound(c)
    ensures IsSound(Step(c, op))
  {
    if op.ClockAudio? {
      Namco163Turns.VoicesKeepLevel();
      TicksKeepBound(SoundOf(c), Namco163Turns.IsLoud, op.cycles);
    }
  }

  lemma {:induction false} RunKeepsSound(c: Chip, ops: seq<Op>)
    requires IsSound(c)
    ensures IsSound(Run(c, ops))
    decreases |ops|
  {
    if ops == [] {
    } else {
      StepKeepsSound(c, ops[0]);
      RunKeepsSound(Step(c, ops[0]), ops[1..]);
    }
  }

  lemma ReachableIsSound(config: Config, nametables: NtRegs, chr: seq<Byte>, averaged: bool, ops: seq<Op>)
    ensures IsSound(Run(PowerOn(config, nametables, chr, averaged), ops))
  {
    RunKeepsSound(PowerOn(config, nametables, chr, averaged), ops);
  }

  // ----- the snapshot

  const MAGIC: seq<Byte> := [0x4E, 0x31, 0x36, 0x33, 1]
  const HEADER := 58
  const RESTORE_CYCLES := I64_MAX / 4_800

  function SnapshotFields(c: Chip): seq<seq<Byte>> {
    var r := c.regs;
    [MAGIC,
     [r.ramPort, r.ramAddr, Bit(r.irqEnabled), Bit(r.irqPending)],
     LittleEndian(r.irqCounter, 2),
     LittleEndian(r.audioWrites, 8),
     r.prgRegs,
     r.chrRegs,
     r.ntRegs,
     [r.chrMode, Bit(r.soundDisabled), c.divider, c.voices.channel],
     LittleEndian(Unsigned(c.voices.dac, 2), 2),
     LittleEndian(Unsigned(c.sampleArea, 8), 8),
     LittleEndian(c.sampleCycles, 8),
     [c.config.submapper, Bit(c.config.battery)],
     c.voices.ram,
     c.prgRam,
     if c.config.chrWritable then c.chr else []]
  }

  function Snapshot(c: Chip): seq<Byte> {
    Concat(SnapshotFields(c))
  }

  function SnapshotLength(c: Chip): nat {
    HEADER + 128 + 0x2000 + if c.config.chrWritable then |c.chr| else 0
  }

  /** The checks on a snapshot's header, in a chip of this configuration. */
  predicate Acceptable(config: Config, b: seq<Byte>)
    requires |b| >= HEADER
  {
    var dac := SignedFrom(FromLittleEndian(b[38..40]), 2);
    var area := SignedFrom(FromLittleEndian(b[40..48]), 8);
    var cycles := FromLittleEndian(b[48..56]);
    b[..5] == MAGIC && b[6] <= 127 && b[7] <= 1 && b[8] <= 1 && b[10] <= 127 &&
    b[19] <= 63 && b[20] <= 63 && b[21] <= 63 &&
    b[34] % 0x40 == 0 && b[35] <= 1 && 1 <= b[36] <= 15 && b[37] <= 7 &&
    -120 <= dac <= 105 && cycles <= RESTORE_CYCLES &&
    0 - 120 * cycles <= area <= 120 * cycles &&
    b[56] == config.submapper && b[57] == Bit(config.battery)
  }

  function RestoredRegisters(config: Config, b: seq<Byte>): Registers
    requires |b| >= HEADER && Acceptable(config, b)
  {
    TwoBytes(b[9..11]);
    LittleEndianRange(b[11..19]);
    Registers(
      b[5], b[6], b[7] != 0, b[8] != 0, FromLittleEndian(b[9..11]), FromLittleEndian(b[11..19]),
      b[19..22], b[22..30], b[30..34], b[34], b[35] != 0)
  }

  /** Restore into a chip; a rejected snapshot leaves it alone. */
  function Restore(target: Chip, b: seq<Byte>): Options.Option<Chip> {
    if |b| != SnapshotLength(target) || !Acceptable(target.config, b) then Options.None
    else
      var end := HEADER + 128 + 0x2000;
      Options.Some(target.(
        regs := RestoredRegisters(target.config, b),
        divider := b[36],
        sampleArea := SignedFrom(FromLittleEndian(b[40..48]), 8),
        sampleCycles := FromLittleEndian(b[48..56]),
        voices := Voices(b[HEADER..HEADER + 128], b[37], SignedFrom(FromLittleEndian(b[38..40]), 2),
                         target.voices.averaged, target.voices.outputs),
        prgRam := b[HEADER + 128..end],
        chr := if target.config.chrWritable then b[end..] else target.chr))
  }

  /** Two chips that differ only in what has been played and written so far. */
  predicate SameCartridge(a: Chip, b: Chip) {
    a.config == b.config && a.voices.averaged == b.voices.averaged && |a.chr| == |b.chr| &&
    (a.config.chrWritable || a.chr == b.chr)
  }

  /** Where every field of a snapshot starts. */
  lemma SnapshotOffsets(c: Chip)
    ensures var f := SnapshotFields(c);
      Offset(f, 0) == 0 && Offset(f, 1) == 5 && Offset(f, 2) == 9 && Offset(f, 3) == 11 &&
      Offset(f, 4) == 19 && Offset(f, 5) == 22 && Offset(f, 6) == 30 && Offset(f, 7) == 34 &&
      Offset(f, 8) == 38 && Offset(f, 9) == 40 && Offset(f, 10) == 48 && Offset(f, 11) == 56 &&
      Offset(f, 12) == 58 && Offset(f, 13) == 186 && Offset(f, 14) == 8378 &&
      |Snapshot(c)| == SnapshotLength(c)
  {
    var f := SnapshotFields(c);
    OffsetNext(f, 0);
    OffsetNext(f, 1);
    OffsetNext(f, 2);
    OffsetNext(f, 3);
    OffsetNext(f, 4);
    OffsetNext(f, 5);
    OffsetNext(f, 6);
    OffsetNext(f, 7);
    OffsetNext(f, 8);
    OffsetNext(f, 9);
    OffsetNext(f, 10);
    OffsetNext(f, 11);
    OffsetNext(f, 12);
    OffsetNext(f, 13);
    OffsetNext(f, 14);
    ConcatLength(f, 15);
  }

  /** Field `k` of a snapshot, cut out of its bytes. */
  lemma SnapshotField(c: Chip, k: nat, start: nat)
    requires k < |SnapshotFields(c)| && start == Offset(SnapshotFields(c), k)
    ensures var field := SnapshotFields(c)[k];
      start + |field| <= |Snapshot(c)| && Snapshot(c)[start..start + |field|] == field
  {
    FieldAt(SnapshotFields(c), k);
  }

  /** The header bytes that hold registers. */
  lemma SnapshotRegisters(c: Chip)
    ensures var r, b := c.regs, Snapshot(c);
      |b| == SnapshotLength(c) && b[..5] == MAGIC &&
      b[5..9] == [r.ramPort, r.ramAddr, Bit(r.irqEnabled), Bit(r.irqPending)] &&
      b[9..11] == LittleEndian(r.irqCounter, 2) && b[11..19] == LittleEndian(r.audioWrites, 8) &&
      b[19..22] == r.prgRegs && b[22..30] == r.chrRegs && b[30..34] == r.ntRegs &&
      b[34..38] == [r.chrMode, Bit(r.soundDisabled), c.divider, c.voices.channel] &&
      b[56..58] == [c.config.submapper, Bit(c.config.battery)]
  {
    SnapshotOffsets(c);
    SnapshotField(c, 0, 0);
    SnapshotField(c, 1, 5);
    SnapshotField(c, 2, 9);
    SnapshotField(c, 3, 11);
    SnapshotField(c, 4, 19);
    SnapshotField(c, 5, 22);
    SnapshotField(c, 6, 30);
    SnapshotField(c, 7, 34);
    SnapshotField(c, 11, 56);
  }

  /** The bytes that hold sound state and memories. */
  lemma SnapshotMemories(c: Chip)
    ensures var b := Snapshot(c);
      |b| == SnapshotLength(c) &&
      b[38..40] == LittleEndian(Unsigned(c.voices.dac, 2), 2) &&
      b[40..48] == LittleEndian(Unsigned(c.sampleArea, 8), 8) &&
      b[48..56] == LittleEndian(c.sampleCycles, 8) &&
      b[58..186] == c.voices.ram && b[186..8378] == c.prgRam &&
      b[8378..] == if c.config.chrWritable then c.chr else []
  {
    SnapshotOffsets(c);
    SnapshotField(c, 8, 38);
    SnapshotField(c, 9, 40);
    SnapshotField(c, 10, 48);
    SnapshotField(c, 12, 58);
    SnapshotField(c, 13, 186);
    SnapshotField(c, 14, 8378);
  }

  lemma SignedFieldRoundTrip(x: int, width: nat)
    requires width > 0 && FitsSigned(x, width)
    ensures SignedFrom(FromLittleEndian(LittleEndian(Unsigned(x, width), width)), width) == x
  {
    LittleEndianRoundTrip(Unsigned(x, width), width);
    SignedRoundTrip(x, width);
  }

  /** The chip `a` as it comes back in `target`: everything but the held outputs. */
  function WithOutputs(a: Chip, outputs: Outputs): Chip {
    a.(voices := a.voices.(outputs := outputs))
  }

  lemma SnapshotNumbers(c: Chip)
    requires IsSound(c) && c.sampleCycles < 0x1_0000_0000_0000_0000
    ensures var b := Snapshot(c);
      |b| >= HEADER && FromLittleEndian(b[9..11]) == c.regs.irqCounter &&
      FromLittleEndian(b[11..19]) == c.regs.audioWrites &&
      SignedFrom(FromLittleEndian(b[38..40]), 2) == c.voices.dac &&
      FromLittleEndian(b[48..56]) == c.sampleCycles &&
      (c.sampleCycles <= RESTORE_CYCLES ==>
         SignedFrom(FromLittleEndian(b[40..48]), 8) == c.sampleArea)
  {
    Ranges();
    SnapshotRegisters(c);
    SnapshotMemories(c);
    LittleEndianRoundTrip(c.regs.irqCounter, 2);
    LittleEndianRoundTrip(c.regs.audioWrites, 8);
    LittleEndianRoundTrip(c.sampleCycles, 8);
    SignedFieldRoundTrip(c.voices.dac, 2);
    if c.sampleCycles <= RESTORE_CYCLES {
      SignedFieldRoundTrip(c.sampleArea, 8);
    }
  }

  /** A reachable chip's snapshot passes the checks exactly when its cycle count is in bound. */
  lemma SnapshotAcceptedIff(c: Chip)
    requires IsSound(c) && c.sampleCycles < 0x1_0000_0000_0000_0000
    ensures |Snapshot(c)| == SnapshotLength(c) >= HEADER
    ensures Acceptable(c.config, Snapshot(c)) <==> c.sampleCycles <= RESTORE_CYCLES
  {
    var b := Snapshot(c);
    SnapshotRegisters(c);
    SnapshotNumbers(c);
    assert b[6] == b[5..9][1] && b[7] == b[5..9][2] && b[8] == b[5..9][3];
    assert b[10] == b[9..11][1];
    TwoBytes(b[9..11]);
    assert b[19] == b[19..22][0] && b[20] == b[19..22][1] && b[21] == b[19..22][2];
    assert b[34] == b[34..38][0] && b[35] == b[34..38][1] && b[36] == b[34..38][2] && b[37] == b[34..38][3];
    assert b[56] == b[56..58][0] && b[57] == b[56..58][1];
  }

  /** What comes back is the chip that was saved, except for the held outputs. */
  lemma RestoredChip(c: Chip, target: Chip)
    requires IsSound(c) && c.sampleCycles <= RESTORE_CYCLES && SameCartridge(c, target)
    ensures Restore(target, Snapshot(c)) == Options.Some(WithOutputs(c, target.voices.outputs))
  {
    var b := Snapshot(c);
    SnapshotAcceptedIff(c);
    SnapshotRegisters(c);
    SnapshotMemories(c);
    SnapshotNumbers(c);
    assert b[5] == b[5..9][0] && b[6] == b[5..9][1] && b[7] == b[5..9][2] && b[8] == b[5..9][3];
    assert b[34] == b[34..38][0] && b[35] == b[34..38][1] && b[36] == b[34..38][2] && b[37] == b[34..38][3];
  }

  /** Every accepted snapshot is the snapshot of the chip it restores. */
  lemma AcceptedIsSnapshot(target: Chip, b: seq<Byte>)
    requires Restore(target, b).Some?
    ensures Snapshot(Restore(target, b).value) == b
  {
    var c := Restore(target, b).value;
    var f := SnapshotFields(c);
    SnapshotOffsets(c);
    AcceptedHeader(target, b);
    AcceptedSound(target, b);
    AcceptedMemories(target, b);
    FifteenCuts(f, b);
    ConcatOfCuts(f, b, 15);
  }

  /** A chip whose snapshot these bytes could be, in a cartridge like the target's. */
  ghost predicate IsSnapshotOf(c: Chip, target: Chip, b: seq<Byte>) {
    SameCartridge(c, target) && IsSound(c) && c.sampleCycles <= I64_MAX / 4_800 && Snapshot(c) == b
  }

  function Silenced(c: Chip): Chip {
    WithOutputs(c, seq(8, _ => 0))
  }

  lemma SilencedIsSound(target: Chip, b: seq<Byte>)
    requires Restore(target, b).Some?
    ensures var c := Silenced(Restore(target, b).value);
      SameCartridge(c, target) && IsSound(c) && c.sampleCycles <= I64_MAX / 4_800
  {
  }

  /** The accepted byte strings are exactly the snapshots of sound states within the cycle bound. */
  lemma AcceptedExactly(target: Chip, b: seq<Byte>)
    ensures Restore(target, b).Some? <==> exists c :: IsSnapshotOf(c, target, b)
  {
    if Restore(target, b).Some? {
      var c := Restore(target, b).value;
      AcceptedIsSnapshot(target, b);
      SilencedIsSound(target, b);
      assert SnapshotFields(Silenced(c)) == SnapshotFields(c);
      assert IsSnapshotOf(Silenced(c), target, b);
    }
    if c :| IsSnapshotOf(c, target, b) {
      RestoredChip(c, target);
    }
  }

  lemma FifteenCuts(f: seq<seq<Byte>>, b: seq<Byte>)
    requires |f| == 15
    requires IsCut(f, b, 0) && IsCut(f, b, 1) && IsCut(f, b, 2) && IsCut(f, b, 3) && IsCut(f, b, 4)
    requires IsCut(f, b, 5) && IsCut(f, b, 6) && IsCut(f, b, 7) && IsCut(f, b, 8) && IsCut(f, b, 9)
    requires IsCut(f, b, 10) && IsCut(f, b, 11) && IsCut(f, b, 12) && IsCut(f, b, 13) && IsCut(f, b, 14)
    ensures forall k :: 0 <= k < 15 ==> IsCut(f, b, k)
  {
  }

  lemma AcceptedHeader(target: Chip, b: seq<Byte>)
    requires Restore(target, b).Some?
    ensures var f := SnapshotFields(Restore(target, b).value);
      IsCut(f, b, 0) && IsCut(f, b, 1) && IsCut(f, b, 2) && IsCut(f, b, 3)
  {
    SnapshotOffsets(Restore(target, b).value);
    AcceptedNumbers(target, b);
    AcceptedPort(target, b);
  }

  lemma AcceptedSound(target: Chip, b: seq<Byte>)
    requires Restore(target, b).Some?
    ensures var f := SnapshotFields(Restore(target, b).value);
      IsCut(f, b, 7) && IsCut(f, b, 8) && IsCut(f, b, 9) && IsCut(f, b, 10) && IsCut(f, b, 11)
  {
    SnapshotOffsets(Restore(target, b).value);
    AcceptedNumbers(target, b);
    AcceptedFlags(target, b);
  }

  lemma AcceptedMemories(target: Chip, b: seq<Byte>)
    requires Restore(target, b).Some?
    ensures var f := SnapshotFields(Restore(target, b).value);
      IsCut(f, b, 4) && IsCut(f, b, 5) && IsCut(f, b, 6) &&
      IsCut(f, b, 12) && IsCut(f, b, 13) && IsCut(f, b, 14)
  {
    SnapshotOffsets(Restore(target, b).value);
  }

  lemma AcceptedNumbers(target: Chip, b: seq<Byte>)
    requires Restore(target, b).Some?
    ensures var c := Restore(target, b).value;
      LittleEndian(c.regs.irqCounter, 2) == b[9..11] &&
      LittleEndian(c.regs.audioWrites, 8) == b[11..19] &&
      LittleEndian(Unsigned(c.voices.dac, 2), 2) == b[38..40] &&
      LittleEndian(Unsigned(c.sampleArea, 8), 8) == b[40..48] &&
      LittleEndian(c.sampleCycles, 8) == b[48..56]
  {
    LittleEndianInverse(b[9..11], 2);
    LittleEndianInverse(b[11..19], 8);
    SignedInverse(b[38..40], 2);
    SignedInverse(b[40..48], 8);
    LittleEndianInverse(b[48..56], 8);
  }

  lemma AcceptedPort(target: Chip, b: seq<Byte>)
    requires Restore(target, b).Some?
    ensures var r := Restore(target, b).value.regs;
      [r.ramPort, r.ramAddr, Bit(r.irqEnabled), Bit(r.irqPending)] == b[5..9]
  {
  }

  lemma AcceptedFlags(target: Chip, b: seq<Byte>)
    requires Restore(target, b).Some?
    ensures var c := Restore(target, b).value; var f := SnapshotFields(c);
      f[0] == b[..5] && f[7] == b[34..38] && f[11] == b[56..58]
  {
  }
}
