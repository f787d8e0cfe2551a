/** MMC1 with its memories, its snapshot, and what a restored mapper does afterwards. */
module Mmc1Snapshot {
  import Banks
  import opened Codec
  import Iteration
  import opened MachineWords
  import opened Mmc1Serial
  import opened Options
  import PrgWindows

  /** What the cartridge fixes. */
  datatype Config = Config(
    rom: seq<Byte>, mirroring: Byte, battery: bool, surom: bool, submapper: Byte, chrWritable: bool)

  datatype Chip = Chip(
    config: Config, port: Port, lastPpuAddr: Word, prgRam: PrgWindows.WorkRam, chr: seq<Byte>)

  datatype Op =
    | ReadPrg(addr: Word)
    | WritePrg(addr: Word, value: Byte, cycle: Cycle)
    | ReadChr(addr: Word)
    | WriteChr(addr: Word, value: Byte)
    | NotifyPpu(addr: Word)
    | ReadMirroring

  function Board(c: Chip): PrgWindows.Mmc1 {
    var r := c.port.regs;
    PrgWindows.Mmc1(c.config.rom, c.prgRam, c.config.surom, r.control, r.chrBank0, r.prgBank, r.ramEnabled)
  }

  /** CHR bank size, bank and offset: one 8 KiB bank, or two of 4 KiB under control bit 4. */
  function ChrWindow(r: Registers, addr: Word): (nat, nat, nat) {
    if (r.control / 16) % 2 == 0 then (Banks.K8, r.chrBank0 / 2, addr)
    else if addr < 0x1000 then (0x1000, r.chrBank0, addr)
    else (0x1000, r.chrBank1, addr - 0x1000)
  }

  /** SUROM in 4 KiB mode with different outer bits in its two CHR registers. */
  predicate OuterMismatch(c: Chip) {
    var r := c.port.regs;
    c.config.surom && (r.control / 16) % 2 == 1 && (r.chrBank0 / 16) % 2 != (r.chrBank1 / 16) % 2
  }

  function Step(c: Chip, op: Op): Chip {
    match op
    case ReadPrg(_) => c
    case WritePrg(addr, value, cycle) =>
      if addr >= 0x8000 then c.(port := Write(c.port, Access(addr, value, cycle)))
      else if addr >= 0x6000 && c.port.regs.ramEnabled then
        c.(prgRam := c.prgRam[(addr - 0x6000) % |c.prgRam| := value])
      else c
    case ReadChr(_) => c
    case WriteChr(addr, value) =>
      var window := ChrWindow(c.port.regs, addr);
      if c.config.chrWritable then c.(chr := Banks.WriteBank(c.chr, window.0, window.1, window.2, value)) else c
    case NotifyPpu(addr) =>
      var seen := c.(lastPpuAddr := addr);
      if OuterMismatch(c) then seen.(port := c.port.(regs := c.port.regs.(mismatchReported := true)))
      else seen
    case ReadMirroring => c
  }

  function Seen(c: Chip, op: Op): int {
    match op
    case ReadPrg(addr) => PrgWindows.Mmc1Read(Board(c), addr)
    case ReadChr(addr) =>
      var window := ChrWindow(c.port.regs, addr);
      Banks.ReadBank(c.chr, window.0, window.1, window.2)
    case ReadMirroring => c.port.regs.control % 4
    case NotifyPpu(_) => Bit(OuterMismatch(c) && !c.port.regs.mismatchReported)
    case _ => 0
  }

  function Observe(c: Chip, ops: seq<Op>): seq<int> {
    Iteration.Observed(Step, Seen, c, ops)
  }

  // ----- the snapshot

  const HEADER := 21

  function SnapshotFields(c: Chip): seq<seq<Byte>> {
    var r := c.port.regs;
    [[c.port.shift, r.control, r.chrBank0, r.chrBank1, r.prgBank, c.config.mirroring,
      Bit(c.config.battery), Bit(c.config.surom), c.config.submapper, Bit(r.ramEnabled),
      Bit(r.mismatchReported)],
     LittleEndian(if c.port.last.Some? then c.port.last.value else U64_MAX, 8),
     LittleEndian(c.lastPpuAddr, 2),
     c.prgRam,
     c.chr]
  }

  function Snapshot(c: Chip): seq<Byte> {
    Concat(SnapshotFields(c))
  }

  /** A maximal cycle number stands for no write at all. */
  function LastFrom(cycle: Cycle): Option<Cycle> {
    if cycle == U64_MAX then None else Some(cycle)
  }

  function Restore(target: Chip, b: seq<Byte>): Option<Chip> {
    var ramEnd := HEADER + |target.prgRam|;
    if |b| != ramEnd + |target.chr| then None
    else if b[5] != target.config.mirroring || b[6] != Bit(target.config.battery) ||
            b[7] != Bit(target.config.surom) || b[8] != target.config.submapper then None
    else
      Ranges();
      LittleEndianRange(b[11..19]);
      LittleEndianRange(b[19..21]);
      Some(target.(
        port := Port(b[0], LastFrom(FromLittleEndian(b[11..19])),
                     Registers(b[1], b[2], b[3], b[4], b[9] != 0, b[10] != 0)),
        lastPpuAddr := FromLittleEndian(b[19..21]),
        prgRam := b[HEADER..ramEnd],
        chr := b[ramEnd..]))
  }

  predicate SameCartridge(a: Chip, b: Chip) {
    a.config == b.config && |a.prgRam| == |b.prgRam| && |a.chr| == |b.chr|
  }

  lemma SnapshotOffsets(c: Chip)
    ensures var f := SnapshotFields(c);
      Offset(f, 0) == 0 && Offset(f, 1) == 11 && Offset(f, 2) == 19 && Offset(f, 3) == 21 &&
      Offset(f, 4) == 21 + |c.prgRam| && |Snapshot(c)| == 21 + |c.prgRam| + |c.chr|
  {
    var f := SnapshotFields(c);
    OffsetNext(f, 0);
    OffsetNext(f, 1);
    OffsetNext(f, 2);
    OffsetNext(f, 3);
    OffsetNext(f, 4);
    ConcatLength(f, 5);
  }

  lemma SnapshotParts(c: Chip)
    ensures var b, f, ramEnd := Snapshot(c), SnapshotFields(c), 21 + |c.prgRam|;
      |b| == ramEnd + |c.chr| && b[..11] == f[0] && b[11..19] == f[1] && b[19..21] == f[2] &&
      b[21..ramEnd] == c.prgRam && b[ramEnd..] == c.chr
  {
    var f := SnapshotFields(c);
    SnapshotOffsets(c);
    FieldAt(f, 0);
    FieldAt(f, 1);
    FieldAt(f, 2);
    FieldAt(f, 3);
    FieldAt(f, 4);
  }

  /** The chip `c` with its last write forgotten if that was in the very last cycle. */
  function Forgetful(c: Chip): Chip {
    c.(port := c.port.(last := if c.port.last.Some? then LastFrom(c.port.last.value) else None))
  }

  /** Any mapper of the same cartridge restores a snapshot to the saved state. */
  lemma RestoredChip(c: Chip, target: Chip)
    requires SameCartridge(c, target)
    ensures Restore(target, Snapshot(c)) == Some(Forgetful(c))
  {
    var b := Snapshot(c);
    SnapshotParts(c);
    Ranges();
    LittleEndianRoundTrip(if c.port.last.Some? then c.port.last.value else U64_MAX, 8);
    LittleEndianRoundTrip(c.lastPpuAddr, 2);
    var head := b[..11];
    assert b[0] == head[0] && b[1] == head[1] && b[2] == head[2] && b[3] == head[3] && b[4] == head[4];
    assert b[5] == head[5] && b[6] == head[6] && b[7] == head[7] && b[8] == head[8];
    assert b[9] == head[9] && b[10] == head[10];
  }

  // ----- after a restore

  /** Equal chips, up to a last write after which no cycle can follow. */
  predicate Alike(a: Chip, b: Chip) {
    a == b || (b == a.(port := a.port.(last := None)) && a.port.last == Some(U64_MAX))
  }

  lemma StepAlike(a: Chip, b: Chip, op: Op)
    requires Alike(a, b)
    ensures Alike(Step(a, op), Step(b, op)) && Seen(a, op) == Seen(b, op)
  {
  }

  /** Saving and restoring is behaviourally the identity, from every state. */
  lemma RestoreIsBisimilar(c: Chip, target: Chip, after: seq<Op>)
    requires SameCartridge(c, target)
    ensures var restored := Restore(target, Snapshot(c));
      restored.Some? && Observe(restored.value, after) == Observe(c, after)
  {
    RestoredChip(c, target);
    forall x, y, op | Alike(x, y)
      ensures Alike(Step(x, op), Step(y, op)) && Seen(x, op) == Seen(y, op)
    {
      StepAlike(x, y, op);
    }
    Iteration.ObservedRelated(Step, Seen, Alike, c, Forgetful(c), after);
  }

  /** It is the identity on the state itself exactly when the last write was not in the last cycle. */
  lemma RestoreIsIdentityIff(c: Chip, target: Chip)
    requires SameCartridge(c, target)
    ensures Restore(target, Snapshot(c)) == Some(c) <==> c.port.last != Some(U64_MAX)
  {
    RestoredChip(c, target);
  }
}
