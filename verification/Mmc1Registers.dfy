/**
What the serial port loads, register by register, and what each register controls, seen from the CPU
and the PPU; and where each register lies in a snapshot.
*/
module Mmc1Registers {
  import Arithmetic
  import opened Banks
  import opened Codec
  import opened Iteration
  import opened MachineWords
  import opened Mmc1Serial
  import opened Mmc1Snapshot
  import opened Options
  import PrgBanks
  import PrgWindows

  // ----- loading a register

  /** The value of five serial bits, the first one lowest. */
  function Sent(w: seq<Access>): (v: Byte)
    requires |w| == 5
    ensures v < 32
  {
    w[0].value % 2 + 2 * (w[1].value % 2) + 4 * (w[2].value % 2) + 8 * (w[3].value % 2)
    + 16 * (w[4].value % 2)
  }

  lemma CommitSpelled(r: Registers, addr: RomAddr, data: Byte)
    requires data < 32
    ensures var t := Commit(r, addr, data);
      t.control == (if addr < 0xA000 then data else r.control) &&
      t.chrBank0 == (if 0xA000 <= addr < 0xC000 then data else r.chrBank0) &&
      t.chrBank1 == (if 0xC000 <= addr < 0xE000 then data else r.chrBank1) &&
      t.prgBank == (if addr >= 0xE000 then data else r.prgBank) &&
      t.ramEnabled == (if addr >= 0xE000 then data < 16 else r.ramEnabled) &&
      t.mismatchReported == (r.mismatchReported && addr >= 0xE000)
  {
  }

  /**
  Five accepted bits load one register, chosen by the 8 KiB range of the fifth address, and leave the
  others: control, CHR 0, CHR 1, or PRG with the work RAM gate; all but the last re-arm the report of
  conflicting outer banks.
  */
  lemma FiveBitsLoad(p: Port, w: seq<Access>)
    requires p.shift == 0x10 && FiveAccepted(p.last, w)
    ensures var t, addr := FoldLeft(Write, p, w), w[4].addr;
      t.shift == 0x10 && t.last == Some(w[4].cycle) &&
      t.regs.control == (if addr < 0xA000 then Sent(w) else p.regs.control) &&
      t.regs.chrBank0 == (if 0xA000 <= addr < 0xC000 then Sent(w) else p.regs.chrBank0) &&
      t.regs.chrBank1 == (if 0xC000 <= addr < 0xE000 then Sent(w) else p.regs.chrBank1) &&
      t.regs.prgBank == (if addr >= 0xE000 then Sent(w) else p.regs.prgBank) &&
      t.regs.ramEnabled == (if addr >= 0xE000 then Sent(w) < 16 else p.regs.ramEnabled) &&
      t.regs.mismatchReported == (p.regs.mismatchReported && addr >= 0xE000)
  {
    FiveBitsCommit(p, w);
    CommitSpelled(p.regs, w[4].addr, Sent(w));
  }

  /** A write with bit 7 starts over: no bits, and the last bank fixed, every other register as it was. */
  lemma ResetSpelled(p: Port, w: Access)
    requires w.value >= 0x80 && p.regs.control < 32
    ensures var t := Write(p, w);
      t.shift == 0x10 && t.last == Some(w.cycle) &&
      t.regs == p.regs.(control := t.regs.control) &&
      t.regs.control == (if p.regs.control >= 16 then 16 else 0) + 12 + p.regs.control % 4
  {
  }

  // ----- the same through the bus

  function Writes(w: seq<Access>): seq<Op> {
    seq(|w|, i requires 0 <= i < |w| => WritePrg(w[i].addr, w[i].value, w[i].cycle))
  }

  lemma {:induction false} WritesReachPort(c: Chip, w: seq<Access>)
    ensures FoldLeft(Step, c, Writes(w)) == c.(port := FoldLeft(Write, c.port, w))
    decreases |w|
  {
    if w == [] {
    } else {
      var next := c.(port := Write(c.port, w[0]));
      assert Writes(w)[0] == WritePrg(w[0].addr, w[0].value, w[0].cycle);
      assert Step(c, Writes(w)[0]) == next;
      assert Writes(w)[1..] == Writes(w[1..]);
      WritesReachPort(next, w[1..]);
    }
  }

  /** The chip after five accepted bits. */
  function Loaded(c: Chip, w: seq<Access>): Chip {
    FoldLeft(Step, c, Writes(w))
  }

  /**
  A value sent to $E000-$FFFF selects the PRG bank by its low four bits, in each of the PRG modes that
  the control register holds, and opens work RAM exactly if it is below 16.
  */
  lemma PrgSelected(c: Chip, w: seq<Access>, count: nat, high: bool, offset: nat, addr: Word)
    requires c.port.shift == 0x10 && FiveAccepted(c.port.last, w) && w[4].addr >= 0xE000
    requires !c.config.surom && PrgBanks.IsWhole(c.config.rom, 0x4000, count) && offset < 0x4000
    requires 0x6000 <= addr < 0x8000
    ensures Seen(Loaded(c, w), ReadPrg((if high then 0xC000 else 0x8000) + offset))
         == PrgBanks.BankByte(c.config.rom, 0x4000, count,
              PrgBanks.Mmc1Inner(c.port.regs.control, Sent(w), high, count - 1), offset)
    ensures Seen(Loaded(c, w), ReadPrg(addr))
         == if Sent(w) < 16 then c.prgRam[(addr - 0x6000) % |c.prgRam|] else 0xFF
  {
    WritesReachPort(c, w);
    FiveBitsLoad(c.port, w);
    PrgBanks.Mmc1Mapped(Board(Loaded(c, w)), count, high, offset);
  }

  /** Bits 0 and 1 of a value sent to $8000-$9FFF select the mirroring, bits 2 and 3 the PRG mode. */
  lemma ControlSelected(c: Chip, w: seq<Access>, count: nat, high: bool, offset: nat)
    requires c.port.shift == 0x10 && FiveAccepted(c.port.last, w) && w[4].addr < 0xA000
    requires !c.config.surom && PrgBanks.IsWhole(c.config.rom, 0x4000, count) && offset < 0x4000
    ensures Seen(Loaded(c, w), ReadMirroring) == Sent(w) % 4
    ensures Seen(Loaded(c, w), ReadPrg((if high then 0xC000 else 0x8000) + offset))
         == PrgBanks.BankByte(c.config.rom, 0x4000, count,
              PrgBanks.Mmc1Inner(Sent(w), c.port.regs.prgBank, high, count - 1), offset)
  {
    WritesReachPort(c, w);
    FiveBitsLoad(c.port, w);
    PrgBanks.Mmc1Mapped(Board(Loaded(c, w)), count, high, offset);
  }

  /** At power-on the first bank is below the last one, and work RAM is open. */
  lemma PowerOnShown(c: Chip, count: nat, high: bool, offset: nat, addr: Word)
    requires c.port == PowerOn() && !c.config.surom && PrgBanks.IsWhole(c.config.rom, 0x4000, count)
    requires offset < 0x4000 && 0x6000 <= addr < 0x8000
    ensures Seen(c, ReadPrg((if high then 0xC000 else 0x8000) + offset))
         == PrgBanks.BankByte(c.config.rom, 0x4000, count, if high then count - 1 else 0, offset)
    ensures Seen(c, ReadPrg(addr)) == c.prgRam[(addr - 0x6000) % |c.prgRam|]
    ensures Seen(c, ReadMirroring) == 0
  {
    PrgBanks.Mmc1Mapped(Board(c), count, high, offset);
  }

  lemma SeenWhole(c: Chip, addr: Word, pair: nat)
    requires c.port.regs.control < 16 && pair == c.port.regs.chrBank0 / 2
    ensures Seen(c, ReadChr(addr)) == ReadBank(c.chr, 0x2000, pair, addr)
  {
  }

  lemma SeenHalf(c: Chip, half: nat, offset: nat, addr: Word)
    requires 16 <= c.port.regs.control < 32 && half < 2 && offset < 0x1000 && addr == half * 0x1000 + offset
    ensures Seen(c, ReadChr(addr))
         == ReadBank(c.chr, 0x1000, if half == 0 then c.port.regs.chrBank0 else c.port.regs.chrBank1, offset)
  {
    assert (c.port.regs.control / 16) % 2 == 1;
  }

  lemma HalfOfBank(data: seq<Byte>, count: nat, total: nat, pair: nat, half: nat, offset: nat, addr: nat)
    requires |data| == count * 0x2000 && count > 0 && total == 2 * count
    requires half < 2 && offset < 0x1000 && addr == half * 0x1000 + offset
    ensures PrgBanks.IsWhole(data, 0x1000, total)
    ensures ReadBank(data, 0x2000, pair, addr)
         == PrgBanks.BankByte(data, 0x1000, total, pair * 2 + half, offset)
  {
    WholeBankRead(data, 0x2000, count, pair, addr);
    HalfBank(pair, count, half, offset);
  }

  /** In 8 KiB mode a half shows half of the bank that CHR 0 selects. */
  lemma ChrShownWhole(c: Chip, count: nat, half: nat, offset: nat, addr: Word)
    requires |c.chr| == count * 0x2000 && count > 0 && offset < 0x1000 && half < 2
    requires c.port.regs.control < 16 && addr == half * 0x1000 + offset
    ensures PrgBanks.IsWhole(c.chr, 0x1000, 2 * count)
    ensures Seen(c, ReadChr(addr))
         == PrgBanks.BankByte(c.chr, 0x1000, 2 * count, c.port.regs.chrBank0 / 2 * 2 + half, offset)
  {
    SeenWhole(c, addr, c.port.regs.chrBank0 / 2);
    HalfOfBank(c.chr, count, 2 * count, c.port.regs.chrBank0 / 2, half, offset, addr);
  }

  /** In 4 KiB mode each half shows its own bank. */
  lemma ChrShownHalf(c: Chip, count: nat, half: nat, offset: nat, addr: Word)
    requires PrgBanks.IsWhole(c.chr, 0x1000, count) && offset < 0x1000 && half < 2
    requires 16 <= c.port.regs.control < 32 && addr == half * 0x1000 + offset
    ensures Seen(c, ReadChr(addr))
         == PrgBanks.BankByte(c.chr, 0x1000, count,
              if half == 0 then c.port.regs.chrBank0 else c.port.regs.chrBank1, offset)
  {
    SeenHalf(c, half, offset, addr);
    WholeBankRead(c.chr, 0x1000, count, if half == 0 then c.port.regs.chrBank0 else c.port.regs.chrBank1,
                  offset);
  }

  /** An 8 KiB bank is two 4 KiB banks. */
  lemma HalfBank(pair: nat, count: nat, half: nat, offset: nat)
    requires count > 0 && half < 2
    ensures (pair * 2 + half) % (2 * count) * 0x1000 + offset
         == pair % count * 0x2000 + (half * 0x1000 + offset)
  {
    var q, r := pair / count, pair % count;
    assert pair == q * count + r;
    assert pair * 2 + half == q * (2 * count) + (2 * r + half) by {
      assert q * (2 * count) == 2 * (q * count);
    }
    Arithmetic.DivModUnique(pair * 2 + half, q, 2 * r + half, 2 * count);
  }

  /**
  A value sent to $A000-$BFFF selects the lower half's CHR bank, and one sent to $C000-$DFFF the upper
  half's; in 8 KiB mode the former selects both, without its lowest bit.
  */
  lemma ChrSelected(c: Chip, w: seq<Access>, count: nat, half: nat, offset: nat, addr: Word)
    requires c.port.shift == 0x10 && FiveAccepted(c.port.last, w) && half < 2
    requires |c.chr| == count * 0x2000 && count > 0 && offset < 0x1000 && addr == half * 0x1000 + offset
    requires PrgBanks.IsWhole(c.chr, 0x1000, 2 * count)
    ensures c.port.regs.control < 16 && 0xA000 <= w[4].addr < 0xC000 ==>
      Seen(Loaded(c, w), ReadChr(addr))
        == PrgBanks.BankByte(c.chr, 0x1000, 2 * count, Sent(w) / 2 * 2 + half, offset)
    ensures 16 <= c.port.regs.control < 32 && 0xA000 + 0x2000 * half <= w[4].addr < 0xC000 + 0x2000 * half ==>
      Seen(Loaded(c, w), ReadChr(addr)) == PrgBanks.BankByte(c.chr, 0x1000, 2 * count, Sent(w), offset)
  {
    WritesReachPort(c, w);
    FiveBitsLoad(c.port, w);
    var t := Loaded(c, w);
    if c.port.regs.control < 16 && 0xA000 <= w[4].addr < 0xC000 {
      ChrShownWhole(t, count, half, offset, addr);
    } else if 16 <= c.port.regs.control < 32 && 0xA000 + 0x2000 * half <= w[4].addr < 0xC000 + 0x2000 * half {
      ChrShownHalf(t, 2 * count, half, offset, addr);
    }
  }

  /**
  On SUROM in 4 KiB CHR mode, registers with different bits 4 are reported at the first PPU address after
  the registers were written, and not again.
  */
  lemma MismatchReportedOnce(c: Chip, first: Word, second: Word)
    requires c.port.regs.control < 32 && c.port.regs.chrBank0 < 32 && c.port.regs.chrBank1 < 32
    ensures var r, t := c.port.regs, Step(c, NotifyPpu(first));
      (Seen(c, NotifyPpu(first)) == 1 <==>
        c.config.surom && r.control >= 16 && (r.chrBank0 >= 16) != (r.chrBank1 >= 16) &&
        !r.mismatchReported) &&
      Seen(t, NotifyPpu(second)) == 0 && t.lastPpuAddr == first
  {
  }

  /** A byte written to work RAM is read back while it is open; closed, it is neither written nor shown. */
  lemma RamRoundTrip(c: Chip, addr: Word, value: Byte, cycle: Cycle)
    requires 0x6000 <= addr < 0x8000
    ensures var t := Step(c, WritePrg(addr, value, cycle));
      Seen(t, ReadPrg(addr)) == (if c.port.regs.ramEnabled then value else 0xFF) &&
      t.port == c.port && t.chr == c.chr && (!c.port.regs.ramEnabled ==> t == c) &&
      forall i :: 0 <= i < |c.prgRam| && i != (addr - 0x6000) % |c.prgRam| ==> t.prgRam[i] == c.prgRam[i]
  {
  }

  // ----- the snapshot

  /** Where every register and memory lies in a snapshot. */
  lemma SnapshotSpelled(c: Chip)
    ensures var b, r, end := Snapshot(c), c.port.regs, 21 + |c.prgRam|;
      |b| == end + |c.chr| &&
      b[0] == c.port.shift && b[1] == r.control && b[2] == r.chrBank0 && b[3] == r.chrBank1 &&
      b[4] == r.prgBank && b[5] == c.config.mirroring && b[6] == Bit(c.config.battery) &&
      b[7] == Bit(c.config.surom) && b[8] == c.config.submapper && b[9] == Bit(r.ramEnabled) &&
      b[10] == Bit(r.mismatchReported) &&
      b[11..19] == LittleEndian(if c.port.last.Some? then c.port.last.value else U64_MAX, 8) &&
      b[19..21] == LittleEndian(c.lastPpuAddr, 2) && b[21..end] == c.prgRam && b[end..] == c.chr
  {
    SnapshotParts(c);
    var b, head := Snapshot(c), Snapshot(c)[..11];
    assert b[0] == head[0] && b[1] == head[1] && b[2] == head[2] && b[3] == head[3] && b[4] == head[4];
    assert b[5] == head[5] && b[6] == head[6] && b[7] == head[7] && b[8] == head[8];
    assert b[9] == head[9] && b[10] == head[10];
  }
}
