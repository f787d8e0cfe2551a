/**
What the registers of the board do, seen from outside: when the interrupt comes, what the data port
stores and returns, and which bank, window, nametable or switch each address range controls.
*/
module Namco163Registers {
  import Arithmetic
  import opened Banks
  import opened Codec
  import Iteration
  import opened MachineWords
  import opened Namco163
  import opened Namco163Snapshot

  // ----- the interrupt

  /** An operation that neither writes the counter nor acknowledges the interrupt. */
  predicate LeavesIrq(op: Op) {
    !op.ClearIrq? && (op.WritePrg? ==> !(0x5000 <= op.addr < 0x6000))
  }

  ghost predicate AllLeaveIrq(ops: seq<Op>) {
    forall i :: 0 <= i < |ops| ==> LeavesIrq(ops[i])
  }

  function Cycles(ops: seq<Op>): nat {
    if ops == [] then 0 else (if ops[0].ClockCpu? then ops[0].cycles else 0) + Cycles(ops[1..])
  }

  /** The counter stops at $7FFF. */
  function Stopped(n: nat): IrqCounter {
    if n < 0x7FFF then n else 0x7FFF
  }

  lemma StepLeavesIrq(c: Chip, op: Op)
    requires LeavesIrq(op) && !op.ClockCpu?
    ensures Step(c, op).regs.irqEnabled == c.regs.irqEnabled
    ensures Step(c, op).regs.irqCounter == c.regs.irqCounter
    ensures Step(c, op).regs.irqPending == c.regs.irqPending
  {
  }

  /**
  While enabled the counter advances by the cycles that pass, in chunks of any size and whatever else the
  program does, and the interrupt comes in exactly the chunk that brings it to $7FFF.
  */
  lemma {:induction false} IrqAfter(c: Chip, ops: seq<Op>)
    requires c.regs.irqEnabled && AllLeaveIrq(ops)
    requires c.regs.irqCounter < 0x7FFF || c.regs.irqPending
    ensures var r := Run(c, ops).regs;
      r.irqEnabled && r.irqCounter == Stopped(c.regs.irqCounter + Cycles(ops)) &&
      (r.irqPending <==> c.regs.irqPending || c.regs.irqCounter + Cycles(ops) >= 0x7FFF)
    decreases |ops|
  {
    if ops == [] {
    } else {
      if !ops[0].ClockCpu? {
        StepLeavesIrq(c, ops[0]);
      }
      IrqAfter(Step(c, ops[0]), ops[1..]);
    }
  }

  predicate SomeClock(ops: seq<Op>) {
    exists i :: 0 <= i < |ops| && ops[i].ClockCpu?
  }

  /** Acknowledged at $7FFF, an enabled counter interrupts again with the next chunk, even an empty one. */
  lemma {:induction false} IrqAtStop(c: Chip, ops: seq<Op>)
    requires c.regs.irqEnabled && AllLeaveIrq(ops) && c.regs.irqCounter == 0x7FFF
    ensures var r := Run(c, ops).regs;
      r.irqEnabled && r.irqCounter == 0x7FFF && (r.irqPending <==> c.regs.irqPending || SomeClock(ops))
    decreases |ops|
  {
    if ops == [] {
    } else {
      var first, rest := ops[0], ops[1..];
      if !first.ClockCpu? {
        StepLeavesIrq(c, first);
      }
      assert ops == [first] + rest;
      assert SomeClock(ops) <==> first.ClockCpu? || SomeClock(rest) by {
        if SomeClock(rest) {
          var i :| 0 <= i < |rest| && rest[i].ClockCpu?;
          assert ops[i + 1].ClockCpu?;
        }
        if SomeClock(ops) && !first.ClockCpu? {
          var i :| 0 <= i < |ops| && ops[i].ClockCpu?;
          assert rest[i - 1].ClockCpu?;
        }
      }
      IrqAtStop(Step(c, first), rest);
    }
  }

  /** A disabled counter stands still and never interrupts. */
  lemma {:induction false} IrqDisabled(c: Chip, ops: seq<Op>)
    requires !c.regs.irqEnabled && AllLeaveIrq(ops)
    ensures var r := Run(c, ops).regs;
      !r.irqEnabled && r.irqCounter == c.regs.irqCounter && r.irqPending == c.regs.irqPending
    decreases |ops|
  {
    if ops == [] {
    } else {
      if !ops[0].ClockCpu? {
        StepLeavesIrq(c, ops[0]);
      }
      IrqDisabled(Step(c, ops[0]), ops[1..]);
    }
  }

  /** Both counter registers written, in either mirror, low byte first. */
  function Programmed(c: Chip, lowAddr: Word, low: Byte, highAddr: Word, high: Byte): Chip {
    Step(Step(c, WritePrg(lowAddr, low)), WritePrg(highAddr, high))
  }

  lemma ProgrammedCounter(c: Chip, lowAddr: Word, low: Byte, highAddr: Word, high: Byte)
    requires 0x5000 <= lowAddr < 0x5800 <= highAddr < 0x6000
    ensures var r := Programmed(c, lowAddr, low, highAddr, high).regs;
      r.irqCounter == low + 0x100 * (if high < 0x80 then high else high - 0x80) &&
      r.irqEnabled == (high >= 0x80) && !r.irqPending
  {
    var first := Step(c, WritePrg(lowAddr, low));
    assert first.regs.irqCounter % 0x100 == low;
    assert high % 0x80 == if high < 0x80 then high else high - 0x80;
  }

  /**
  A counter programmed through its two registers: with bit 7 of the second, the interrupt is pending
  exactly once $7FFF less the 15-bit value cycles have passed, and reading the registers gives the counter
  and the enable bit back; without it nothing ever happens.
  */
  lemma IrqProgrammed(
    c: Chip, lowAddr: Word, low: Byte, highAddr: Word, high: Byte, ops: seq<Op>, start: nat)
    requires 0x5000 <= lowAddr < 0x5800 <= highAddr < 0x6000 && AllLeaveIrq(ops)
    requires start == low + 0x100 * (if high < 0x80 then high else high - 0x80) && start < 0x7FFF
    ensures var t := Run(Programmed(c, lowAddr, low, highAddr, high), ops);
      (t.regs.irqPending <==> high >= 0x80 && start + Cycles(ops) >= 0x7FFF) &&
      ReadPrgValue(t, lowAddr) as int + 0x100 * ReadPrgValue(t, highAddr) as int ==
        if high < 0x80 then start else 0x8000 + Stopped(start + Cycles(ops))
  {
    var p := Programmed(c, lowAddr, low, highAddr, high);
    ProgrammedCounter(c, lowAddr, low, highAddr, high);
    if high >= 0x80 {
      IrqAfter(p, ops);
    } else {
      IrqDisabled(p, ops);
    }
    CounterReads(Run(p, ops), lowAddr, highAddr);
  }

  lemma CounterReads(c: Chip, lowAddr: Word, highAddr: Word)
    requires 0x5000 <= lowAddr < 0x5800 <= highAddr < 0x6000
    ensures ReadPrgValue(c, lowAddr) as int + 0x100 * ReadPrgValue(c, highAddr) as int
         == c.regs.irqCounter + (if c.regs.irqEnabled then 0x8000 else 0)
  {
  }

  // ----- the data port

  function Stores(bytes: seq<Byte>): seq<Op> {
    seq(|bytes|, i requires 0 <= i < |bytes| => WritePrg(0x4800, bytes[i]))
  }

  lemma RunLast(c: Chip, ops: seq<Op>, op: Op)
    ensures Run(c, ops + [op]) == Step(Run(c, ops), op)
  {
    Iteration.FoldLeftAppend(Step, c, ops, [op]);
    assert [op][1..] == [];
  }

  lemma StoresLast(bytes: seq<Byte>, n: nat)
    requires n < |bytes|
    ensures Stores(bytes[..n + 1]) == Stores(bytes[..n]) + [WritePrg(0x4800, bytes[n])]
  {
  }

  lemma PortStep(c: Chip, value: Byte, a: RamAddr)
    requires c.regs.ramPort >= 0x80 && c.regs.ramAddr == a
    ensures var t := Step(c, WritePrg(0x4800, value));
      t.regs.ramPort == c.regs.ramPort && t.regs.ramAddr == (a + 1) % 0x80 &&
      t.voices.ram == c.voices.ram[a := value]
  {
  }

  lemma NextCell(a: RamAddr, n: nat, more: nat, here: RamAddr)
    requires more == n + 1 && here == (a + n) % 0x80
    ensures (here + 1) % 0x80 == (a + more) % 0x80
  {
  }

  lemma OtherCell(a: RamAddr, i: nat, n: nat)
    requires i < n < 0x80
    ensures (a + i) % 0x80 != (a + n) % 0x80
  {
  }

  /** Byte i of a block written through the port goes to the i-th cell after the address. */
  lemma {:induction false} PortStores(c: Chip, bytes: seq<Byte>, n: nat, a: RamAddr)
    requires c.regs.ramPort >= 0x80 && c.regs.ramAddr == a && n <= |bytes| && n <= 0x80
    ensures var t := Run(c, Stores(bytes[..n]));
      t.regs.ramPort == c.regs.ramPort && t.regs.ramAddr == (a + n) % 0x80 &&
      forall i :: 0 <= i < n ==> t.voices.ram[(a + i) % 0x80] == bytes[i]
    decreases n
  {
    if n == 0 {
      assert Stores(bytes[..0]) == [];
    } else {
      var m := n - 1;
      PortStores(c, bytes, m, a);
      StoresLast(bytes, m);
      var before := Run(c, Stores(bytes[..m]));
      RunLast(c, Stores(bytes[..m]), WritePrg(0x4800, bytes[m]));
      PortStep(before, bytes[m], (a + m) % 0x80);
      NextCell(a, m, n, (a + m) % 0x80);
      forall i | 0 <= i < m
        ensures Run(c, Stores(bytes[..n])).voices.ram[(a + i) % 0x80] == bytes[i]
      {
        OtherCell(a, i, m);
      }
    }
  }

  /** Every byte written to the port is counted, up to the largest 64-bit number. */
  lemma {:induction false} StoresCounted(c: Chip, bytes: seq<Byte>, n: nat)
    requires n <= |bytes|
    ensures Run(c, Stores(bytes[..n])).regs.audioWrites
         == if c.regs.audioWrites + n < 0xFFFF_FFFF_FFFF_FFFF then c.regs.audioWrites + n
            else 0xFFFF_FFFF_FFFF_FFFF
    decreases n
  {
    if n == 0 {
      assert Stores(bytes[..0]) == [];
    } else {
      StoresCounted(c, bytes, n - 1);
      StoresLast(bytes, n - 1);
      RunLast(c, Stores(bytes[..n - 1]), WritePrg(0x4800, bytes[n - 1]));
    }
  }

  function Loads(n: nat): seq<Op> {
    seq(n, _ => ReadPrg(0x4800))
  }

  lemma {:induction false} PortLoads(c: Chip, n: nat, a: RamAddr)
    requires c.regs.ramPort >= 0x80 && c.regs.ramAddr == a
    ensures var t := Run(c, Loads(n));
      t.regs.ramPort == c.regs.ramPort && t.regs.ramAddr == (a + n) % 0x80 && t.voices.ram == c.voices.ram
    decreases n
  {
    if n == 0 {
      assert Loads(0) == [];
    } else {
      var m := n - 1;
      PortLoads(c, m, a);
      assert Loads(n) == Loads(m) + [ReadPrg(0x4800)];
      RunLast(c, Loads(m), ReadPrg(0x4800));
      NextCell(a, m, n, (a + m) % 0x80);
    }
  }

  /** An address with bit 7 set, for the next accesses to the data port. */
  function Addressed(c: Chip, addr: Word, a: RamAddr): Chip {
    Step(c, WritePrg(addr, 0x80 + a))
  }

  /** A block of up to 128 bytes written through the port is read back through it. */
  lemma PortRoundTrip(c: Chip, addr: Word, a: RamAddr, bytes: seq<Byte>, i: nat)
    requires addr >= 0xF800 && |bytes| <= 0x80 && i < |bytes|
    ensures var stored := Run(Addressed(c, addr, a), Stores(bytes));
      Seen(Run(Addressed(stored, addr, a), Loads(i)), ReadPrg(0x4800)) == bytes[i]
  {
    assert bytes[..|bytes|] == bytes;
    PortStores(Addressed(c, addr, a), bytes, |bytes|, a);
    var stored := Run(Addressed(c, addr, a), Stores(bytes));
    PortLoads(Addressed(stored, addr, a), i, a);
  }

  // ----- what each address range controls

  /** At power-on the slots show banks 0, 1, 2 and the last one, the CHR windows bank 0, and nothing sounds. */
  lemma PowerOnShown(
    config: Config, nametables: NtRegs, chr: seq<Byte>, averaged: bool, count: nat, slot: nat, offset: nat)
    requires slot < 4 && offset < 0x2000 && count > 0 && |config.rom| == count * 0x2000
    ensures var c := PowerOn(config, nametables, chr, averaged);
      var bank := if slot == 3 then count - 1 else slot;
      (bank % count) * 0x2000 + offset < |config.rom| &&
      Seen(c, ReadPrg(0x8000 + slot * 0x2000 + offset)) == config.rom[(bank % count) * 0x2000 + offset] &&
      (forall window: nat :: window < 8 ==> c.regs.chrRegs[window] == 0) &&
      !c.regs.irqEnabled && !c.regs.irqPending && c.regs.irqCounter == 0 && Seen(c, TakeSample) == 0 &&
      AudioEnabled(c) == (config.submapper != 1 && config.submapper != 2)
  {
    var c := PowerOn(config, nametables, chr, averaged);
    var bank: nat := if slot == 3 then count - 1 else slot;
    var at := 0x8000 + slot * 0x2000 + offset;
    assert (at - 0x8000) / 0x2000 == slot && at % 0x2000 == offset;
    WindowIs(c, count, slot, bank, at);
    WholeBankRead(config.rom, K8, count, bank, offset);
  }

  lemma ChrSlot(window: nat, offset: nat, at: nat)
    requires window < 8 && offset < 0x400 && at == window * 0x400 + offset
    ensures (at / 0x400) % 8 == window && at % 0x400 == offset
  {
  }

  lemma ChrIs(t: Chip, window: nat, offset: nat, at: Word)
    requires window < 8 && offset < 0x400 && at == window * 0x400 + offset
    ensures Seen(t, ReadChr(at)) == ReadBank(t.chr, 0x400, t.regs.chrRegs[window], offset)
  {
    ChrSlot(window, offset, at);
  }

  /** The k-th of the CHR registers selects the k-th 1 KiB window, and no other. */
  lemma ChrSelected(c: Chip, k: nat, addr: Word, value: Byte, count: nat, window: nat, offset: nat)
    requires k < 8 && window < 8 && offset < 0x400 && count > 0 && |c.chr| == count * 0x400
    requires 0x8000 + 0x800 * k <= addr < 0x8000 + 0x800 * (k + 1)
    ensures var bank := if window == k then value else c.regs.chrRegs[window];
      (bank % count) * 0x400 + offset < |c.chr| &&
      Seen(Step(c, WritePrg(addr, value)), ReadChr(window * 0x400 + offset))
        == c.chr[(bank % count) * 0x400 + offset]
  {
    var t := Step(c, WritePrg(addr, value));
    assert (addr - 0x8000) / 0x800 == k;
    var bank: nat := if window == k then value else c.regs.chrRegs[window];
    ChrIs(t, window, offset, window * 0x400 + offset);
    WholeBankRead(c.chr, 0x400, count, bank, offset);
  }

  /** Three registers select the 8 KiB slots below the last one, by their low six bits. */
  lemma PrgSelected(c: Chip, k: nat, addr: Word, value: Byte, count: nat, slot: nat, offset: nat)
    requires k < 3 && slot < 4 && offset < 0x2000 && count > 0 && |c.config.rom| == count * 0x2000
    requires 0xE000 + 0x800 * k <= addr < 0xE000 + 0x800 * (k + 1)
    ensures var bank := if slot == 3 then count - 1 else if slot == k then value % 0x40
                        else c.regs.prgRegs[slot];
      (bank % count) * 0x2000 + offset < |c.config.rom| &&
      Seen(Step(c, WritePrg(addr, value)), ReadPrg(0x8000 + slot * 0x2000 + offset))
        == c.config.rom[(bank % count) * 0x2000 + offset]
  {
    var t := Step(c, WritePrg(addr, value));
    var bank: nat := if slot == 3 then count - 1 else if slot == k then value % 0x40
                     else c.regs.prgRegs[slot];
    var at := 0x8000 + slot * 0x2000 + offset;
    assert (at - 0x8000) / 0x2000 == slot && at % 0x2000 == offset;
    WindowIs(t, count, slot, bank, at);
    WholeBankRead(c.config.rom, K8, count, bank, offset);
  }

  lemma WindowIs(t: Chip, count: nat, slot: nat, bank: nat, at: Word)
    requires at >= 0x8000 && slot == (at - 0x8000) / 0x2000 < 4
    requires count > 0 && |t.config.rom| == count * 0x2000
    requires bank == if slot == 3 then count - 1 else t.regs.prgRegs[slot]
    ensures ReadPrgValue(t, at) == ReadBank(t.config.rom, K8, bank, at % K8)
  {
    Arithmetic.DivModUnique(|t.config.rom|, count, 0, K8);
    Arithmetic.DivModUnique(bank % count, 0, bank % count, count);
  }

  /** Bit 0 of the k-th of the nametable registers selects the k-th nametable's page. */
  lemma NametableSelected(c: Chip, k: nat, addr: Word, value: Byte)
    requires k < 4 && 0xC000 + 0x800 * k <= addr < 0xC000 + 0x800 * (k + 1)
    ensures var n := c.regs.ntRegs;
      Seen(Step(c, WritePrg(addr, value)), ReadNametables)
        == (if k == 0 then value else n[0]) % 2 + 2 * ((if k == 1 then value else n[1]) % 2)
           + 4 * ((if k == 2 then value else n[2]) % 2) + 8 * ((if k == 3 then value else n[3]) % 2)
  {
    assert (addr - 0xC000) / 0x800 == k;
  }

  /** The top two bits of the second PRG register are kept for the snapshot, byte 34. */
  lemma ChrModeKept(c: Chip, addr: Word, value: Byte)
    requires 0xE800 <= addr < 0xF000
    ensures var b := Snapshot(Step(c, WritePrg(addr, value)));
      |b| > 34 && b[34] as int == 0x40 * (value as int / 0x40)
  {
    var t := Step(c, WritePrg(addr, value));
    SnapshotRegisters(t);
    assert Snapshot(t)[34] == Snapshot(t)[34..38][0];
  }

  /** Bit 6 of the first PRG register switches the sound off. */
  lemma SoundSwitched(c: Chip, addr: Word, value: Byte)
    requires 0xE000 <= addr < 0xE800
    ensures AudioEnabled(Step(c, WritePrg(addr, value)))
       <==> value % 0x80 < 0x40 && c.config.submapper != 1 && c.config.submapper != 2
  {
  }

  /** Work RAM takes a byte exactly when the high nibble of the port is 4 and its window's bit is clear. */
  lemma WorkRamWritten(c: Chip, portAddr: Word, port: Byte, window: nat, addr: Word, value: Byte)
    requires portAddr >= 0xF800 && window < 4 && 0x6000 + 0x800 * window <= addr < 0x6000 + 0x800 * (window + 1)
    ensures var open := 0x40 <= port < 0x50 &&
        (port / (if window == 0 then 1 else if window == 1 then 2 else if window == 2 then 4 else 8)) % 2 == 0;
      Step(Step(c, WritePrg(portAddr, port)), WritePrg(addr, value)).prgRam
        == if open then c.prgRam[addr - 0x6000 := value] else c.prgRam
  {
    assert (addr - 0x6000) / 0x800 == window;
  }
}
