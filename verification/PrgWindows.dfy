/**
The boards' program-ROM windows.  Each board has a read and, written separately, a label that
names the physical 8 KiB bank behind an address; the two agree in every register state.
*/
module PrgWindows {
  import opened MachineWords
  import opened Options
  import opened Banks

  type WorkRam = r: seq<Byte> | |r| > 0 witness [0]

  function ReadRam(ram: WorkRam, addr: Word): Byte
    requires addr >= 0x6000
  {
    ram[(addr - 0x6000) % |ram|]
  }

  /** A program ROM whose length the labels can describe with windows of `size`. */
  predicate Labellable(rom: seq<Byte>, size: nat) {
    |rom| >= size || |rom| % K8 == 0
  }

  /** The n-th bank from the end, or bank zero if there are fewer. */
  function FromEnd(count: nat, n: nat): nat {
    if count >= n then count - n else 0
  }

  // ----- boards with two 16 KiB windows

  function PairLabel(len: nat, windows: (nat, nat), addr: Word): Option<nat> {
    if 0x8000 <= addr <= 0xBFFF then PhysicalBank8k(len, K16, windows.0, addr - 0x8000)
    else if 0xC000 <= addr then PhysicalBank8k(len, K16, windows.1, addr - 0xC000)
    else None
  }

  function PairRead(rom: seq<Byte>, windows: (nat, nat), addr: Word): Byte {
    if 0x8000 <= addr <= 0xBFFF then ReadBank(rom, K16, windows.0, addr - 0x8000)
    else if 0xC000 <= addr then ReadBank(rom, K16, windows.1, addr - 0xC000)
    else 0
  }

  lemma HalfLabelled(rom: seq<Byte>, bank: nat, addr: Word, base: nat, offset: nat)
    requires Labellable(rom, K16) && (base == 0x8000 || base == 0xC000) && addr == base + offset
    ensures Labelled(rom, addr, PhysicalBank8k(|rom|, K16, bank, offset), ReadBank(rom, K16, bank, offset))
  {
    assert offset % K8 == addr % K8;
    WindowLabelled(rom, K16, bank, offset, addr);
  }

  lemma PairLabelled(rom: seq<Byte>, windows: (nat, nat), addr: Word)
    requires Labellable(rom, K16)
    ensures Labelled(rom, addr, PairLabel(|rom|, windows, addr), PairRead(rom, windows, addr))
  {
    if 0x8000 <= addr <= 0xBFFF {
      HalfLabelled(rom, windows.0, addr, 0x8000, addr - 0x8000);
    } else if 0xC000 <= addr {
      HalfLabelled(rom, windows.1, addr, 0xC000, addr - 0xC000);
    }
  }

  datatype Uxrom = Uxrom(rom: seq<Byte>, fixedLower: bool, bankSelect: Byte)

  function UxromLabelWindows(b: Uxrom): (nat, nat) {
    (if b.fixedLower then 0 else b.bankSelect,
     if b.fixedLower then b.bankSelect else FromEnd(BankCount(|b.rom|, K16), 1))
  }

  function UxromReadWindows(b: Uxrom): (nat, nat) {
    (if b.fixedLower then 0 else b.bankSelect,
     if b.fixedLower then b.bankSelect else BankCount(|b.rom|, K16) - 1)
  }

  lemma UxromLabelled(b: Uxrom, addr: Word)
    requires Labellable(b.rom, K16)
    ensures Labelled(b.rom, addr, PairLabel(|b.rom|, UxromLabelWindows(b), addr),
                     PairRead(b.rom, UxromReadWindows(b), addr))
  {
    PairLabelled(b.rom, UxromReadWindows(b), addr);
  }

  datatype Vrc3 = Vrc3(rom: seq<Byte>, ram: WorkRam, prgBank: Byte)

  function Vrc3LabelWindows(b: Vrc3): (nat, nat) {
    (b.prgBank, FromEnd(BankCount(|b.rom|, K16), 1))
  }

  function Vrc3Read(b: Vrc3, addr: Word): Byte {
    if 0x6000 <= addr <= 0x7FFF then ReadRam(b.ram, addr)
    else PairRead(b.rom, (b.prgBank, BankCount(|b.rom|, K16) - 1), addr)
  }

  lemma Vrc3Labelled(b: Vrc3, addr: Word)
    requires Labellable(b.rom, K16)
    ensures Labelled(b.rom, addr, PairLabel(|b.rom|, Vrc3LabelWindows(b), addr), Vrc3Read(b, addr))
  {
    PairLabelled(b.rom, Vrc3LabelWindows(b), addr);
  }

  // ----- MMC1

  datatype Mmc1 = Mmc1(
    rom: seq<Byte>, ram: WorkRam, surom: bool, control: Byte, chrBank0: Byte, prgBank: Byte,
    ramEnabled: bool)

  /** SUROM's 256 KiB half; other boards have only half zero. */
  function OuterBank(b: Mmc1): nat {
    if b.surom then (b.chrBank0 / 16) % 2 else 0
  }

  function Mmc1Window(b: Mmc1): (nat, nat) {
    var mode := (b.control / 4) % 4;
    var inner := b.prgBank % 16;
    var pair := inner - inner % 2;
    if b.surom then
      var base := OuterBank(b) * 16;
      if mode <= 1 then (base + pair, base + pair + 1)
      else if mode == 2 then (base, base + inner)
      else (base + inner, base + 15)
    else
      var count := BankCount(|b.rom|, K16);
      if mode <= 1 then (pair % count, (pair % count + 1) % count)
      else if mode == 2 then (0, inner % count)
      else (inner % count, count - 1)
  }

  function Mmc1Label(b: Mmc1, addr: Word): Option<nat> {
    PairLabel(|b.rom|, Mmc1Window(b), addr)
  }

  function Mmc1Read(b: Mmc1, addr: Word): Byte {
    if 0x6000 <= addr <= 0x7FFF then (if b.ramEnabled then ReadRam(b.ram, addr) else 0xFF)
    else PairRead(b.rom, Mmc1Window(b), addr)
  }

  lemma Mmc1Labelled(b: Mmc1, addr: Word)
    requires Labellable(b.rom, K16)
    ensures Labelled(b.rom, addr, Mmc1Label(b, addr), Mmc1Read(b, addr))
  {
    PairLabelled(b.rom, Mmc1Window(b), addr);
  }

  /** A 512 KiB SUROM never leaves the half its outer bit selects, whatever its other registers. */
  lemma SuromStaysInHalf(b: Mmc1, addr: Word)
    requires b.surom && |b.rom| == 0x8_0000 && addr >= 0x8000
    ensures var bank := Mmc1Label(b, addr);
      bank.Some? && bank.value / 32 == OuterBank(b)
  {
    var window := Mmc1Window(b);
    WholeWindowLabel(if addr <= 0xBFFF then window.0 else window.1,
                     if addr <= 0xBFFF then addr - 0x8000 else addr - 0xC000);
  }

  /** In 512 KiB every 16 KiB window number below 32 is itself. */
  lemma WholeWindowLabel(bank: nat, offset: nat)
    requires bank < 32 && offset < K16
    ensures var physical := PhysicalBank8k(0x8_0000, K16, bank, offset);
      physical.Some? && physical.value / 2 == bank
  {
    assert BankIndex(0x8_0000, K16, bank, offset) == bank * K16 + offset;
  }

  // ----- MMC2 and MMC4

  datatype Mmc2Mmc4 = Mmc2Mmc4(rom: seq<Byte>, isMmc2: bool, prgBank: Byte)

  function Mmc2Mmc4Label(b: Mmc2Mmc4, addr: Word): Option<nat> {
    var count := BankCount(|b.rom|, K8);
    if b.isMmc2 then
      if addr < 0x8000 then None
      else if addr <= 0x9FFF then PhysicalBank8k(|b.rom|, K8, b.prgBank, addr % K8)
      else if addr <= 0xBFFF then PhysicalBank8k(|b.rom|, K8, FromEnd(count, 3), addr % K8)
      else if addr <= 0xDFFF then PhysicalBank8k(|b.rom|, K8, FromEnd(count, 2), addr % K8)
      else PhysicalBank8k(|b.rom|, K8, FromEnd(count, 1), addr % K8)
    else PairLabel(|b.rom|, (b.prgBank, FromEnd(BankCount(|b.rom|, K16), 1)), addr)
  }

  function Mmc2Bank(b: Mmc2Mmc4, addr: Word): nat {
    var count := BankCount(|b.rom|, K8);
    if addr <= 0x9FFF then b.prgBank
    else if addr <= 0xBFFF then FromEnd(count, 3)
    else if addr <= 0xDFFF then FromEnd(count, 2)
    else FromEnd(count, 1)
  }

  function Mmc2Mmc4Read(b: Mmc2Mmc4, addr: Word): Byte {
    if addr < 0x8000 then 0
    else if b.isMmc2 then ReadBank(b.rom, K8, Mmc2Bank(b, addr), addr % K8)
    else
      var bank := if addr < 0xC000 then b.prgBank else FromEnd(BankCount(|b.rom|, K16), 1);
      ReadBank(b.rom, K16, bank, addr % K16)
  }

  lemma Mmc2Labelled(b: Mmc2Mmc4, addr: Word)
    requires b.isMmc2 && Labellable(b.rom, K8) && addr >= 0x8000
    ensures Labelled(b.rom, addr, Mmc2Mmc4Label(b, addr), Mmc2Mmc4Read(b, addr))
  {
    WindowLabelled(b.rom, K8, Mmc2Bank(b, addr), addr % K8, addr);
  }

  /** The offset in a 16 KiB window is the address modulo its size. */
  lemma PairOffset(addr: Word)
    requires addr >= 0x8000
    ensures addr % K16 == if addr < 0xC000 then addr - 0x8000 else addr - 0xC000
  {
  }

  lemma Mmc2Mmc4Labelled(b: Mmc2Mmc4, addr: Word)
    requires Labellable(b.rom, if b.isMmc2 then K8 else K16)
    ensures Labelled(b.rom, addr, Mmc2Mmc4Label(b, addr), Mmc2Mmc4Read(b, addr))
  {
    if addr >= 0x8000 {
      if b.isMmc2 {
        Mmc2Labelled(b, addr);
      } else {
        PairOffset(addr);
        PairLabelled(b.rom, (b.prgBank, FromEnd(BankCount(|b.rom|, K16), 1)), addr);
      }
    }
  }

  // ----- boards with four 8 KiB windows

  type Slots = w: seq<nat> | |w| == 4 witness [0, 0, 0, 0]

  function Slot(addr: Word): (n: nat)
    requires addr >= 0x8000
    ensures n < 4
  {
    (addr - 0x8000) / K8
  }

  function SlotLabel(len: nat, windows: Slots, addr: Word): Option<nat> {
    if addr < 0x8000 then None else PhysicalBank8k(len, K8, windows[Slot(addr)], addr % K8)
  }

  /** Reads written window by window, as MMC3 and the VRC family do. */
  function SlotRead(rom: seq<Byte>, windows: Slots, addr: Word): Byte {
    if 0x8000 <= addr <= 0x9FFF then ReadBank(rom, K8, windows[0], addr - 0x8000)
    else if 0xA000 <= addr <= 0xBFFF then ReadBank(rom, K8, windows[1], addr - 0xA000)
    else if 0xC000 <= addr <= 0xDFFF then ReadBank(rom, K8, windows[2], addr - 0xC000)
    else if 0xE000 <= addr then ReadBank(rom, K8, windows[3], addr - 0xE000)
    else 0
  }

  lemma SlotLabelled(rom: seq<Byte>, windows: Slots, addr: Word)
    requires Labellable(rom, K8)
    ensures Labelled(rom, addr, SlotLabel(|rom|, windows, addr), SlotRead(rom, windows, addr))
  {
    if addr >= 0x8000 {
      WindowLabelled(rom, K8, windows[Slot(addr)], addr % K8, addr);
    }
  }

  datatype Mmc3 = Mmc3(rom: seq<Byte>, ram: WorkRam, bankSelect: Byte, r6: Byte, r7: Byte)

  function Mmc3Windows(b: Mmc3): Slots {
    var count := BankCount(|b.rom|, K8);
    var last, secondLast := count - 1, FromEnd(count, 2);
    var r6, r7 := b.r6 % count, b.r7 % count;
    if (b.bankSelect / 0x40) % 2 == 0 then [r6, r7, secondLast, last] else [secondLast, r7, r6, last]
  }

  function Mmc3Read(b: Mmc3, addr: Word): Byte {
    if 0x6000 <= addr <= 0x7FFF then ReadRam(b.ram, addr) else SlotRead(b.rom, Mmc3Windows(b), addr)
  }

  lemma Mmc3Labelled(b: Mmc3, addr: Word)
    requires Labellable(b.rom, K8)
    ensures Labelled(b.rom, addr, SlotLabel(|b.rom|, Mmc3Windows(b), addr), Mmc3Read(b, addr))
  {
    SlotLabelled(b.rom, Mmc3Windows(b), addr);
  }

  datatype VrcFamily = VrcFamily(
    rom: seq<Byte>, ram: WorkRam, mapper: nat, prgMode: bool, r0: Byte, r1: Byte, r2: Byte)

  function VrcWindows(b: VrcFamily): Slots {
    var count := BankCount(|b.rom|, K8);
    var last, secondLast := FromEnd(count, 1), FromEnd(count, 2);
    if b.mapper in {24, 26, 85} then [b.r0 % count, b.r1 % count, b.r2 % count, last]
    else if b.mapper in {21, 23, 25, 27} && b.prgMode then [secondLast, b.r1 % count, b.r0 % count, last]
    else [b.r0 % count, b.r1 % count, secondLast, last]
  }

  function VrcRead(b: VrcFamily, addr: Word): Byte {
    if 0x6000 <= addr <= 0x7FFF then ReadRam(b.ram, addr) else SlotRead(b.rom, VrcWindows(b), addr)
  }

  lemma VrcLabelled(b: VrcFamily, addr: Word)
    requires Labellable(b.rom, K8)
    ensures Labelled(b.rom, addr, SlotLabel(|b.rom|, VrcWindows(b), addr), VrcRead(b, addr))
  {
    SlotLabelled(b.rom, VrcWindows(b), addr);
  }

  datatype Namco163Prg = Namco163Prg(rom: seq<Byte>, r0: Byte, r1: Byte, r2: Byte)

  function Namco163Windows(b: Namco163Prg): Slots {
    var count := BankCount(|b.rom|, K8);
    [b.r0 % count, b.r1 % count, b.r2 % count, FromEnd(count, 1)]
  }

  /** Namco 163 computes the slot instead of listing the windows. */
  function Namco163Read(b: Namco163Prg, addr: Word): Byte {
    if addr < 0x8000 then 0 else ReadBank(b.rom, K8, Namco163Windows(b)[Slot(addr)], addr % K8)
  }

  lemma Namco163Labelled(b: Namco163Prg, addr: Word)
    requires Labellable(b.rom, K8)
    ensures Labelled(b.rom, addr, SlotLabel(|b.rom|, Namco163Windows(b), addr), Namco163Read(b, addr))
  {
    if addr >= 0x8000 {
      WindowLabelled(b.rom, K8, Namco163Windows(b)[Slot(addr)], addr % K8, addr);
    }
  }
}
