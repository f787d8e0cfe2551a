/**
Which bank each slot of a board shows, from its registers, for ROMs of whole banks: the byte read at
every program address.
*/
module PrgBanks {
  import Arithmetic
  import opened MachineWords
  import opened Banks
  import opened PrgWindows

  /** `rom` is `count` banks of `size`. */
  predicate IsWhole(rom: seq<Byte>, size: nat, count: nat) {
    size > 0 && count > 0 && |rom| == count * size
  }

  /** Byte `offset` of bank `bank`, counted around the end. */
  function BankByte(rom: seq<Byte>, size: nat, count: nat, bank: nat, offset: nat): Byte
    requires IsWhole(rom, size, count) && offset < size
  {
    WholeBankRead(rom, size, count, bank, offset);
    rom[(bank % count) * size + offset]
  }

  /** The n-th bank from the end, if there is one, else the first. */
  function Last(count: nat, n: nat): nat {
    if count < n then 0 else count - n
  }

  lemma BankIs(rom: seq<Byte>, size: nat, count: nat, bank: nat, wanted: nat, offset: nat)
    requires IsWhole(rom, size, count) && offset < size && bank % count == wanted % count
    ensures ReadBank(rom, size, bank, offset) == BankByte(rom, size, count, wanted, offset)
  {
    WholeBankRead(rom, size, count, bank, offset);
  }

  lemma CountIs(rom: seq<Byte>, size: nat, count: nat)
    requires IsWhole(rom, size, count)
    ensures BankCount(|rom|, size) == count
  {
    Arithmetic.DivModUnique(|rom|, count, 0, size);
  }

  // ----- 16 KiB slots

  lemma PairMapped(rom: seq<Byte>, count: nat, windows: (nat, nat), high: bool, wanted: nat, offset: nat)
    requires IsWhole(rom, K16, count) && offset < K16
    requires (if high then windows.1 else windows.0) % count == wanted % count
    ensures PairRead(rom, windows, (if high then 0xC000 else 0x8000) + offset)
         == BankByte(rom, K16, count, wanted, offset)
  {
    BankIs(rom, K16, count, if high then windows.1 else windows.0, wanted, offset);
  }

  /** UxROM: the selected bank below the last one, or above the first one. */
  lemma UxromMapped(b: Uxrom, count: nat, high: bool, offset: nat)
    requires IsWhole(b.rom, 0x4000, count) && offset < 0x4000
    ensures PairRead(b.rom, UxromReadWindows(b), (if high then 0xC000 else 0x8000) + offset)
         == BankByte(b.rom, 0x4000, count,
                     if high != b.fixedLower then (if high then count - 1 else 0) else b.bankSelect, offset)
  {
    CountIs(b.rom, K16, count);
    PairMapped(b.rom, count, UxromReadWindows(b), high,
               if high != b.fixedLower then (if high then count - 1 else 0) else b.bankSelect, offset);
  }

  /** VRC3: the selected bank below the last one. */
  lemma Vrc3Mapped(b: Vrc3, count: nat, high: bool, offset: nat)
    requires IsWhole(b.rom, 0x4000, count) && offset < 0x4000
    ensures Vrc3Read(b, (if high then 0xC000 else 0x8000) + offset)
         == BankByte(b.rom, 0x4000, count, if high then count - 1 else b.prgBank, offset)
  {
    CountIs(b.rom, K16, count);
    PairMapped(b.rom, count, (b.prgBank, count - 1), high, if high then count - 1 else b.prgBank, offset);
  }

  /** The bank an MMC1 slot shows inside 256 KiB: by bits 2 and 3 of the control register. */
  function Mmc1Inner(control: Byte, prgBank: Byte, high: bool, top: nat): nat {
    if control % 16 < 8 then prgBank % 16 / 2 * 2 + (if high then 1 else 0)
    else if control % 16 < 12 then (if high then prgBank % 16 else 0)
    else (if high then top else prgBank % 16)
  }

  lemma NextBank(pair: nat, count: nat)
    requires count > 0
    ensures (pair % count + 1) % count == (pair + 1) % count
    ensures pair % count % count == pair % count
    ensures (pair % count + 1) % count % count == (pair + 1) % count
  {
    var q := pair / count;
    assert pair + 1 == q * count + (pair % count + 1);
    AddMultiple(q, pair % count + 1, count);
    Arithmetic.DivModUnique(pair % count, 0, pair % count, count);
    Arithmetic.DivModUnique((pair + 1) % count, 0, (pair + 1) % count, count);
  }

  lemma ModeBits(control: Byte)
    ensures (control / 4) % 4 <= 1 <==> control % 16 < 8
    ensures (control / 4) % 4 == 2 <==> 8 <= control % 16 < 12
  {
    assert control / 4 == 4 * (control / 16) + control % 16 / 4;
  }

  lemma Mmc1Wanted(b: Mmc1, count: nat, high: bool, inner: nat, pair: nat)
    requires IsWhole(b.rom, K16, count) && !b.surom
    requires inner == b.prgBank % 16 && pair == inner / 2 * 2
    ensures var window := Mmc1Window(b);
      (if high then window.1 else window.0) % count == Mmc1Inner(b.control, b.prgBank, high, count - 1) % count
  {
    CountIs(b.rom, K16, count);
    ModeBits(b.control);
    assert inner - inner % 2 == pair;
    NextBank(pair, count);
    NextBank(inner, count);
  }

  /** MMC1 up to 256 KiB: a pair of banks, or one bank above the first, or one below the last. */
  lemma Mmc1Mapped(b: Mmc1, count: nat, high: bool, offset: nat)
    requires IsWhole(b.rom, 0x4000, count) && offset < 0x4000 && !b.surom
    ensures Mmc1Read(b, (if high then 0xC000 else 0x8000) + offset)
         == BankByte(b.rom, 0x4000, count, Mmc1Inner(b.control, b.prgBank, high, count - 1), offset)
  {
    Mmc1Wanted(b, count, high, b.prgBank % 16, b.prgBank % 16 / 2 * 2);
    PairMapped(b.rom, count, Mmc1Window(b), high, Mmc1Inner(b.control, b.prgBank, high, count - 1), offset);
  }

  /** SUROM: the same inside the 256 KiB half that bit 4 of CHR register 0 selects. */
  lemma SuromMapped(b: Mmc1, high: bool, offset: nat)
    requires |b.rom| == 0x8_0000 && offset < 0x4000 && b.surom
    ensures Mmc1Read(b, (if high then 0xC000 else 0x8000) + offset)
         == BankByte(b.rom, 0x4000, 32,
              (if b.chrBank0 % 32 < 16 then 0 else 16) + Mmc1Inner(b.control, b.prgBank, high, 15), offset)
  {
    ModeBits(b.control);
    PairMapped(b.rom, 32, Mmc1Window(b), high,
      (if b.chrBank0 % 32 < 16 then 0 else 16) + Mmc1Inner(b.control, b.prgBank, high, 15), offset);
  }

  /** MMC4: the selected bank below the last one. */
  lemma Mmc4Mapped(b: Mmc2Mmc4, count: nat, high: bool, offset: nat)
    requires IsWhole(b.rom, 0x4000, count) && offset < 0x4000 && !b.isMmc2
    ensures Mmc2Mmc4Read(b, (if high then 0xC000 else 0x8000) + offset)
         == BankByte(b.rom, 0x4000, count, if high then count - 1 else b.prgBank, offset)
  {
    CountIs(b.rom, K16, count);
    BankIs(b.rom, K16, count, if high then count - 1 else b.prgBank,
           if high then count - 1 else b.prgBank, offset);
    PairOffset((if high then 0xC000 else 0x8000) + offset);
  }

  // ----- 8 KiB slots

  lemma SlotMapped(
    rom: seq<Byte>, count: nat, windows: Slots, slot: nat, wanted: nat, offset: nat, addr: Word)
    requires IsWhole(rom, K8, count) && slot < 4 && offset < K8
    requires addr == 0x8000 + slot * 0x2000 + offset && windows[slot] % count == wanted % count
    ensures SlotRead(rom, windows, addr) == BankByte(rom, K8, count, wanted, offset)
  {
    BankIs(rom, K8, count, windows[slot], wanted, offset);
  }

  lemma Wrapped(bank: nat, count: nat)
    requires count > 0
    ensures (bank % count) % count == bank % count
  {
    Arithmetic.DivModUnique(bank % count, 0, bank % count, count);
  }

  /** MMC3: R7 at $A000, the last bank at $E000; bit 6 of the bank select swaps R6 and the last but one. */
  function Mmc3Bank(b: Mmc3, count: nat, slot: nat): nat {
    if slot == 1 then b.r7
    else if slot == 3 then Last(count, 1)
    else if (slot == 0) == (b.bankSelect % 0x80 < 0x40) then b.r6
    else Last(count, 2)
  }

  lemma Mmc3Mapped(b: Mmc3, count: nat, slot: nat, offset: nat, addr: Word)
    requires IsWhole(b.rom, 0x2000, count) && slot < 4 && offset < 0x2000
    requires addr == 0x8000 + slot * 0x2000 + offset
    ensures Mmc3Read(b, addr) == BankByte(b.rom, 0x2000, count, Mmc3Bank(b, count, slot), offset)
  {
    CountIs(b.rom, K8, count);
    Wrapped(b.r6, count);
    Wrapped(b.r7, count);
    SlotMapped(b.rom, count, Mmc3Windows(b), slot, Mmc3Bank(b, count, slot), offset, addr);
  }

  /** VRC6 and VRC7 switch three slots; VRC2 and VRC4 two, and VRC4's mode swaps the outer one. */
  function VrcBank(b: VrcFamily, count: nat, slot: nat): nat {
    if slot == 3 then Last(count, 1)
    else if slot == 1 then b.r1
    else if b.mapper == 24 || b.mapper == 26 || b.mapper == 85 then (if slot == 0 then b.r0 else b.r2)
    else
      var swaps := b.mapper == 21 || b.mapper == 23 || b.mapper == 25 || b.mapper == 27;
      if (slot == 0) == (swaps && b.prgMode) then Last(count, 2) else b.r0
  }

  lemma VrcMapped(b: VrcFamily, count: nat, slot: nat, offset: nat, addr: Word)
    requires IsWhole(b.rom, 0x2000, count) && slot < 4 && offset < 0x2000
    requires addr == 0x8000 + slot * 0x2000 + offset
    ensures VrcRead(b, addr) == BankByte(b.rom, 0x2000, count, VrcBank(b, count, slot), offset)
  {
    CountIs(b.rom, K8, count);
    Wrapped(b.r0, count);
    Wrapped(b.r1, count);
    Wrapped(b.r2, count);
    SlotMapped(b.rom, count, VrcWindows(b), slot, VrcBank(b, count, slot), offset, addr);
  }

  /** MMC2: the selected bank below the last three. */
  lemma Mmc2Mapped(b: Mmc2Mmc4, count: nat, slot: nat, offset: nat, addr: Word)
    requires IsWhole(b.rom, 0x2000, count) && slot < 4 && offset < 0x2000 && b.isMmc2
    requires addr == 0x8000 + slot * 0x2000 + offset
    ensures Mmc2Mmc4Read(b, addr)
         == BankByte(b.rom, 0x2000, count, if slot == 0 then b.prgBank else Last(count, 4 - slot), offset)
  {
    CountIs(b.rom, K8, count);
    assert addr % K8 == offset;
    var bank := if slot == 0 then b.prgBank else Last(count, 4 - slot);
    BankIs(b.rom, K8, count, bank, bank, offset);
  }

  /** Namco 163: three selected banks below the last one. */
  lemma Namco163Mapped(b: Namco163Prg, count: nat, slot: nat, offset: nat, addr: Word)
    requires IsWhole(b.rom, 0x2000, count) && slot < 4 && offset < 0x2000
    requires addr == 0x8000 + slot * 0x2000 + offset
    ensures Namco163Read(b, addr)
         == BankByte(b.rom, 0x2000, count, if slot == 0 then b.r0 else if slot == 1 then b.r1
                                           else if slot == 2 then b.r2 else count - 1, offset)
  {
    CountIs(b.rom, K8, count);
    Wrapped(b.r0, count);
    Wrapped(b.r1, count);
    Wrapped(b.r2, count);
    assert addr % K8 == offset && PrgWindows.Slot(addr) == slot;
    BankIs(b.rom, K8, count, Namco163Windows(b)[slot],
           if slot == 0 then b.r0 else if slot == 1 then b.r1 else if slot == 2 then b.r2 else count - 1, offset);
  }
}
