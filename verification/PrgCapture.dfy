/**
The captured windows against the boards: a ROM byte fetched through windows captured from a board's
labels is the byte that the board's own read returns.
*/
module PrgCapture {
  import Arithmetic
  import opened Banks
  import Decoder
  import opened MachineWords
  import opened Options
  import opened PrgWindows

  // ----- one label for each 8 KiB slot

  /** Where the slot of an address begins. */
  function SlotStart(addr: Word): Word
    requires addr >= 0x8000
  {
    addr - addr % K8
  }

  /** `offset` in a window whose bank begins at `base` of the backing. */
  lemma OffsetFrom(len: nat, size: nat, base: nat, offset: nat, start: nat, rest: nat)
    requires len > 0 && (base + size <= len || len % K8 == 0)
    requires start + rest == offset < size && rest < K8 && ((base + start) % len) % K8 == 0
    ensures (base + offset) % len == (base + start) % len + rest
  {
    if base + size <= len {
      InsideBacking(base + offset, len);
      InsideBacking(base + start, len);
    } else {
      BeforeBoundary(base + start, base + offset, rest, len);
    }
  }

  lemma BankBegins(len: nat, size: nat, bank: nat) returns (base: nat)
    requires len > 0 && size > 0
    ensures base == WrapBank(bank, BankCount(len, size)) * size
    ensures len >= size ==> base + size <= len
  {
    var number := WrapBank(bank, BankCount(len, size));
    base := number * size;
    if len >= size {
      Arithmetic.QuotientAtLeastOne(len, size);
      CompleteBankInside(len, size, number);
    }
  }

  lemma StartAligned(len: nat, size: nat, bank: nat, start: nat)
    requires len > 0 && size > 0 && size % K8 == 0 && (len >= size || len % K8 == 0) && start % K8 == 0
    ensures BankIndex(len, size, bank, start) % K8 == 0
  {
    LabelExactIff(len, size, bank);
    assert LabelFits(len, size, bank, start);
  }

  lemma IndexAt(len: nat, size: nat, bank: nat, offset: nat, base: nat)
    requires len > 0 && offset < size && base == WrapBank(bank, BankCount(len, size)) * size
    ensures BankIndex(len, size, bank, offset) == (base + offset) % len
  {
    InsideBacking(offset, size);
  }

  lemma OffsetInBank(len: nat, size: nat, bank: nat, offset: nat, start: nat)
    requires len > 0 && size > 0 && size % K8 == 0 && (len >= size || len % K8 == 0)
    requires offset < size && start == offset - offset % K8
    ensures BankIndex(len, size, bank, offset) == BankIndex(len, size, bank, start) + offset % K8
    ensures BankIndex(len, size, bank, start) % K8 == 0
  {
    var base := BankBegins(len, size, bank);
    StartAligned(len, size, bank, start);
    IndexAt(len, size, bank, offset, base);
    IndexAt(len, size, bank, start, base);
    OffsetFrom(len, size, base, offset, start, offset % K8);
  }

  lemma InsideBacking(x: nat, len: nat)
    requires x < len
    ensures x % len == x
  {
    Arithmetic.DivModUnique(x, 0, x, len);
  }

  /** In a backing of whole 8 KiB units, what starts on a boundary ends before the next one. */
  lemma BeforeBoundary(x: nat, y: nat, rest: nat, len: nat)
    requires len > 0 && len % K8 == 0 && rest < K8 && (x % len) % K8 == 0 && y == x + rest
    ensures y % len == x % len + rest
  {
    Arithmetic.DivMod(x, len);
    Arithmetic.DivModUnique(y, x / len, x % len + rest, len);
  }

  lemma SameBank(len: nat, size: nat, bank: nat, offset: nat, start: nat)
    requires size > 0 && size % K8 == 0 && (len >= size || len % K8 == 0)
    requires offset < size && start == offset - offset % K8
    ensures PhysicalBank8k(len, size, bank, offset) == PhysicalBank8k(len, size, bank, start)
  {
    if len > 0 {
      OffsetInBank(len, size, bank, offset, start);
    }
  }

  lemma PairLabelByStart(rom: seq<Byte>, windows: (nat, nat), addr: Word)
    requires Labellable(rom, K16) && addr >= 0x8000
    ensures PairLabel(|rom|, windows, addr) == PairLabel(|rom|, windows, SlotStart(addr))
  {
    if addr <= 0xBFFF {
      SameBank(|rom|, K16, windows.0, addr - 0x8000, SlotStart(addr) - 0x8000);
    } else {
      SameBank(|rom|, K16, windows.1, addr - 0xC000, SlotStart(addr) - 0xC000);
    }
  }

  lemma SlotLabelByStart(rom: seq<Byte>, windows: Slots, addr: Word)
    requires Labellable(rom, K8) && addr >= 0x8000
    ensures SlotLabel(|rom|, windows, addr) == SlotLabel(|rom|, windows, SlotStart(addr))
  {
    SameSlot(addr);
    SameBank(|rom|, K8, windows[Slot(addr)], addr % K8, 0);
  }

  lemma SameSlot(addr: Word)
    requires addr >= 0x8000
    ensures SlotStart(addr) >= 0x8000 && Slot(SlotStart(addr)) == Slot(addr) && SlotStart(addr) % K8 == 0
    ensures Slot(addr) + 4 == Decoder.Slot(addr)
    ensures SlotStart(addr) == 0x8000 + Slot(addr) * K8
  {
  }

  // ----- captured windows

  /** A label as a window holds it. */
  function Window(tag: Option<nat>): Option<Word> {
    if tag.Some? && tag.value <= 0xFFFF then Some(tag.value) else None
  }

  /** The windows captured from the labels at the four slots. */
  function Captured(at8: Option<nat>, atA: Option<nat>, atC: Option<nat>, atE: Option<nat>): Decoder.Windows {
    [Window(at8), Window(atA), Window(atC), Window(atE)]
  }

  /** What a fetch of this board's ROM must return. */
  function Expected(tag: Option<nat>, value: Byte): Option<Byte> {
    if tag.Some? then Some(value) else None
  }

  lemma FetchIsRead(rom: seq<Byte>, windows: Decoder.Windows, addr: Word, tag: Option<nat>, value: Byte)
    requires addr >= 0x8000 && Labelled(rom, addr, tag, value) && (tag.Some? ==> tag.value <= 0xFFFF)
    requires windows[Decoder.Slot(addr) - 4] == Window(tag)
    ensures Decoder.RomByte(rom, windows, addr) == Expected(tag, value)
  {
  }

  /** A label that is the same all over a slot, and the board's read. */
  predicate Capturable(rom: seq<Byte>, addr: Word, tag: Option<nat>, start: Option<nat>, value: Byte) {
    tag == start && Labelled(rom, addr, tag, value) && (tag.Some? ==> tag.value <= 0xFFFF)
  }

  /** The slot's own label is the one captured for it. */
  lemma CapturedIsRead(
    rom: seq<Byte>, addr: Word, at8: Option<nat>, atA: Option<nat>, atC: Option<nat>, atE: Option<nat>,
    tag: Option<nat>, value: Byte)
    requires addr >= 0x8000
    requires Capturable(rom, addr, tag, [at8, atA, atC, atE][Slot(addr)], value)
    ensures Decoder.RomByte(rom, Captured(at8, atA, atC, atE), addr) == Expected(tag, value)
  {
    SameSlot(addr);
    FetchIsRead(rom, Captured(at8, atA, atC, atE), addr, tag, value);
  }

  // ----- the boards

  function PairCaptured(len: nat, windows: (nat, nat)): Decoder.Windows {
    Captured(PairLabel(len, windows, 0x8000), PairLabel(len, windows, 0xA000),
             PairLabel(len, windows, 0xC000), PairLabel(len, windows, 0xE000))
  }

  function SlotCaptured(len: nat, windows: Slots): Decoder.Windows {
    Captured(SlotLabel(len, windows, 0x8000), SlotLabel(len, windows, 0xA000),
             SlotLabel(len, windows, 0xC000), SlotLabel(len, windows, 0xE000))
  }

  lemma PairFetched(rom: seq<Byte>, windows: (nat, nat), addr: Word, value: Byte)
    requires Labellable(rom, K16) && addr >= 0x8000
    requires Labelled(rom, addr, PairLabel(|rom|, windows, addr), value)
    ensures Decoder.RomByte(rom, PairCaptured(|rom|, windows), addr)
         == Expected(PairLabel(|rom|, windows, addr), value)
  {
    PairLabelByStart(rom, windows, addr);
    SameSlot(addr);
    CapturedIsRead(rom, addr, PairLabel(|rom|, windows, 0x8000), PairLabel(|rom|, windows, 0xA000),
                   PairLabel(|rom|, windows, 0xC000), PairLabel(|rom|, windows, 0xE000),
                   PairLabel(|rom|, windows, addr), value);
  }

  lemma SlotFetched(rom: seq<Byte>, windows: Slots, addr: Word, value: Byte)
    requires Labellable(rom, K8) && addr >= 0x8000
    requires Labelled(rom, addr, SlotLabel(|rom|, windows, addr), value)
    ensures Decoder.RomByte(rom, SlotCaptured(|rom|, windows), addr)
         == Expected(SlotLabel(|rom|, windows, addr), value)
  {
    SlotLabelByStart(rom, windows, addr);
    SameSlot(addr);
    CapturedIsRead(rom, addr, SlotLabel(|rom|, windows, 0x8000), SlotLabel(|rom|, windows, 0xA000),
                   SlotLabel(|rom|, windows, 0xC000), SlotLabel(|rom|, windows, 0xE000),
                   SlotLabel(|rom|, windows, addr), value);
  }

  lemma UxromFetched(b: Uxrom, addr: Word)
    requires Labellable(b.rom, K16) && addr >= 0x8000
    ensures Decoder.RomByte(b.rom, PairCaptured(|b.rom|, UxromLabelWindows(b)), addr)
         == Expected(PairLabel(|b.rom|, UxromLabelWindows(b), addr), PairRead(b.rom, UxromReadWindows(b), addr))
  {
    UxromLabelled(b, addr);
    PairFetched(b.rom, UxromLabelWindows(b), addr, PairRead(b.rom, UxromReadWindows(b), addr));
  }

  lemma Vrc3Fetched(b: Vrc3, addr: Word)
    requires Labellable(b.rom, K16) && addr >= 0x8000
    ensures Decoder.RomByte(b.rom, PairCaptured(|b.rom|, Vrc3LabelWindows(b)), addr)
         == Expected(PairLabel(|b.rom|, Vrc3LabelWindows(b), addr), Vrc3Read(b, addr))
  {
    Vrc3Labelled(b, addr);
    PairFetched(b.rom, Vrc3LabelWindows(b), addr, Vrc3Read(b, addr));
  }

  lemma Mmc1Fetched(b: Mmc1, addr: Word)
    requires Labellable(b.rom, K16) && addr >= 0x8000
    ensures Decoder.RomByte(b.rom, PairCaptured(|b.rom|, Mmc1Window(b)), addr)
         == Expected(Mmc1Label(b, addr), Mmc1Read(b, addr))
  {
    Mmc1Labelled(b, addr);
    PairFetched(b.rom, Mmc1Window(b), addr, Mmc1Read(b, addr));
  }

  function Mmc2Mmc4Captured(b: Mmc2Mmc4): Decoder.Windows {
    Captured(Mmc2Mmc4Label(b, 0x8000), Mmc2Mmc4Label(b, 0xA000), Mmc2Mmc4Label(b, 0xC000),
             Mmc2Mmc4Label(b, 0xE000))
  }

  lemma Mmc2LabelByStart(b: Mmc2Mmc4, addr: Word)
    requires b.isMmc2 && Labellable(b.rom, K8) && addr >= 0x8000
    ensures Mmc2Mmc4Label(b, addr) == Mmc2Mmc4Label(b, SlotStart(addr))
  {
    SameSlot(addr);
    SameBank(|b.rom|, K8, Mmc2Bank(b, addr), addr % K8, 0);
  }

  lemma Mmc2Mmc4LabelByStart(b: Mmc2Mmc4, addr: Word)
    requires Labellable(b.rom, if b.isMmc2 then K8 else K16) && addr >= 0x8000
    ensures Mmc2Mmc4Label(b, addr) == Mmc2Mmc4Label(b, SlotStart(addr))
  {
    if b.isMmc2 {
      Mmc2LabelByStart(b, addr);
    } else {
      PairLabelByStart(b.rom, (b.prgBank, FromEnd(BankCount(|b.rom|, K16), 1)), addr);
    }
  }

  lemma LabelIsWord(b: Mmc2Mmc4, addr: Word)
    ensures Mmc2Mmc4Label(b, addr).Some? ==> Mmc2Mmc4Label(b, addr).value <= 0xFFFF
  {
  }

  lemma Mmc2Mmc4Fetched(b: Mmc2Mmc4, addr: Word)
    requires Labellable(b.rom, if b.isMmc2 then K8 else K16) && addr >= 0x8000
    ensures Decoder.RomByte(b.rom, Mmc2Mmc4Captured(b), addr)
         == Expected(Mmc2Mmc4Label(b, addr), Mmc2Mmc4Read(b, addr))
  {
    Mmc2Mmc4Labelled(b, addr);
    Mmc2Mmc4LabelByStart(b, addr);
    LabelIsWord(b, addr);
    SameSlot(addr);
    CapturedIsRead(b.rom, addr, Mmc2Mmc4Label(b, 0x8000), Mmc2Mmc4Label(b, 0xA000), Mmc2Mmc4Label(b, 0xC000),
                   Mmc2Mmc4Label(b, 0xE000), Mmc2Mmc4Label(b, addr), Mmc2Mmc4Read(b, addr));
  }

  lemma Mmc3Fetched(b: Mmc3, addr: Word)
    requires Labellable(b.rom, K8) && addr >= 0x8000
    ensures Decoder.RomByte(b.rom, SlotCaptured(|b.rom|, Mmc3Windows(b)), addr)
         == Expected(SlotLabel(|b.rom|, Mmc3Windows(b), addr), Mmc3Read(b, addr))
  {
    Mmc3Labelled(b, addr);
    SlotFetched(b.rom, Mmc3Windows(b), addr, Mmc3Read(b, addr));
  }

  lemma VrcFetched(b: VrcFamily, addr: Word)
    requires Labellable(b.rom, K8) && addr >= 0x8000
    ensures Decoder.RomByte(b.rom, SlotCaptured(|b.rom|, VrcWindows(b)), addr)
         == Expected(SlotLabel(|b.rom|, VrcWindows(b), addr), VrcRead(b, addr))
  {
    VrcLabelled(b, addr);
    SlotFetched(b.rom, VrcWindows(b), addr, VrcRead(b, addr));
  }

  lemma Namco163Fetched(b: Namco163Prg, addr: Word)
    requires Labellable(b.rom, K8) && addr >= 0x8000
    ensures Decoder.RomByte(b.rom, SlotCaptured(|b.rom|, Namco163Windows(b)), addr)
         == Expected(SlotLabel(|b.rom|, Namco163Windows(b), addr), Namco163Read(b, addr))
  {
    Namco163Labelled(b, addr);
    SlotFetched(b.rom, Namco163Windows(b), addr, Namco163Read(b, addr));
  }
}
