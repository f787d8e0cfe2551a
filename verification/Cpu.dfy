/**
The 2A03 executor as far as the program counter is concerned: every opcode's operation and
addressing mode, operand fetches, stack traffic and control transfers.  What data
instructions compute, and what devices answer, is left arbitrary.
*/
module Cpu {
  import Options
  import opened MachineWords
  import opened Decoder

  datatype Mode = Imm | Zp | ZpX | ZpY | Abs | AbsX | AbsY | IndX | IndY

  datatype Operation =
    | Load(mode: Mode)
    | Store(mode: Mode)
    | Modify(mode: Mode)
    | StoreAhx
    | Inherent
    | PushRegister
    | PullRegister
    | Break
    | CallSub
    | JumpTo
    | JumpThrough
    | ReturnInterrupt
    | ReturnSub
    | BranchIf(flag: nat, wanted: bool)
    | Unimplemented

  const CARRY := 0
  const ZERO := 1
  const OVERFLOW := 6
  const NEGATIVE := 7

  function OperationOf(opcode: Byte): Operation {
    match opcode
    case 0x00 => Break
    case 0x20 => CallSub
    case 0x40 => ReturnInterrupt
    case 0x60 => ReturnSub
    case 0x4C => JumpTo
    case 0x6C => JumpThrough
    case 0x10 => BranchIf(NEGATIVE, false)
    case 0x30 => BranchIf(NEGATIVE, true)
    case 0x50 => BranchIf(OVERFLOW, false)
    case 0x70 => BranchIf(OVERFLOW, true)
    case 0x90 => BranchIf(CARRY, false)
    case 0xB0 => BranchIf(CARRY, true)
    case 0xD0 => BranchIf(ZERO, false)
    case 0xF0 => BranchIf(ZERO, true)
    case 0x09 | 0x29 | 0x49 | 0x69 | 0xA0 | 0xA2 | 0xA9 | 0xC0 | 0xC9 | 0xE0 | 0xE9 => Load(Imm)
    case 0x05 | 0x24 | 0x25 | 0x45 | 0x65 | 0xA4 | 0xA5 | 0xA6 | 0xC4 | 0xC5 | 0xE4 | 0xE5 => Load(Zp)
    case 0x15 | 0x35 | 0x55 | 0x75 | 0xB4 | 0xB5 | 0xD5 | 0xF5 => Load(ZpX)
    case 0xB6 => Load(ZpY)
    case 0x0D | 0x2C | 0x2D | 0x4D | 0x6D | 0xAC | 0xAD | 0xAE | 0xCC | 0xCD | 0xEC | 0xED => Load(Abs)
    case 0x1D | 0x3D | 0x5D | 0x7D | 0xBC | 0xBD | 0xDD | 0xFD => Load(AbsX)
    case 0x19 | 0x39 | 0x59 | 0x79 | 0xB9 | 0xBE | 0xD9 | 0xF9 => Load(AbsY)
    case 0x01 | 0x21 | 0x41 | 0x61 | 0xA1 | 0xC1 | 0xE1 => Load(IndX)
    case 0x11 | 0x31 | 0x51 | 0x71 | 0xB1 | 0xD1 | 0xF1 => Load(IndY)
    case 0x84 | 0x85 | 0x86 => Store(Zp)
    case 0x94 | 0x95 => Store(ZpX)
    case 0x96 => Store(ZpY)
    case 0x8C | 0x8D | 0x8E => Store(Abs)
    case 0x9D => Store(AbsX)
    case 0x99 => Store(AbsY)
    case 0x81 => Store(IndX)
    case 0x91 => Store(IndY)
    case 0x9F => StoreAhx
    case 0x06 | 0x26 | 0x46 | 0x66 | 0xC6 | 0xE6 => Modify(Zp)
    case 0x16 | 0x36 | 0x56 | 0x76 | 0xD6 | 0xF6 => Modify(ZpX)
    case 0x0E | 0x2E | 0x4E | 0x6E | 0xCE | 0xEE => Modify(Abs)
    case 0x1E | 0x3E | 0x5E | 0x7E | 0xDE | 0xFE => Modify(AbsX)
    case 0x08 | 0x48 => PushRegister
    case 0x28 | 0x68 => PullRegister
    case 0x0A | 0x18 | 0x2A | 0x38 | 0x4A | 0x58 | 0x6A | 0x78 | 0x88 | 0x8A | 0x98 | 0x9A
       | 0xA8 | 0xAA | 0xB8 | 0xBA | 0xC8 | 0xCA | 0xD8 | 0xE8 | 0xEA | 0xF8 => Inherent
    case _ => Unimplemented
  }

  function OperandLen(mode: Mode): nat {
    if mode in {Abs, AbsX, AbsY} then 2 else 1
  }

  /** Operations that always continue with the next instruction. */
  predicate IsData(op: Operation) {
    op.Load? || op.Store? || op.Modify? || op.StoreAhx? || op.Inherent? || op.PushRegister? ||
    op.PullRegister?
  }

  /** Operations whose next address is fixed by the instruction and the flags alone. */
  predicate IsDirect(op: Operation) {
    IsData(op) || op.CallSub? || op.JumpTo? || op.BranchIf?
  }

  function DataOperandLen(op: Operation): nat
    requires IsData(op)
  {
    match op
    case Load(mode) => OperandLen(mode)
    case Store(mode) => OperandLen(mode)
    case Modify(mode) => OperandLen(mode)
    case StoreAhx => 2
    case Inherent | PushRegister | PullRegister => 0
  }

  function Flag(p: Byte, bit: nat): bool {
    if bit == CARRY then p % 2 == 1
    else if bit == ZERO then (p / 2) % 2 == 1
    else if bit == OVERFLOW then (p / 0x40) % 2 == 1
    else p / 0x80 == 1
  }

  /** Where a direct operation at `pc` leaves the program counter. */
  function PcAfter(op: Operation, lo: Byte, hi: Byte, pc: Word, p: Byte): Word
    requires IsDirect(op)
  {
    match op
    case BranchIf(flag, wanted) =>
      Wrap(pc + 2 + (if Flag(p, flag) == wanted then Signed(lo) else 0))
    case CallSub => Join(lo, hi)
    case JumpTo => Join(lo, hi)
    case _ => Wrap(pc + 1 + DataOperandLen(op))
  }

  predicate IsAbsolute(mode: Mode) {
    mode == Abs || mode == AbsX || mode == AbsY
  }

  function IndexOf(mode: Mode, x: Byte, y: Byte): Byte {
    if mode == ZpX || mode == AbsX then x else if mode == ZpY || mode == AbsY then y else 0
  }

  /** The address an operand names by itself, without following a pointer. */
  function DirectAddr(mode: Mode, lo: Byte, hi: Byte, pc: Word, x: Byte, y: Byte): Word {
    if mode == Imm then pc
    else if IsAbsolute(mode) then Wrap(Join(lo, hi) + IndexOf(mode, x, y))
    else (lo + IndexOf(mode, x, y)) % 0x100
  }

  /** The address of each mode that follows no pointer, from its operand bytes and index registers. */
  lemma ModesSpelled(lo: Byte, hi: Byte, pc: Word, x: Byte, y: Byte)
    ensures DirectAddr(Imm, lo, hi, pc, x, y) == pc
    ensures DirectAddr(Zp, lo, hi, pc, x, y) == lo
    ensures DirectAddr(ZpX, lo, hi, pc, x, y) == (lo + x) % 0x100
    ensures DirectAddr(ZpY, lo, hi, pc, x, y) == (lo + y) % 0x100
    ensures DirectAddr(Abs, lo, hi, pc, x, y) == lo + 0x100 * hi
    ensures DirectAddr(AbsX, lo, hi, pc, x, y) == (lo + 0x100 * hi + x) % 0x1_0000
    ensures DirectAddr(AbsY, lo, hi, pc, x, y) == (lo + 0x100 * hi + y) % 0x1_0000
  {
  }

  predicate CrossesPage(a: Word, b: Word) {
    a / 0x100 != b / 0x100
  }

  /** The operand of a mode that follows no pointer is readable. */
  predicate OperandRead(mode: Mode, lo: Options.Option<Byte>, hi: Options.Option<Byte>) {
    mode == Imm || (lo.Some? && mode in {Zp, ZpX, ZpY}) || (lo.Some? && hi.Some? && IsAbsolute(mode))
  }

  // ----- what the operation table means, without it

  /** The status bit a branch tests: sign, overflow, carry or zero, by the top two opcode bits. */
  function TestedBit(opcode: Byte, p: Byte): int {
    if opcode < 0x40 then p / 0x80
    else if opcode < 0x80 then (p / 0x40) % 2
    else if opcode < 0xC0 then p % 2
    else (p / 2) % 2
  }

  /** Where a branch at `pc` with this operand goes: taken when the tested bit is opcode bit 5. */
  function BranchGoes(opcode: Byte, lo: Byte, pc: Word, p: Byte): int {
    var taken := TestedBit(opcode, p) == (opcode / 0x20) % 2;
    (pc + 2 + (if !taken then 0 else if lo < 0x80 then lo else lo - 0x100)) % 0x1_0000
  }

  /** The eight opcodes $10, $30, .. $F0 are the branches, and each tests its own bit for its own value. */
  lemma BranchLaw(opcode: Byte, lo: Byte, hi: Byte, pc: Word, p: Byte)
    ensures OperationOf(opcode).BranchIf? <==> opcode % 0x20 == 0x10
    ensures opcode % 0x20 == 0x10 ==>
      PcAfter(OperationOf(opcode), lo, hi, pc, p) == BranchGoes(opcode, lo, pc, p)
  {
    BranchOpcodes(opcode);
    if opcode % 0x20 == 0x10 {
      FlagTested(opcode, p);
    }
  }

  lemma BranchOpcodes(opcode: Byte)
    ensures OperationOf(opcode).BranchIf? <==> opcode % 0x20 == 0x10
  {
    assert opcode == 0x20 * (opcode / 0x20) + opcode % 0x20;
  }

  lemma FlagTested(opcode: Byte, p: Byte)
    requires opcode % 0x20 == 0x10
    ensures OperationOf(opcode).BranchIf?
    ensures var op := OperationOf(opcode);
      Flag(p, op.flag) == op.wanted <==> TestedBit(opcode, p) == (opcode / 0x20) % 2
  {
    assert opcode == 0x20 * (opcode / 0x20) + 0x10;
  }

  /** The two absolute transfers go where their operand says, low byte first. */
  lemma TransferLaw(opcode: Byte, lo: Byte, hi: Byte, pc: Word, p: Byte)
    requires opcode == 0x20 || opcode == 0x4C
    ensures IsDirect(OperationOf(opcode)) && PcAfter(OperationOf(opcode), lo, hi, pc, p) == lo + 0x100 * hi
  {
  }

  lemma ControlLaw(
    opcode: Byte, lo: Options.Option<Byte>, hi: Options.Option<Byte>, pc: Word, p: Byte)
    ensures opcode % 0x20 == 0x10 && lo.Some? ==>
      IsDirect(OperationOf(opcode)) && OperandsKnown(OperationOf(opcode), lo, hi) &&
      PcAfter(OperationOf(opcode), Known(lo), Known(hi), pc, p) == BranchGoes(opcode, lo.value, pc, p)
    ensures (opcode == 0x20 || opcode == 0x4C) && lo.Some? && hi.Some? ==>
      IsDirect(OperationOf(opcode)) && OperandsKnown(OperationOf(opcode), lo, hi) &&
      PcAfter(OperationOf(opcode), Known(lo), Known(hi), pc, p) == lo.value + 0x100 * hi.value
  {
    BranchLaw(opcode, Known(lo), Known(hi), pc, p);
    if opcode == 0x20 || opcode == 0x4C {
      TransferLaw(opcode, Known(lo), Known(hi), pc, p);
    }
  }

  /** The word at the pointer lo + 256 hi, if it is in ROM; its second byte is in the pointer's page. */
  function PointedBytes(prg: seq<Byte>, windows: Windows, lo: Byte, hi: Byte): Options.Option<Word> {
    var pointer := lo + 0x100 * hi;
    var first := RomByte(prg, windows, pointer);
    var second := RomByte(prg, windows, if lo == 0xFF then 0x100 * hi else pointer + 1);
    if first.Some? && second.Some? then Options.Some(first.value + 0x100 * second.value) else Options.None
  }

  lemma PointerWraps(lo: Byte, hi: Byte, pointer: Word)
    requires pointer == lo + 0x100 * hi
    ensures NextInPage(pointer) == if lo == 0xFF then 0x100 * hi else pointer + 1
  {
    assert pointer % 0x100 == lo;
  }

  /** The machine around the CPU: PRG ROM behind its windows, and everything else. */
  class Bus {
    const prg: seq<Byte>
    var windows: Windows
    var devices: int

    constructor (prg: seq<Byte>, windows: Windows)
      ensures this.prg == prg && this.windows == windows
    {
      this.prg, this.windows, devices := prg, windows, 0;
    }

    method Read(addr: Word) returns (value: Byte)
      modifies this`devices
      ensures RomByte(prg, windows, addr).Some? ==> value == RomByte(prg, windows, addr).value
    {
      devices := *;
      value := *;
      if RomByte(prg, windows, addr).Some? {
        value := RomByte(prg, windows, addr).value;
      }
    }

    /** A write may reach a mapper register and change any window. */
    method Write(addr: Word, value: Byte)
      modifies this
    {
      devices := *;
      windows := *;
    }
  }

  class CpuState {
    var a: Byte
    var x: Byte
    var y: Byte
    var sp: Byte
    var pc: Word
    var p: Byte

    constructor (pc: Word)
      ensures this.pc == pc
    {
      a, x, y, sp, p := 0, 0, 0, 0xFD, 0x24;
      this.pc := pc;
    }

    method Fetch(bus: Bus) returns (value: Byte)
      modifies this`pc, bus`devices
      ensures pc == Wrap(old(pc) + 1)
      ensures RomByte(bus.prg, bus.windows, old(pc)).Some? ==>
                value == RomByte(bus.prg, bus.windows, old(pc)).value
    {
      value := bus.Read(pc);
      pc := Wrap(pc + 1);
    }

    method FetchWord(bus: Bus) returns (value: Word)
      modifies this`pc, bus`devices
      ensures pc == Wrap(old(pc) + 2)
      ensures var lo, hi := RomByte(bus.prg, bus.windows, old(pc)),
                            RomByte(bus.prg, bus.windows, Wrap(old(pc) + 1));
        lo.Some? && hi.Some? ==> value == Join(lo.value, hi.value)
    {
      var lo := Fetch(bus);
      var hi := Fetch(bus);
      value := Join(lo, hi);
    }

    method Push(bus: Bus, value: Byte)
      modifies this`sp, bus
    {
      bus.Write(0x0100 + sp, value);
      sp := if sp == 0 then 0xFF else sp - 1;
    }

    method PushWord(bus: Bus, value: Word)
      modifies this`sp, bus
    {
      Push(bus, value / 0x100);
      Push(bus, value % 0x100);
    }

    method Pull(bus: Bus) returns (value: Byte)
      modifies this`sp, bus`devices
    {
      sp := (sp + 1) % 0x100;
      value := bus.Read(0x0100 + sp);
    }

    method PullWord(bus: Bus) returns (value: Word)
      modifies this`sp, bus`devices
    {
      var lo := Pull(bus);
      var hi := Pull(bus);
      value := Join(lo, hi);
    }

    /**
    Consume the operand bytes; immediate mode leaves them to the read.  Where the operand lies in
    ROM and no pointer in memory is followed, the address is exactly what operand and index say.
    */
    method ResolveAddr(bus: Bus, mode: Mode) returns (addr: Word, crossed: bool)
      modifies this`pc, bus`devices
      ensures pc == Wrap(old(pc) + (if mode == Imm then 0 else OperandLen(mode)))
      ensures var lo, hi := RomByte(bus.prg, bus.windows, old(pc)),
                            RomByte(bus.prg, bus.windows, Wrap(old(pc) + 1));
        OperandRead(mode, lo, hi) ==>
          addr == DirectAddr(mode, Known(lo), Known(hi), old(pc), x, y) &&
          crossed == (IsAbsolute(mode) && CrossesPage(Join(Known(lo), Known(hi)), addr))
      ensures !IsAbsolute(mode) && mode != IndY ==> !crossed
    {
      crossed := false;
      if mode == Imm {
        addr := pc;
      } else if IsAbsolute(mode) {
        addr, crossed := ResolveAbsolute(bus, mode);
      } else if mode in {Zp, ZpX, ZpY} {
        var base := Fetch(bus);
        addr := (base + IndexOf(mode, x, y)) % 0x100;
      } else {
        var base := Fetch(bus);
        addr, crossed := ResolvePointer(bus, mode, base);
      }
    }

    method ResolveAbsolute(bus: Bus, mode: Mode) returns (addr: Word, crossed: bool)
      requires IsAbsolute(mode)
      modifies this`pc, bus`devices
      ensures pc == Wrap(old(pc) + 2)
      ensures var lo, hi := RomByte(bus.prg, bus.windows, old(pc)),
                            RomByte(bus.prg, bus.windows, Wrap(old(pc) + 1));
        lo.Some? && hi.Some? ==>
          addr == DirectAddr(mode, Known(lo), Known(hi), old(pc), x, y) &&
          crossed == CrossesPage(Join(Known(lo), Known(hi)), addr)
    {
      var base := FetchWord(bus);
      addr := Wrap(base + IndexOf(mode, x, y));
      crossed := CrossesPage(base, addr);
    }

    method ResolvePointer(bus: Bus, mode: Mode, base: Byte) returns (addr: Word, crossed: bool)
      requires mode == IndX || mode == IndY
      modifies bus`devices
      ensures mode == IndX ==> !crossed
    {
      var ptr := if mode == IndX then (base + x) % 0x100 else base;
      var lo := bus.Read(ptr);
      var hi := bus.Read((ptr + 1) % 0x100);
      addr := Wrap(Join(lo, hi) + (if mode == IndY then y else 0));
      crossed := mode == IndY && CrossesPage(Join(lo, hi), addr);
    }

    method ReadMode(bus: Bus, mode: Mode) returns (value: Byte, crossed: bool)
      modifies this`pc, bus`devices
      ensures pc == Wrap(old(pc) + OperandLen(mode))
      ensures var lo, hi := RomByte(bus.prg, bus.windows, old(pc)),
                            RomByte(bus.prg, bus.windows, Wrap(old(pc) + 1));
        OperandRead(mode, lo, hi) ==>
          var addr := DirectAddr(mode, Known(lo), Known(hi), old(pc), x, y);
          RomByte(bus.prg, bus.windows, addr).Some? ==> value == RomByte(bus.prg, bus.windows, addr).value
    {
      var addr;
      addr, crossed := ResolveAddr(bus, mode);
      value := bus.Read(addr);
      if mode == Imm {
        pc := Wrap(pc + 1);
      }
    }

    method WriteMode(bus: Bus, mode: Mode, value: Byte)
      requires mode != Imm
      modifies this`pc, bus
      ensures pc == Wrap(old(pc) + OperandLen(mode))
    {
      var addr, crossed := ResolveAddr(bus, mode);
      bus.Write(addr, value);
    }

    /** Any effect of a data instruction on the registers and flags. */
    method Compute()
      modifies this`a, this`x, this`y, this`sp, this`p
    {
      a, x, y, sp, p := *, *, *, *, *;
    }

    /** A branch takes two cycles, one more if taken, and another one into a different page. */
    method BranchOn(bus: Bus, take: bool) returns (cycles: nat)
      modifies this`pc, bus`devices
      ensures RomByte(bus.prg, bus.windows, old(pc)).Some? ==>
        var offset := RomByte(bus.prg, bus.windows, old(pc)).value;
        pc == Wrap(old(pc) + 1 + (if take then Signed(offset) else 0))
      ensures cycles == if !take then 2 else if CrossesPage(Wrap(old(pc) + 1), pc) then 4 else 3
    {
      var offset := Fetch(bus);
      cycles := 2;
      if take {
        var start := pc;
        pc := Wrap(pc + Signed(offset));
        cycles := if CrossesPage(start, pc) then 4 else 3;
      }
    }

    /** Instructions that fall through; they differ in their operand bytes and their effects. */
    method ExecuteData(bus: Bus, op: Operation)
      requires IsData(op) && (op.Store? ==> op.mode != Imm) && (op.Modify? ==> op.mode != Imm)
      modifies this, bus
      ensures pc == Wrap(old(pc) + DataOperandLen(op))
    {
      match op
      case Load(mode) =>
        var value, crossed := ReadMode(bus, mode);
        Compute();
      case Store(mode) =>
        WriteMode(bus, mode, a);
      case Modify(mode) =>
        var addr, crossed := ResolveAddr(bus, mode);
        var value := bus.Read(addr);
        Compute();
        bus.Write(addr, value);
      case StoreAhx =>
        var base := FetchWord(bus);
        var addr: Word := *;
        bus.Write(addr, a);
      case Inherent =>
        Compute();
      case PushRegister =>
        var value: Byte := *;
        Push(bus, value);
      case PullRegister =>
        var value := Pull(bus);
        Compute();
    }

    method ExecuteBreak(bus: Bus)
      modifies this, bus
    {
      pc := Wrap(pc + 1);
      PushWord(bus, pc);
      Push(bus, p);
      var lo := bus.Read(0xFFFE);
      var hi := bus.Read(0xFFFF);
      pc := Join(lo, hi);
    }

    /** The pointer's high byte comes from the same page: a pointer at $xxFF wraps to $xx00. */
    method JumpIndirect(bus: Bus)
      modifies this, bus
      ensures var lo, hi := old(RomByte(bus.prg, bus.windows, pc)),
                            old(RomByte(bus.prg, bus.windows, Wrap(pc + 1)));
        lo.Some? && hi.Some? && PointedBytes(bus.prg, old(bus.windows), lo.value, hi.value).Some? ==>
          pc == PointedBytes(bus.prg, old(bus.windows), lo.value, hi.value).value
    {
      ghost var lo := RomByte(bus.prg, bus.windows, pc);
      ghost var hi := RomByte(bus.prg, bus.windows, Wrap(pc + 1));
      var ptr := FetchWord(bus);
      if lo.Some? && hi.Some? {
        PointerWraps(lo.value, hi.value, ptr);
      }
      pc := ReadPointed(bus, ptr, NextInPage(ptr));
    }

    method ReadPointed(bus: Bus, first: Word, second: Word) returns (value: Word)
      modifies bus`devices
      ensures var lo, hi := RomByte(bus.prg, bus.windows, first), RomByte(bus.prg, bus.windows, second);
        lo.Some? && hi.Some? ==> value == lo.value + 0x100 * hi.value
    {
      var lo := bus.Read(first);
      var hi := bus.Read(second);
      value := Join(lo, hi);
    }

    /**
    Instructions that set the program counter from their operand, the stack or memory.
    `start` is the address the opcode was fetched from.
    */
    method ExecuteControl(bus: Bus, op: Operation, ghost start: Word) returns (ok: bool)
      requires !IsData(op) && pc == Wrap(start + 1)
      modifies this, bus
      ensures ok <==> op != Unimplemented
      ensures var lo, hi := old(RomByte(bus.prg, bus.windows, Wrap(start + 1))),
                            old(RomByte(bus.prg, bus.windows, Wrap(start + 2)));
        (IsDirect(op) && OperandsKnown(op, lo, hi) ==>
          pc == PcAfter(op, Known(lo), Known(hi), start, old(p))) &&
        (op.JumpThrough? && lo.Some? && hi.Some? &&
         PointedBytes(bus.prg, old(bus.windows), lo.value, hi.value).Some? ==>
          pc == PointedBytes(bus.prg, old(bus.windows), lo.value, hi.value).value)
    {
      ok := true;
      match op
      case Break => ExecuteBreak(bus);
      case JumpThrough => JumpIndirect(bus);
      case CallSub =>
        var target := FetchWord(bus);
        PushWord(bus, if pc == 0 then 0xFFFF else pc - 1);
        pc := target;
      case JumpTo =>
        pc := FetchWord(bus);
      case ReturnInterrupt =>
        p := Pull(bus);
        pc := PullWord(bus);
      case ReturnSub =>
        pc := PullWord(bus);
        pc := Wrap(pc + 1);
      case BranchIf(flag, wanted) =>
        var cycles := BranchOn(bus, Flag(p, flag) == wanted);
      case Unimplemented =>
        ok := false;
    }

    method Dispatch(bus: Bus) returns (ok: bool)
      requires RomByte(bus.prg, bus.windows, pc).Some?
      modifies this, bus
      ensures var op := OperationOf(old(RomByte(bus.prg, bus.windows, pc)).value);
        var lo, hi := old(RomByte(bus.prg, bus.windows, Wrap(pc + 1))),
                      old(RomByte(bus.prg, bus.windows, Wrap(pc + 2)));
        (ok <==> op != Unimplemented) &&
        (IsDirect(op) && OperandsKnown(op, lo, hi) ==>
          pc == PcAfter(op, Known(lo), Known(hi), old(pc), old(p))) &&
        (op.JumpThrough? && lo.Some? && hi.Some? &&
         PointedBytes(bus.prg, old(bus.windows), lo.value, hi.value).Some? ==>
          pc == PointedBytes(bus.prg, old(bus.windows), lo.value, hi.value).value)
    {
      ghost var start: int := pc;
      var opcode := Fetch(bus);
      var op := OperationOf(opcode);
      if IsData(op) {
        ExecuteData(bus, op);
        WrapAdd(start + 1, DataOperandLen(op));
        ok := true;
      } else {
        ok := ExecuteControl(bus, op, start);
      }
    }

    /** Fetch and execute one instruction; false for an opcode the executor does not implement. */
    method Execute(bus: Bus) returns (ok: bool)
      requires RomByte(bus.prg, bus.windows, pc).Some?
      modifies this, bus
      ensures var opcode := old(RomByte(bus.prg, bus.windows, pc)).value;
        var lo, hi := old(RomByte(bus.prg, bus.windows, Wrap(pc + 1))),
                      old(RomByte(bus.prg, bus.windows, Wrap(pc + 2)));
        (ok <==> OperationOf(opcode) != Unimplemented) &&
        (IsDirect(OperationOf(opcode)) && OperandsKnown(OperationOf(opcode), lo, hi) ==>
          pc == PcAfter(OperationOf(opcode), Known(lo), Known(hi), old(pc), old(p))) &&
        (opcode % 0x20 == 0x10 && lo.Some? ==> pc == BranchGoes(opcode, lo.value, old(pc), old(p))) &&
        ((opcode == 0x20 || opcode == 0x4C) && lo.Some? && hi.Some? ==> pc == lo.value + 0x100 * hi.value) &&
        (opcode == 0x6C && lo.Some? && hi.Some? &&
         PointedBytes(bus.prg, old(bus.windows), lo.value, hi.value).Some? ==>
          pc == PointedBytes(bus.prg, old(bus.windows), lo.value, hi.value).value)
    {
      ghost var opcode := RomByte(bus.prg, bus.windows, pc).value;
      ghost var lo := RomByte(bus.prg, bus.windows, Wrap(pc + 1));
      ghost var hi := RomByte(bus.prg, bus.windows, Wrap(pc + 2));
      ControlLaw(opcode, lo, hi, pc, p);
      ok := Dispatch(bus);
    }
  }

  /** The operand bytes that decide where a direct operation goes are readable. */
  predicate OperandsKnown(op: Operation, lo: Options.Option<Byte>, hi: Options.Option<Byte>) {
    (op.BranchIf? ==> lo.Some?) && (op.CallSub? || op.JumpTo? ==> lo.Some? && hi.Some?)
  }

  function Known(byte: Options.Option<Byte>): Byte {
    if byte.Some? then byte.value else 0
  }
}
