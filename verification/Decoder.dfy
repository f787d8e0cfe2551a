/**
The static decoder of the decompiler: captured PRG windows, instruction lengths and flow
kinds from the mnemonic templates, and the addresses one instruction leads to.
*/
module Decoder {
  import opened Options
  import opened MachineWords

  const BANK_SIZE := 0x2000

  /** A PRG address: a physical 8 KiB bank and the CPU address it is seen at. */
  datatype Address = Address(bank: Word, cpu: Word)

  /** The bank seen in each of the four CPU slots from $8000 up, where known. */
  type Windows = w: seq<Option<Word>> | |w| == 4 witness [None, None, None, None]

  function Slot(cpu: Word): nat { cpu / BANK_SIZE }

  function MapCpuAddr(windows: Windows, cpu: Word): Option<Address> {
    if cpu < 0x8000 then None
    else match windows[Slot(cpu) - 4]
      case None => None
      case Some(bank) => Some(Address(bank, cpu))
  }

  /** Targets in the source's own slot keep its bank; other slots use the captured windows. */
  function ResolveTarget(windows: Windows, source: Address, target: Word): Option<Address> {
    if target < 0x8000 then None
    else if Slot(source.cpu) == Slot(target) then Some(Address(source.bank, target))
    else MapCpuAddr(windows, target)
  }

  function ReadPhysical(prg: seq<Byte>, a: Address): Option<Byte> {
    var index := a.bank * BANK_SIZE + a.cpu % BANK_SIZE;
    if index < |prg| then Some(prg[index]) else None
  }

  function ReadByte(prg: seq<Byte>, windows: Windows, source: Address, cpu: Word): Option<Byte> {
    if Slot(source.cpu) == Slot(cpu) then ReadPhysical(prg, Address(source.bank, cpu))
    else match MapCpuAddr(windows, cpu)
      case None => None
      case Some(a) => ReadPhysical(prg, a)
  }

  // ----- the opcode table

  /** The operand placeholder in an opcode's display name. */
  datatype Template =
    | Unofficial
    | Plain
    | Accumulator
    | Immediate
    | ZeroPage | ZeroPageX | ZeroPageY
    | Absolute | AbsoluteX | AbsoluteY
    | IndirectX | IndirectY | Indirect

  function TemplateOf(opcode: Byte): Template {
    match opcode
    case 0x01 | 0x21 | 0x41 | 0x61 | 0x81 | 0xA1 | 0xC1 | 0xE1 => IndirectX
    case 0x11 | 0x31 | 0x51 | 0x71 | 0x91 | 0xB1 | 0xD1 | 0xF1 => IndirectY
    case 0x05 | 0x06 | 0x24 | 0x25 | 0x26 | 0x45 | 0x46 | 0x65 | 0x66 | 0x84 | 0x85 | 0x86
       | 0xA4 | 0xA5 | 0xA6 | 0xC4 | 0xC5 | 0xC6 | 0xE4 | 0xE5 | 0xE6 => ZeroPage
    case 0x15 | 0x16 | 0x35 | 0x36 | 0x55 | 0x56 | 0x75 | 0x76 | 0x94 | 0x95 | 0xB4 | 0xB5
       | 0xD5 | 0xD6 | 0xF5 | 0xF6 => ZeroPageX
    case 0x96 | 0xB6 => ZeroPageY
    // "SBC #*" at $EB carries the unofficial mark behind the operand, not in front.
    case 0x09 | 0x29 | 0x49 | 0x69 | 0xA0 | 0xA2 | 0xA9 | 0xC0 | 0xC9 | 0xE0 | 0xE9 | 0xEB => Immediate
    case 0x0A | 0x2A | 0x4A | 0x6A => Accumulator
    case 0x0D | 0x0E | 0x20 | 0x2C | 0x2D | 0x2E | 0x4C | 0x4D | 0x4E | 0x6D | 0x6E | 0x8C
       | 0x8D | 0x8E | 0xAC | 0xAD | 0xAE | 0xCC | 0xCD | 0xCE | 0xEC | 0xED | 0xEE => Absolute
    case 0x1D | 0x1E | 0x3D | 0x3E | 0x5D | 0x5E | 0x7D | 0x7E | 0x9D | 0xBC | 0xBD | 0xDD
       | 0xDE | 0xFD | 0xFE => AbsoluteX
    case 0x19 | 0x39 | 0x59 | 0x79 | 0x99 | 0xB9 | 0xBE | 0xD9 | 0xF9 => AbsoluteY
    case 0x6C => Indirect
    case 0x00 | 0x08 | 0x10 | 0x18 | 0x28 | 0x30 | 0x38 | 0x40 | 0x48 | 0x50 | 0x58 | 0x60
       | 0x68 | 0x70 | 0x78 | 0x88 | 0x8A | 0x90 | 0x98 | 0x9A | 0xA8 | 0xAA | 0xB0 | 0xB8
       | 0xBA | 0xC8 | 0xCA | 0xD0 | 0xD8 | 0xE8 | 0xEA | 0xF0 | 0xF8 => Plain
    case _ => Unofficial
  }

  predicate IsBranch(opcode: Byte) {
    opcode in {0x10, 0x30, 0x50, 0x70, 0x90, 0xB0, 0xD0, 0xF0}
  }

  function InstructionLen(opcode: Byte): (len: nat)
    ensures 1 <= len <= 3
  {
    if IsBranch(opcode) then 2
    else match TemplateOf(opcode)
      case Unofficial | Plain | Accumulator => 1
      case Absolute | AbsoluteX | AbsoluteY | Indirect => 3
      case _ => 2
  }

  datatype Flow = Fallthrough | Call | Jump | Branch | Return | Stop | Unknown

  function FlowOf(opcode: Byte): Flow {
    if TemplateOf(opcode).Unofficial? then Unknown
    else if opcode == 0x20 then Call
    else if opcode == 0x4C || opcode == 0x6C then Jump
    else if IsBranch(opcode) then Branch
    else if opcode == 0x40 || opcode == 0x60 then Return
    else if opcode == 0x00 then Stop
    else Fallthrough
  }

  // ----- instructions

  datatype Instruction = Instruction(
    address: Address,
    bytes: seq<Byte>,
    flow: Flow,
    targetCpu: Option<Word>,
    target: Option<Address>)

  function ReadBytes(prg: seq<Byte>, windows: Windows, a: Address, offset: nat, len: nat)
    : (read: Option<seq<Byte>>)
    requires offset <= len
    ensures read.Some? ==> |read.value| == len - offset
    decreases len - offset
  {
    if offset == len then Some([])
    else if a.cpu + offset > 0xFFFF then None
    else match ReadByte(prg, windows, a, a.cpu + offset)
      case None => None
      case Some(byte) =>
        match ReadBytes(prg, windows, a, offset + 1, len)
        case None => None
        case Some(rest) => Some([byte] + rest)
  }

  function TargetCpu(a: Address, flow: Flow, bytes: seq<Byte>): Option<Word>
    requires bytes != []
  {
    match flow
    case Call | Jump =>
      if bytes[0] != 0x6C && |bytes| >= 3 then Some(Join(bytes[1], bytes[2])) else None
    case Branch =>
      if |bytes| >= 2 then Some(Wrap(Wrap(a.cpu + 2) + Signed(bytes[1]))) else None
    case _ => None
  }

  function Decode(prg: seq<Byte>, windows: Windows, a: Address): Option<Instruction> {
    match ReadPhysical(prg, a)
    case None => None
    case Some(opcode) =>
      match ReadBytes(prg, windows, a, 0, InstructionLen(opcode))
      case None => None
      case Some(bytes) =>
        var targetCpu := TargetCpu(a, FlowOf(opcode), bytes);
        var target := if targetCpu.None? then None else ResolveTarget(windows, a, targetCpu.value);
        Some(Instruction(a, bytes, FlowOf(opcode), targetCpu, target))
  }

  function NextAddress(windows: Windows, a: Address, len: nat): Option<Address> {
    if a.cpu + len > 0xFFFF then None else ResolveTarget(windows, a, a.cpu + len)
  }

  function Optional<T>(o: Option<T>): seq<T> {
    if o.Some? then [o.value] else []
  }

  /** Where the function walk goes on from an instruction; a call's target is a root of its own. */
  function Successors(windows: Windows, ins: Instruction): seq<Address> {
    var next := Optional(NextAddress(windows, ins.address, |ins.bytes|));
    match ins.flow
    case Call => next
    case Jump => Optional(ins.target)
    case Branch => Optional(ins.target) + next
    case Fallthrough => next
    case Return | Stop | Unknown => []
  }

  function Calls(ins: Instruction): seq<Address> {
    if ins.flow.Call? then Optional(ins.target) else []
  }

  // ----- what decoding yields

  lemma {:induction false} ReadBytesAt(
    prg: seq<Byte>, windows: Windows, a: Address, offset: nat, len: nat, i: nat)
    requires offset <= i < len && ReadBytes(prg, windows, a, offset, len).Some?
    ensures a.cpu + i <= 0xFFFF
    ensures ReadByte(prg, windows, a, a.cpu + i)
         == Some(ReadBytes(prg, windows, a, offset, len).value[i - offset])
    decreases i - offset
  {
    if offset >= i {
    } else {
      ReadBytesAt(prg, windows, a, offset + 1, len, i);
    }
  }

  /** An address whose bank is the one its window captured. */
  predicate InWindow(windows: Windows, a: Address) {
    MapCpuAddr(windows, a.cpu) == Some(a)
  }

  /** From a captured address, targets resolve to what the captured windows show. */
  lemma ResolveInWindow(windows: Windows, a: Address, target: Word)
    requires InWindow(windows, a)
    ensures ResolveTarget(windows, a, target) == MapCpuAddr(windows, target)
    ensures ResolveTarget(windows, a, target).Some? ==>
      InWindow(windows, ResolveTarget(windows, a, target).value)
  {
  }

  lemma TargetInWindow(prg: seq<Byte>, windows: Windows, a: Address)
    requires InWindow(windows, a) && Decode(prg, windows, a).Some?
    ensures var ins := Decode(prg, windows, a).value;
      ins.address == a && (ins.target.Some? ==> InWindow(windows, ins.target.value))
  {
    var ins := Decode(prg, windows, a).value;
    if ins.target.Some? {
      ResolveInWindow(windows, a, ins.targetCpu.value);
    }
  }

  lemma SuccessorIs(windows: Windows, ins: Instruction, b: Address)
    requires b in Successors(windows, ins) || b in Calls(ins)
    ensures ins.target == Some(b) || NextAddress(windows, ins.address, |ins.bytes|) == Some(b)
  {
  }

  /** Static flow from a captured address only reaches captured addresses. */
  lemma FlowStaysInWindow(prg: seq<Byte>, windows: Windows, a: Address, b: Address)
    requires InWindow(windows, a) && Decode(prg, windows, a).Some?
    requires var ins := Decode(prg, windows, a).value;
      b in Successors(windows, ins) || b in Calls(ins)
    ensures InWindow(windows, b)
  {
    var ins := Decode(prg, windows, a).value;
    SuccessorIs(windows, ins, b);
    TargetInWindow(prg, windows, a);
    if ins.target != Some(b) {
      ResolveInWindow(windows, a, a.cpu + |ins.bytes|);
    }
  }

  /** The byte the CPU reads at a ROM address while the captured windows are in place. */
  function RomByte(prg: seq<Byte>, windows: Windows, cpu: Word): Option<Byte> {
    match MapCpuAddr(windows, cpu)
    case None => None
    case Some(a) => ReadPhysical(prg, a)
  }

  lemma SlotBytes(prg: seq<Byte>, windows: Windows, a: Address, cpu: Word)
    requires InWindow(windows, a) && a.cpu <= cpu
    ensures ReadByte(prg, windows, a, cpu) == RomByte(prg, windows, cpu)
  {
  }

  /** The bytes of a decoded instruction are the ones the CPU would fetch. */
  lemma DecodedBytesAreFetched(prg: seq<Byte>, windows: Windows, a: Address)
    requires InWindow(windows, a) && Decode(prg, windows, a).Some?
    ensures var ins := Decode(prg, windows, a).value;
      |ins.bytes| == InstructionLen(ins.bytes[0]) && ins.flow == FlowOf(ins.bytes[0]) &&
      a.cpu + |ins.bytes| <= 0x1_0000 &&
      forall i :: 0 <= i < |ins.bytes| ==>
        a.cpu + i <= 0xFFFF && RomByte(prg, windows, a.cpu + i) == Some(ins.bytes[i])
  {
    var ins := Decode(prg, windows, a).value;
    var len := |ins.bytes|;
    ReadBytesAt(prg, windows, a, 0, len, 0);
    ReadBytesAt(prg, windows, a, 0, len, len - 1);
    forall i | 0 <= i < len
      ensures a.cpu + i <= 0xFFFF && RomByte(prg, windows, a.cpu + i) == Some(ins.bytes[i])
    {
      ReadBytesAt(prg, windows, a, 0, len, i);
      SlotBytes(prg, windows, a, a.cpu + i);
    }
  }
}
