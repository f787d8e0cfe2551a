/**
Soundness of the static decoder against the executor: whatever the registers and flags, the
program counter after an instruction is one of the successors the decoder lists for it.
*/
module StaticFlow {
  import opened Options
  import opened MachineWords
  import opened Decoder
  import opened Cpu

  lemma LengthInRows0(opcode: Byte, column: int)
    requires !TemplateOf(opcode).Unofficial? && 0x0 <= opcode < 0x20 && column == opcode % 0x10
    ensures InstructionLen(opcode) == ColumnLength(opcode, column, opcode >= 0x10)
  {
  }

  lemma LengthInRows2(opcode: Byte, column: int)
    requires !TemplateOf(opcode).Unofficial? && 0x20 <= opcode < 0x40 && column == opcode % 0x10
    ensures InstructionLen(opcode) == ColumnLength(opcode, column, opcode >= 0x30)
  {
  }

  lemma LengthInRows4(opcode: Byte, column: int)
    requires !TemplateOf(opcode).Unofficial? && 0x40 <= opcode < 0x60 && column == opcode % 0x10
    ensures InstructionLen(opcode) == ColumnLength(opcode, column, opcode >= 0x50)
  {
  }

  lemma LengthInRows6(opcode: Byte, column: int)
    requires !TemplateOf(opcode).Unofficial? && 0x60 <= opcode < 0x80 && column == opcode % 0x10
    ensures InstructionLen(opcode) == ColumnLength(opcode, column, opcode >= 0x70)
  {
  }

  lemma LengthInRows8(opcode: Byte, column: int)
    requires !TemplateOf(opcode).Unofficial? && 0x80 <= opcode < 0xA0 && column == opcode % 0x10
    ensures InstructionLen(opcode) == ColumnLength(opcode, column, opcode >= 0x90)
  {
  }

  lemma LengthInRowsA(opcode: Byte, column: int)
    requires !TemplateOf(opcode).Unofficial? && 0xA0 <= opcode < 0xC0 && column == opcode % 0x10
    ensures InstructionLen(opcode) == ColumnLength(opcode, column, opcode >= 0xB0)
  {
  }

  lemma LengthInRowsC(opcode: Byte, column: int)
    requires !TemplateOf(opcode).Unofficial? && 0xC0 <= opcode < 0xE0 && column == opcode % 0x10
    ensures InstructionLen(opcode) == ColumnLength(opcode, column, opcode >= 0xD0)
  {
  }

  lemma LengthInRowsE(opcode: Byte, column: int)
    requires !TemplateOf(opcode).Unofficial? && 0xE0 <= opcode < 0x100 && column == opcode % 0x10
    ensures InstructionLen(opcode) == ColumnLength(opcode, column, opcode >= 0xF0)
  {
  }

  lemma ListedIsOfficial(opcode: Byte)
    requires FlowOf(opcode) != Unknown
    ensures !TemplateOf(opcode).Unofficial?
  {
  }

  lemma LengthInLowRows(opcode: Byte, column: int)
    requires !TemplateOf(opcode).Unofficial? && opcode < 0x80 && column == opcode % 0x10
    ensures InstructionLen(opcode) == ColumnLength(opcode, column, opcode % 0x20 >= 0x10)
  {
    if opcode < 0x20 {
      LengthInRows0(opcode, column);
    } else if opcode < 0x40 {
      LengthInRows2(opcode, column);
    } else if opcode < 0x60 {
      LengthInRows4(opcode, column);
    } else {
      LengthInRows6(opcode, column);
    }
  }

  lemma LengthInHighRows(opcode: Byte, column: int)
    requires !TemplateOf(opcode).Unofficial? && opcode >= 0x80 && column == opcode % 0x10
    ensures InstructionLen(opcode) == ColumnLength(opcode, column, opcode % 0x20 >= 0x10)
  {
    if opcode < 0xA0 {
      LengthInRows8(opcode, column);
    } else if opcode < 0xC0 {
      LengthInRowsA(opcode, column);
    } else if opcode < 0xE0 {
      LengthInRowsC(opcode, column);
    } else {
      LengthInRowsE(opcode, column);
    }
  }

  /** Instruction lengths by the columns of the opcode matrix, for every opcode that is listed. */
  lemma LengthByColumn(opcode: Byte)
    requires FlowOf(opcode) != Unknown
    ensures InstructionLen(opcode) == ColumnLength(opcode, opcode % 0x10, opcode % 0x20 >= 0x10)
  {
    ListedIsOfficial(opcode);
    if opcode < 0x80 {
      LengthInLowRows(opcode, opcode % 0x10);
    } else {
      LengthInHighRows(opcode, opcode % 0x10);
    }
  }

  function ColumnLength(opcode: Byte, column: int, oddRow: bool): int {
    if column == 0x8 || column == 0xA || opcode in {0x00, 0x40, 0x60} then 1
    else if column >= 0xC || opcode == 0x20 || (column == 0x9 && oddRow) then 3
    else 2
  }

  /** How an addressing mode is displayed. */
  function Shown(mode: Mode): Template {
    match mode
    case Imm => Immediate
    case Zp => ZeroPage
    case ZpX => ZeroPageX
    case ZpY => ZeroPageY
    case Abs => Absolute
    case AbsX => AbsoluteX
    case AbsY => AbsoluteY
    case IndX => IndirectX
    case IndY => IndirectY
  }

  lemma LoadModes(opcode: Byte)
    requires OperationOf(opcode).Load?
    ensures TemplateOf(opcode) == Shown(OperationOf(opcode).mode)
  {
    match OperationOf(opcode).mode
    case Imm =>
    case Zp =>
    case ZpX =>
    case ZpY =>
    case Abs =>
    case AbsX =>
    case AbsY =>
    case IndX =>
    case IndY =>
  }

  lemma StoreModes(opcode: Byte)
    requires OperationOf(opcode).Store?
    ensures TemplateOf(opcode) == Shown(OperationOf(opcode).mode)
  {
    assert 0x80 <= opcode < 0xA0;
  }

  lemma ModifyModes(opcode: Byte)
    requires OperationOf(opcode).Modify?
    ensures TemplateOf(opcode) == Shown(OperationOf(opcode).mode)
  {
    if opcode < 0x40 {
    } else if opcode < 0x80 {
    } else {
    }
  }

  lemma PlainModes(opcode: Byte)
    requires var op := OperationOf(opcode); op.Inherent? || op.PushRegister? || op.PullRegister?
    ensures TemplateOf(opcode).Plain? || TemplateOf(opcode).Accumulator?
    ensures !IsBranch(opcode)
  {
    if OperationOf(opcode).Inherent? {
    } else if OperationOf(opcode).PushRegister? {
    }
  }

  lemma ControlModes(opcode: Byte)
    requires var op := OperationOf(opcode); op.BranchIf? || op.CallSub? || op.JumpTo?
    ensures IsBranch(opcode) <==> OperationOf(opcode).BranchIf?
    ensures !IsBranch(opcode) ==> TemplateOf(opcode) == Absolute
  {
  }

  lemma TransferLengths(opcode: Byte)
    requires var op := OperationOf(opcode); op.Load? || op.Store? || op.Modify?
    ensures InstructionLen(opcode) == Length(OperationOf(opcode))
  {
    if OperationOf(opcode).Load? {
      LoadModes(opcode);
    } else if OperationOf(opcode).Store? {
      StoreModes(opcode);
    } else {
      ModifyModes(opcode);
    }
  }

  lemma AhxIsUnknown(opcode: Byte)
    requires OperationOf(opcode).StoreAhx?
    ensures FlowOf(opcode) == Unknown
  {
  }

  /** The decoder's operand length is the executor's, for every opcode both accept. */
  lemma LengthsAgree(opcode: Byte)
    requires IsDirect(OperationOf(opcode)) && FlowOf(opcode) != Unknown
    ensures InstructionLen(opcode) == Length(OperationOf(opcode))
  {
    var op := OperationOf(opcode);
    if op.Load? || op.Store? || op.Modify? {
      TransferLengths(opcode);
    } else if op.BranchIf? || op.CallSub? || op.JumpTo? {
      ControlModes(opcode);
    } else if op.StoreAhx? {
      AhxIsUnknown(opcode);
    } else {
      PlainModes(opcode);
    }
  }

  /** The length of a direct operation, opcode included. */
  function Length(op: Operation): nat
    requires IsDirect(op)
  {
    if op.BranchIf? then 2 else if op.CallSub? || op.JumpTo? then 3 else 1 + DataOperandLen(op)
  }

  /** Flow kinds sort the operations by where they go. */
  predicate KindOf(flow: Flow, op: Operation) {
    match flow
    case Fallthrough => IsData(op)
    case Call => op.CallSub?
    case Jump => op.JumpTo? || op.JumpThrough?
    case Branch => op.BranchIf?
    case Return => op.ReturnSub? || op.ReturnInterrupt?
    case Stop => op.Break?
    case Unknown => false
  }

  lemma KindsAgree(opcode: Byte)
    requires FlowOf(opcode) != Unknown && OperationOf(opcode) != Unimplemented
    ensures KindOf(FlowOf(opcode), OperationOf(opcode))
    ensures OperationOf(opcode).JumpThrough? <==> opcode == 0x6C
  {
  }

  /**
  The two opcode tables differ in exactly two places: the decoder takes $EB for an ordinary
  instruction although the executor stops on it, and ends paths at $9F although the executor
  runs it.
  */
  lemma TablesDiffer(opcode: Byte)
    ensures (FlowOf(opcode) != Unknown <==> OperationOf(opcode) != Unimplemented)
       <==> opcode != 0xEB && opcode != 0x9F
    ensures opcode == 0xEB ==> FlowOf(opcode) == Fallthrough && OperationOf(opcode) == Unimplemented
    ensures opcode == 0x9F ==> FlowOf(opcode) == Unknown && OperationOf(opcode) == StoreAhx
  {
  }

  /** Where the executor can go from a decoded address with flags `p`, windows unchanged. */
  function StepTarget(prg: seq<Byte>, windows: Windows, a: Address, p: Byte): Word
    requires Decode(prg, windows, a).Some?
    requires IsDirect(OperationOf(Decode(prg, windows, a).value.bytes[0]))
  {
    PcAfter(OperationOf(Decode(prg, windows, a).value.bytes[0]),
            Known(RomByte(prg, windows, Wrap(a.cpu + 1))),
            Known(RomByte(prg, windows, Wrap(a.cpu + 2))), a.cpu, p)
  }

  /** An instruction whose next address is fixed by its bytes and the flags. */
  predicate DirectAt(prg: seq<Byte>, windows: Windows, a: Address) {
    var ins := Decode(prg, windows, a);
    ins.Some? && ins.value.flow != Unknown && IsDirect(OperationOf(ins.value.bytes[0]))
  }

  /** A direct operation goes on to the following address or to the target its bytes encode. */
  lemma TargetListed(
    a: Address, flow: Flow, op: Operation, bytes: seq<Byte>, lo: Byte, hi: Byte, p: Byte)
    requires IsDirect(op) && KindOf(flow, op) && |bytes| == Length(op) && bytes[0] != 0x6C
    requires (|bytes| > 1 ==> lo == bytes[1]) && (|bytes| > 2 ==> hi == bytes[2])
    ensures Listed(flow, Wrap(a.cpu + |bytes|), TargetCpu(a, flow, bytes), PcAfter(op, lo, hi, a.cpu, p))
  {
    WrapAdd(a.cpu + 2, Signed(lo));
  }

  predicate Listed(flow: Flow, next: Word, target: Option<Word>, pc: Word) {
    match flow
    case Fallthrough => pc == next
    case Branch => pc == next || target == Some(pc)
    case _ => target == Some(pc)
  }

  predicate BytesAt(prg: seq<Byte>, windows: Windows, cpu: Word, bytes: seq<Byte>) {
    forall i :: 0 <= i < |bytes| ==>
      cpu + i <= 0xFFFF && RomByte(prg, windows, cpu + i) == Some(bytes[i])
  }

  predicate OperandsAt(prg: seq<Byte>, windows: Windows, cpu: Word, bytes: seq<Byte>) {
    |bytes| >= 1 && RomByte(prg, windows, cpu) == Some(bytes[0]) &&
    (|bytes| > 1 ==> RomByte(prg, windows, Wrap(cpu + 1)) == Some(bytes[1])) &&
    (|bytes| > 2 ==> RomByte(prg, windows, Wrap(cpu + 2)) == Some(bytes[2]))
  }

  lemma OperandsOfBytes(prg: seq<Byte>, windows: Windows, cpu: Word, bytes: seq<Byte>)
    requires |bytes| >= 1 && BytesAt(prg, windows, cpu, bytes)
    ensures OperandsAt(prg, windows, cpu, bytes)
  {
    var first := bytes[0];
    assert RomByte(prg, windows, cpu + 0) == Some(first);
    if |bytes| > 1 {
      var second := bytes[1];
      assert RomByte(prg, windows, Wrap(cpu + 1)) == Some(second);
    }
    if |bytes| > 2 {
      var third := bytes[2];
      assert RomByte(prg, windows, Wrap(cpu + 2)) == Some(third);
    }
  }

  lemma OperandsFetched(prg: seq<Byte>, windows: Windows, a: Address)
    requires InWindow(windows, a) && Decode(prg, windows, a).Some?
    ensures OperandsAt(prg, windows, a.cpu, Decode(prg, windows, a).value.bytes)
  {
    DecodedBytesAreFetched(prg, windows, a);
    OperandsOfBytes(prg, windows, a.cpu, Decode(prg, windows, a).value.bytes);
  }

  /** The next program counter is the following address or the decoded target. */
  lemma StepIsListed(prg: seq<Byte>, windows: Windows, a: Address, p: Byte)
    requires InWindow(windows, a) && DirectAt(prg, windows, a)
    ensures var ins := Decode(prg, windows, a).value;
      Listed(ins.flow, Wrap(a.cpu + |ins.bytes|), ins.targetCpu, StepTarget(prg, windows, a, p))
  {
    var ins := Decode(prg, windows, a).value;
    var op := OperationOf(ins.bytes[0]);
    DecodedBytesAreFetched(prg, windows, a);
    OperandsFetched(prg, windows, a);
    LengthsAgree(ins.bytes[0]);
    KindsAgree(ins.bytes[0]);
    TargetListed(a, ins.flow, op, ins.bytes, Known(RomByte(prg, windows, Wrap(a.cpu + 1))),
                 Known(RomByte(prg, windows, Wrap(a.cpu + 2))), p);
  }

  lemma ListedIsSuccessor(windows: Windows, ins: Instruction, pc: Word, b: Address)
    requires InWindow(windows, ins.address) && ins.address.cpu + |ins.bytes| <= 0x1_0000
    requires ins.flow.Fallthrough? || ins.flow.Branch? || ins.flow.Call? || ins.flow.Jump?
    requires ins.target == if ins.targetCpu.None? then None
                           else ResolveTarget(windows, ins.address, ins.targetCpu.value)
    requires Listed(ins.flow, Wrap(ins.address.cpu + |ins.bytes|), ins.targetCpu, pc)
    requires MapCpuAddr(windows, pc) == Some(b)
    ensures b in Successors(windows, ins) || b in Calls(ins)
  {
    ResolveInWindow(windows, ins.address, pc);
    if ins.targetCpu == Some(pc) {
      assert b in Optional(ins.target);
    } else {
      assert ins.address.cpu + |ins.bytes| <= 0xFFFF;
      assert b in Optional(NextAddress(windows, ins.address, |ins.bytes|));
    }
  }

  lemma DirectFlow(opcode: Byte)
    requires IsDirect(OperationOf(opcode)) && FlowOf(opcode) != Unknown
    ensures var flow := FlowOf(opcode);
      flow.Fallthrough? || flow.Branch? || flow.Call? || flow.Jump?
  {
    KindsAgree(opcode);
  }

  /**
  Decoder soundness: if the next program counter lies in ROM, its address is one of the
  instruction's static successors or its call target.
  */
  lemma StepIsSuccessor(prg: seq<Byte>, windows: Windows, a: Address, p: Byte, b: Address)
    requires InWindow(windows, a) && DirectAt(prg, windows, a)
    requires MapCpuAddr(windows, StepTarget(prg, windows, a, p)) == Some(b)
    ensures var ins := Decode(prg, windows, a).value;
      b in Successors(windows, ins) || b in Calls(ins)
  {
    var ins := Decode(prg, windows, a).value;
    StepIsListed(prg, windows, a, p);
    DecodedBytesAreFetched(prg, windows, a);
    DirectFlow(ins.bytes[0]);
    ListedIsSuccessor(windows, ins, StepTarget(prg, windows, a, p), b);
  }

  // ----- the same from the bytes alone

  /** Where the bytes of a direct instruction and the flags lead, whatever the operation table says. */
  function SpelledNext(bytes: seq<Byte>, pc: Word, p: Byte): int {
    if |bytes| == 2 && bytes[0] % 0x20 == 0x10 then BranchGoes(bytes[0], bytes[1], pc, p)
    else if |bytes| == 3 && (bytes[0] == 0x20 || bytes[0] == 0x4C) then bytes[1] + 0x100 * bytes[2]
    else (pc + |bytes|) % 0x1_0000
  }

  lemma TransferOpcodes(opcode: Byte)
    ensures OperationOf(opcode).CallSub? <==> opcode == 0x20
    ensures OperationOf(opcode).JumpTo? <==> opcode == 0x4C
  {
  }

  lemma PcSpelled(bytes: seq<Byte>, lo: Byte, hi: Byte, pc: Word, p: Byte)
    requires bytes != [] && IsDirect(OperationOf(bytes[0])) && |bytes| == Length(OperationOf(bytes[0]))
    requires (|bytes| > 1 ==> lo == bytes[1]) && (|bytes| > 2 ==> hi == bytes[2])
    ensures PcAfter(OperationOf(bytes[0]), lo, hi, pc, p) == SpelledNext(bytes, pc, p)
  {
    BranchLaw(bytes[0], lo, hi, pc, p);
    TransferOpcodes(bytes[0]);
  }

  /** The next program counter, spelled out from the decoded bytes and the status register. */
  lemma StepSpelled(prg: seq<Byte>, windows: Windows, a: Address, p: Byte)
    requires InWindow(windows, a) && DirectAt(prg, windows, a)
    ensures StepTarget(prg, windows, a, p) == SpelledNext(Decode(prg, windows, a).value.bytes, a.cpu, p)
  {
    var bytes := Decode(prg, windows, a).value.bytes;
    DecodedBytesAreFetched(prg, windows, a);
    OperandsFetched(prg, windows, a);
    LengthsAgree(bytes[0]);
    PcSpelled(bytes, Known(RomByte(prg, windows, Wrap(a.cpu + 1))),
              Known(RomByte(prg, windows, Wrap(a.cpu + 2))), a.cpu, p);
  }

  lemma TestedBitTakes(opcode: Byte, lo: Byte, pc: Word) returns (taken: Byte, passed: Byte)
    requires opcode % 0x20 == 0x10
    ensures BranchGoes(opcode, lo, pc, taken) == Wrap(pc + 2 + Signed(lo))
    ensures BranchGoes(opcode, lo, pc, passed) == Wrap(pc + 2)
  {
    taken, passed := if (opcode / 0x20) % 2 == 1 then 0xFF else 0, if (opcode / 0x20) % 2 == 1 then 0 else 0xFF;
  }

  /** The decoder encodes `pc` as the target or the next address of these bytes. */
  predicate Encoded(a: Address, flow: Flow, bytes: seq<Byte>, pc: Word)
    requires bytes != []
  {
    TargetCpu(a, flow, bytes) == Some(pc) ||
    ((flow.Fallthrough? || flow.Branch?) && pc == Wrap(a.cpu + |bytes|))
  }

  /** Every address that the decoder encodes can be the next one. */
  lemma EncodedIsPossible(a: Address, flow: Flow, bytes: seq<Byte>, pc: Word) returns (p: Byte)
    requires bytes != [] && IsDirect(OperationOf(bytes[0])) && flow == FlowOf(bytes[0]) != Unknown
    requires |bytes| == InstructionLen(bytes[0]) && Encoded(a, flow, bytes, pc)
    ensures SpelledNext(bytes, a.cpu, p) == pc
  {
    FlowOpcodes(bytes[0]);
    p := 0;
    if flow.Branch? {
      var taken, passed := TestedBitTakes(bytes[0], bytes[1], a.cpu);
      WrapAdd(a.cpu + 2, Signed(bytes[1]));
      p := if TargetCpu(a, flow, bytes) == Some(pc) then taken else passed;
    }
  }

  lemma FlowOpcodes(opcode: Byte)
    requires IsDirect(OperationOf(opcode)) && FlowOf(opcode) != Unknown
    ensures FlowOf(opcode) == Branch <==> opcode % 0x20 == 0x10
    ensures FlowOf(opcode) == Call || FlowOf(opcode) == Jump <==> opcode == 0x20 || opcode == 0x4C
    ensures FlowOf(opcode) == Branch ==> InstructionLen(opcode) == 2
    ensures opcode == 0x20 || opcode == 0x4C ==> InstructionLen(opcode) == 3
  {
    KindsAgree(opcode);
    BranchOpcodes(opcode);
    TransferOpcodes(opcode);
    LengthsAgree(opcode);
  }

  lemma SuccessorEncoded(windows: Windows, ins: Instruction, b: Address) returns (pc: Word)
    requires InWindow(windows, ins.address) && ins.bytes != []
    requires ins.targetCpu == TargetCpu(ins.address, ins.flow, ins.bytes)
    requires ins.target == if ins.targetCpu.None? then None
                           else ResolveTarget(windows, ins.address, ins.targetCpu.value)
    requires (b in Successors(windows, ins) && !ins.flow.Call?) || b in Calls(ins)
    ensures Encoded(ins.address, ins.flow, ins.bytes, pc) && MapCpuAddr(windows, pc) == Some(b)
  {
    SuccessorIs(windows, ins, b);
    if ins.target == Some(b) {
      pc := ins.targetCpu.value;
    } else {
      pc := ins.address.cpu + |ins.bytes|;
    }
    ResolveInWindow(windows, ins.address, pc);
  }

  /**
  Decoder precision: every successor of a direct instruction that is not the return address of a call,
  and every call target, is where some flags lead.
  */
  lemma SuccessorIsPossible(prg: seq<Byte>, windows: Windows, a: Address, b: Address)
    requires InWindow(windows, a) && DirectAt(prg, windows, a)
    requires var ins := Decode(prg, windows, a).value;
      (b in Successors(windows, ins) && !ins.flow.Call?) || b in Calls(ins)
    ensures exists p: Byte :: MapCpuAddr(windows, StepTarget(prg, windows, a, p)) == Some(b)
  {
    var ins := Decode(prg, windows, a).value;
    DecodedBytesAreFetched(prg, windows, a);
    var pc := SuccessorEncoded(windows, ins, b);
    var p := EncodedIsPossible(a, ins.flow, ins.bytes, pc);
    StepSpelled(prg, windows, a, p);
  }

  /** Inside its own 8 KiB slot code keeps its bank, captured or not: a jump there stays in the bank. */
  lemma JumpKeepsBank(prg: seq<Byte>, windows: Windows, a: Address, lo: Byte, hi: Byte, index: nat)
    requires index == a.bank * 0x2000 + a.cpu % 0x2000 && index + 2 < |prg| && a.cpu % 0x2000 < 0x1FFE
    requires prg[index] == 0x4C && prg[index + 1] == lo && prg[index + 2] == hi
    requires a.cpu >= 0x8000 && (lo + 0x100 * hi) / 0x2000 == a.cpu / 0x2000
    ensures Decode(prg, windows, a).Some?
    ensures Successors(windows, Decode(prg, windows, a).value) == [Address(a.bank, lo + 0x100 * hi)]
  {
    JumpBytes(prg, windows, a, index);
    JumpDecoded(prg, windows, a, lo, hi);
  }

  lemma JumpDecoded(prg: seq<Byte>, windows: Windows, a: Address, lo: Byte, hi: Byte)
    requires ReadPhysical(prg, a) == Some(0x4C) && ReadBytes(prg, windows, a, 0, 3) == Some([0x4C, lo, hi])
    requires a.cpu >= 0x8000 && (lo + 0x100 * hi) / 0x2000 == a.cpu / 0x2000
    ensures Decode(prg, windows, a).Some?
    ensures Successors(windows, Decode(prg, windows, a).value) == [Address(a.bank, lo + 0x100 * hi)]
  {
    assert InstructionLen(0x4C) == 3 && FlowOf(0x4C) == Jump;
    var target: Word := lo + 0x100 * hi;
    assert ResolveTarget(windows, a, target) == Some(Address(a.bank, target));
  }

  lemma ReadOne(
    prg: seq<Byte>, windows: Windows, a: Address, offset: nat, next: nat, byte: Byte, rest: seq<Byte>)
    requires next == offset + 1 <= 3 && a.cpu + offset <= 0xFFFF
    requires ReadByte(prg, windows, a, a.cpu + offset) == Some(byte)
    requires ReadBytes(prg, windows, a, next, 3) == Some(rest)
    ensures ReadBytes(prg, windows, a, offset, 3) == Some([byte] + rest)
  {
  }

  lemma JumpBytes(prg: seq<Byte>, windows: Windows, a: Address, index: nat)
    requires index == a.bank * 0x2000 + a.cpu % 0x2000 && index + 2 < |prg| && a.cpu % 0x2000 < 0x1FFE
    ensures ReadPhysical(prg, a) == Some(prg[index])
    ensures ReadBytes(prg, windows, a, 0, 3) == Some([prg[index], prg[index + 1], prg[index + 2]])
  {
    SlotByte(prg, windows, a, index, 0);
    SlotByte(prg, windows, a, index, 1);
    SlotByte(prg, windows, a, index, 2);
    var first, second, third := prg[index], prg[index + 1], prg[index + 2];
    ReadOne(prg, windows, a, 2, 3, third, []);
    assert [third] + [] == [third];
    ReadOne(prg, windows, a, 1, 2, second, [third]);
    assert [second] + [third] == [second, third];
    ReadOne(prg, windows, a, 0, 1, first, [second, third]);
    assert [first] + [second, third] == [first, second, third];
  }

  lemma SlotByte(prg: seq<Byte>, windows: Windows, a: Address, index: nat, k: nat)
    requires index == a.bank * 0x2000 + a.cpu % 0x2000 && index + 2 < |prg| && a.cpu % 0x2000 < 0x1FFE && k < 3
    ensures a.cpu + k <= 0xFFFF && ReadByte(prg, windows, a, a.cpu + k) == Some(prg[index + k])
  {
    assert (a.cpu + k) / 0x2000 == a.cpu / 0x2000 && (a.cpu + k) % 0x2000 == a.cpu % 0x2000 + k;
  }

  /** Executing a decoded instruction leaves the program counter where the decoder expects it. */
  method ExecuteDecoded(cpu: CpuState, bus: Bus, a: Address) returns (ok: bool)
    requires cpu.pc == a.cpu && InWindow(bus.windows, a) && DirectAt(bus.prg, bus.windows, a)
    modifies cpu, bus
    ensures ok && cpu.pc == StepTarget(bus.prg, old(bus.windows), a, old(cpu.p))
    ensures cpu.pc == SpelledNext(Decode(bus.prg, old(bus.windows), a).value.bytes, a.cpu, old(cpu.p))
  {
    StepSpelled(bus.prg, bus.windows, a, cpu.p);
    OperandsFetched(bus.prg, bus.windows, a);
    DecodedBytesAreFetched(bus.prg, bus.windows, a);
    LengthsAgree(Decode(bus.prg, bus.windows, a).value.bytes[0]);
    ok := cpu.Execute(bus);
  }
}
