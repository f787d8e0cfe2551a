/** The recovered graph against the static flow it was recovered from. */
module GraphFlow {
  import opened Blocks
  import opened ControlFlow
  import opened Decoder
  import opened MachineWords
  import opened Options
  import Worklist

  /** One step of static flow that stays in the function. */
  predicate Flows(code: seq<Instruction>, windows: Windows, ins: Instruction, b: Address) {
    b in Successors(windows, ins) && HasKey(code, b)
  }

  /** One edge of an instruction, by the sorted map, that stays in the function. */
  predicate IsLinkedTo(code: seq<Instruction>, ins: Instruction, b: Address) {
    b in EdgeAddresses(code, ins) && HasKey(code, b)
  }

  /** The address that follows `ins` in its windows, if it is in the function. */
  function NextIn(code: seq<Instruction>, windows: Windows, ins: Instruction): Option<Address> {
    var next := NextAddress(windows, ins.address, |ins.bytes|);
    if next.Some? && HasKey(code, next.value) then next else None
  }

  predicate FallsThrough(ins: Instruction) {
    ins.flow.Fallthrough? || ins.flow.Call? || ins.flow.Branch?
  }

  /** Nothing, or where the branch leads anyway. */
  predicate Adds(ins: Instruction, next: Option<Address>) {
    next.Some? && !(ins.flow.Branch? && ins.target == next)
  }

  /** The next key of the sorted map is the following address, so far as it matters. */
  predicate NextAgrees(code: seq<Instruction>, windows: Windows, ins: Instruction) {
    var key, next := NextKey(code, ins.address), NextIn(code, windows, ins);
    FallsThrough(ins) && (Adds(ins, key) || Adds(ins, next)) ==> key == next
  }

  lemma {:induction false} NextKeyListed(code: seq<Instruction>, a: Address)
    requires NextKey(code, a).Some?
    ensures HasKey(code, NextKey(code, a).value)
    decreases |code|
  {
    if Key(a) < Key(code[0].address) {
      assert code[0].address == NextKey(code, a).value;
    } else {
      NextKeyListed(code[1..], a);
      var i :| 0 <= i < |code| - 1 && code[1..][i].address == NextKey(code, a).value;
      assert code[i + 1].address == NextKey(code, a).value;
    }
  }

  /** The edges of an instruction are its static successors exactly when its next key agrees. */
  lemma EdgesAreFlowIff(code: seq<Instruction>, windows: Windows, ins: Instruction)
    ensures (forall b :: IsLinkedTo(code, ins, b) <==> Flows(code, windows, ins, b)) <==>
      NextAgrees(code, windows, ins)
  {
    var key, next := NextKey(code, ins.address), NextIn(code, windows, ins);
    if key.Some? {
      NextKeyListed(code, ins.address);
    }
    if FallsThrough(ins) && Adds(ins, key) {
      assert IsLinkedTo(code, ins, key.value);
      assert Flows(code, windows, ins, key.value) <==> next == key;
    }
    if FallsThrough(ins) && Adds(ins, next) {
      assert Flows(code, windows, ins, next.value);
      assert IsLinkedTo(code, ins, next.value) <==> next == key;
    }
  }

  // ----- links of whole blocks

  ghost predicate LinksAreFlow(code: seq<Instruction>, windows: Windows, block: Block)
    requires block.instructions != []
  {
    forall b :: b in block.successors <==> Flows(code, windows, Last(block), b)
  }

  /**
  The links of every block are exactly the static successors in the function if and only if the next
  key agrees for every last instruction.
  */
  lemma LinksAreFlowIff(code: seq<Instruction>, windows: Windows, blocks: seq<Block>)
    requires WellFormed(code, blocks)
    ensures (forall m :: 0 <= m < |blocks| ==> LinksAreFlow(code, windows, blocks[m])) <==>
      (forall m :: 0 <= m < |blocks| ==> NextAgrees(code, windows, Last(blocks[m])))
  {
    forall m | 0 <= m < |blocks|
      ensures LinksAreFlow(code, windows, blocks[m]) <==> NextAgrees(code, windows, Last(blocks[m]))
    {
      var last := Last(blocks[m]);
      assert HasExactEdges(code, blocks[m]);
      assert forall b :: b in blocks[m].successors <==> IsLinkedTo(code, last, b);
      EdgesAreFlowIff(code, windows, last);
    }
  }

  // ----- steps inside and between blocks

  /** Line `k` of a block is at `a` and the next one at `b`. */
  predicate StandsBefore(lines: seq<Instruction>, k: nat, a: Address, b: Address) {
    k + 1 < |lines| && lines[k].address == a && lines[k + 1].address == b
  }

  /** From an instruction of a block to the next one, or along a link from its last one. */
  predicate IsStep(block: Block, a: Address, b: Address) {
    (exists k: nat :: k < |block.instructions| && StandsBefore(block.instructions, k, a, b)) ||
    (block.instructions != [] && Last(block).address == a && b in block.successors)
  }

  predicate GraphStep(blocks: seq<Block>, a: Address, b: Address) {
    exists m :: 0 <= m < |blocks| && IsStep(blocks[m], a, b)
  }

  predicate FlowStep(code: seq<Instruction>, windows: Windows, a: Address, b: Address) {
    exists i :: 0 <= i < |code| && code[i].address == a && Flows(code, windows, code[i], b)
  }

  /** Where block `m` begins in the code. */
  function Place(blocks: seq<Block>, m: nat): nat
    requires m <= |blocks|
  {
    |Joined(blocks[..m])|
  }

  lemma {:induction false} JoinedAt(blocks: seq<Block>, m: nat, k: nat)
    requires m < |blocks| && k < |blocks[m].instructions|
    ensures Place(blocks, m) + k < |Joined(blocks)|
    ensures Joined(blocks)[Place(blocks, m) + k] == blocks[m].instructions[k]
    decreases |blocks|
  {
    var front := blocks[..|blocks| - 1];
    if m >= |front| {
    } else {
      assert front[..m] == blocks[..m];
      JoinedAt(front, m, k);
    }
  }

  lemma {:induction false} JoinedWhere(blocks: seq<Block>, i: nat) returns (m: nat, k: nat)
    requires i < |Joined(blocks)|
    ensures m < |blocks| && k < |blocks[m].instructions| && Place(blocks, m) + k == i
    decreases |blocks|
  {
    var front := blocks[..|blocks| - 1];
    if i < |Joined(front)| {
      m, k := JoinedWhere(front, i);
      assert front[..m] == blocks[..m];
    } else {
      m, k := |front|, i - |Joined(front)|;
    }
  }

  /** Instructions of a block stand one after the other in the code, each at its own address. */
  lemma PlacesInCode(code: seq<Instruction>, blocks: seq<Block>, m: nat, j: nat, k: nat)
    requires Sorted(code) && Joined(blocks) == code && m < |blocks|
    requires j < |blocks[m].instructions| && k < |blocks[m].instructions|
    ensures blocks[m].instructions[j].address == blocks[m].instructions[k].address ==> j == k
    ensures k > 0 ==>
      NextKey(code, blocks[m].instructions[k - 1].address) == Some(blocks[m].instructions[k].address)
  {
    var place := Place(blocks, m);
    JoinedAt(blocks, m, j);
    JoinedAt(blocks, m, k);
    if k > 0 {
      JoinedAt(blocks, m, k - 1);
      NextKeyAt(code, place + (k - 1));
    }
  }

  lemma StepInside(code: seq<Instruction>, blocks: seq<Block>, m: nat, k: nat, b: Address)
    requires Sorted(code) && Joined(blocks) == code && m < |blocks|
    requires k + 1 < |blocks[m].instructions|
    ensures IsStep(blocks[m], blocks[m].instructions[k].address, b) <==>
      b == blocks[m].instructions[k + 1].address
  {
    var lines := blocks[m].instructions;
    forall j: nat | j < |lines| && StandsBefore(lines, j, lines[k].address, b)
      ensures b == lines[k + 1].address
    {
      PlacesInCode(code, blocks, m, j, k);
    }
    PlacesInCode(code, blocks, m, |lines| - 1, k);
    assert StandsBefore(lines, k, lines[k].address, lines[k + 1].address);
  }

  lemma EdgeInside(code: seq<Instruction>, blocks: seq<Block>, m: nat, k: nat, b: Address)
    requires Sorted(code) && Joined(blocks) == code && m < |blocks| && IsStraight(blocks[m])
    requires k + 1 < |blocks[m].instructions|
    ensures IsLinkedTo(code, blocks[m].instructions[k], b) <==>
      b == blocks[m].instructions[k + 1].address
  {
    var ins := blocks[m].instructions[k];
    PlacesInCode(code, blocks, m, k + 1, k + 1);
    NextKeyListed(code, ins.address);
    assert !EndsFlow(ins);
  }

  lemma StepAtEnd(code: seq<Instruction>, blocks: seq<Block>, m: nat, last: nat, b: Address)
    requires Sorted(code) && Joined(blocks) == code && m < |blocks|
    requires last + 1 == |blocks[m].instructions|
    ensures IsStep(blocks[m], blocks[m].instructions[last].address, b) <==> b in blocks[m].successors
  {
    var lines := blocks[m].instructions;
    forall j: nat | j < |lines|
      ensures !StandsBefore(lines, j, lines[last].address, b)
    {
      PlacesInCode(code, blocks, m, j, last);
    }
  }

  /** In a well-formed graph the steps from an instruction are its edges. */
  lemma StepsAreEdges(code: seq<Instruction>, blocks: seq<Block>, m: nat, k: nat, b: Address)
    requires Sorted(code) && WellFormed(code, blocks)
    requires m < |blocks| && k < |blocks[m].instructions|
    ensures IsStep(blocks[m], blocks[m].instructions[k].address, b) <==>
      IsLinkedTo(code, blocks[m].instructions[k], b)
  {
    assert IsStraight(blocks[m]) && HasExactEdges(code, blocks[m]);
    if k + 1 < |blocks[m].instructions| {
      StepInside(code, blocks, m, k, b);
      EdgeInside(code, blocks, m, k, b);
    } else {
      StepAtEnd(code, blocks, m, k, b);
    }
  }

  /** The instruction a step starts from. */
  lemma StepStart(block: Block, a: Address, b: Address) returns (j: nat)
    requires IsStep(block, a, b)
    ensures j < |block.instructions| && block.instructions[j].address == a
  {
    if k: nat :| k < |block.instructions| && StandsBefore(block.instructions, k, a, b) {
      j := k;
    } else {
      j := |block.instructions| - 1;
    }
  }

  /** Steps from an address start at its own instruction, whatever block they are seen in. */
  lemma StepFrom(code: seq<Instruction>, blocks: seq<Block>, i: nat, n: nat, b: Address)
    requires Sorted(code) && WellFormed(code, blocks) && i < |code| && n < |blocks|
    requires IsStep(blocks[n], code[i].address, b)
    ensures IsLinkedTo(code, code[i], b)
  {
    var j := StepPlace(code, blocks, i, n, b);
    StepsAreEdges(code, blocks, n, j, b);
  }

  lemma StepPlace(code: seq<Instruction>, blocks: seq<Block>, i: nat, n: nat, b: Address) returns (j: nat)
    requires Sorted(code) && Joined(blocks) == code && i < |code| && n < |blocks|
    requires IsStep(blocks[n], code[i].address, b)
    ensures j < |blocks[n].instructions| && blocks[n].instructions[j] == code[i]
  {
    j := StepStart(blocks[n], code[i].address, b);
    JoinedAt(blocks, n, j);
    SameAddress(code, i, Place(blocks, n) + j);
  }

  lemma SameAddress(code: seq<Instruction>, i: nat, j: nat)
    requires Sorted(code) && i < |code| && j < |code| && code[i].address == code[j].address
    ensures i == j
  {
    assert Key(code[i].address) == Key(code[j].address);
  }

  lemma GraphStepIs(code: seq<Instruction>, blocks: seq<Block>, i: nat, b: Address)
    requires Sorted(code) && WellFormed(code, blocks) && i < |code|
    ensures GraphStep(blocks, code[i].address, b) <==> IsLinkedTo(code, code[i], b)
  {
    var m, k := JoinedWhere(blocks, i);
    JoinedAt(blocks, m, k);
    StepsAreEdges(code, blocks, m, k, b);
    forall n | 0 <= n < |blocks| && IsStep(blocks[n], code[i].address, b)
      ensures IsLinkedTo(code, code[i], b)
    {
      StepFrom(code, blocks, i, n, b);
    }
  }

  lemma FlowStepIs(code: seq<Instruction>, windows: Windows, i: nat, b: Address)
    requires Sorted(code) && i < |code|
    ensures FlowStep(code, windows, code[i].address, b) <==> Flows(code, windows, code[i], b)
  {
    forall j | 0 <= j < |code| && code[j].address == code[i].address
      ensures j == i
    {
      SameAddress(code, i, j);
    }
  }

  ghost predicate GraphIsFlow(code: seq<Instruction>, windows: Windows, blocks: seq<Block>) {
    forall i, b :: 0 <= i < |code| ==>
      (GraphStep(blocks, code[i].address, b) <==> FlowStep(code, windows, code[i].address, b))
  }

  /**
  The graph has exactly the static flow that stays in the function, step by step, if and only if the
  next key agrees for every instruction.
  */
  lemma GraphIsFlowIff(code: seq<Instruction>, windows: Windows, blocks: seq<Block>)
    requires Sorted(code) && WellFormed(code, blocks)
    ensures GraphIsFlow(code, windows, blocks) <==>
      forall i :: 0 <= i < |code| ==> NextAgrees(code, windows, code[i])
  {
    forall i, b | 0 <= i < |code|
      ensures GraphStep(blocks, code[i].address, b) <==> IsLinkedTo(code, code[i], b)
      ensures FlowStep(code, windows, code[i].address, b) <==> Flows(code, windows, code[i], b)
    {
      GraphStepIs(code, blocks, i, b);
      FlowStepIs(code, windows, i, b);
    }
    forall i | 0 <= i < |code|
      ensures NextAgrees(code, windows, code[i]) <==> forall b ::
        (GraphStep(blocks, code[i].address, b) <==> FlowStep(code, windows, code[i].address, b))
    {
      EdgesAreFlowIff(code, windows, code[i]);
    }
  }

  // ----- where they differ

  /** 48 KiB of ROM: a NOP ends bank 5, and bank 2 begins with a return. */
  function AcrossRom(): seq<Byte> {
    seq(0xC000, i => if i == 0xBFFF then 0xEA else if i == 0x4000 then 0x60 else 0)
  }

  /** Bank 5 at $8000 and bank 2 at $A000. */
  function AcrossWindows(): Windows {
    [Some(5), Some(2), None, None]
  }

  function AtEnd(): Address { Address(5, 0x9FFF) }

  function Across(): Address { Address(2, 0xA000) }

  function Nop(): Instruction {
    Instruction(AtEnd(), [0xEA], Fallthrough, None, None)
  }

  function Rts(): Instruction {
    Instruction(Across(), [0x60], Return, None, None)
  }

  lemma OneByteDecoded(prg: seq<Byte>, windows: Windows, a: Address, opcode: Byte)
    requires ReadPhysical(prg, a) == Some(opcode) && InstructionLen(opcode) == 1
    requires FlowOf(opcode) == Fallthrough || FlowOf(opcode) == Return
    ensures Decode(prg, windows, a) == Some(Instruction(a, [opcode], FlowOf(opcode), None, None))
  {
    assert ReadBytes(prg, windows, a, 1, 1) == Some([]);
    assert [opcode] + [] == [opcode];
    assert ReadBytes(prg, windows, a, 0, 1) == Some([opcode]);
  }

  lemma NopDecoded()
    ensures Decode(AcrossRom(), AcrossWindows(), AtEnd()) == Some(Nop())
  {
    assert ReadPhysical(AcrossRom(), AtEnd()) == Some(0xEA);
    assert InstructionLen(0xEA) == 1 && FlowOf(0xEA) == Fallthrough;
    OneByteDecoded(AcrossRom(), AcrossWindows(), AtEnd(), 0xEA);
  }

  lemma RtsDecoded()
    ensures Decode(AcrossRom(), AcrossWindows(), Across()) == Some(Rts())
  {
    assert ReadPhysical(AcrossRom(), Across()) == Some(0x60);
    assert InstructionLen(0x60) == 1 && FlowOf(0x60) == Return;
    OneByteDecoded(AcrossRom(), AcrossWindows(), Across(), 0x60);
  }

  /** Static flow goes from the one to the other, and no further. */
  lemma AcrossFlow()
    ensures Successors(AcrossWindows(), Nop()) == [Across()] && Successors(AcrossWindows(), Rts()) == []
  {
    assert NextAddress(AcrossWindows(), AtEnd(), 1) == Some(Across());
  }

  lemma AcrossReached(a: Address)
    ensures Worklist.Reached(Worklist.CodeOf(AcrossRom(), AcrossWindows()), AtEnd(), a) <==>
      a == AtEnd() || a == Across()
  {
    var code := Worklist.CodeOf(AcrossRom(), AcrossWindows());
    NopDecoded();
    RtsDecoded();
    AcrossFlow();
    Worklist.ReachedStart(code, AtEnd());
    Worklist.ReachedNext(code, AtEnd(), AtEnd(), Across());
    if Worklist.Reached(code, AtEnd(), a) {
      Worklist.ReachedIsLeast(code, AtEnd(), {AtEnd(), Across()}, a);
    }
  }

  /** What the analysis of this function must hold. */
  lemma AcrossAnalyzed(limit: nat, analysis: Worklist.Analysis)
    requires Worklist.Analyzed(Worklist.CodeOf(AcrossRom(), AcrossWindows()), AtEnd(), limit, analysis)
    requires !analysis.truncated
    ensures analysis.instructions == map[AtEnd() := Nop(), Across() := Rts()]
  {
    NopDecoded();
    RtsDecoded();
    AcrossReached(AtEnd());
    AcrossReached(Across());
    forall a | a in analysis.instructions
      ensures a == AtEnd() || a == Across()
    {
      AcrossReached(a);
    }
  }

  /** The code is these two instructions, in some order. */
  ghost predicate IsPair(code: seq<Instruction>) {
    Sorted(code) && forall ins :: ins in code <==> ins == Nop() || ins == Rts()
  }

  lemma WhichOfTwo(code: seq<Instruction>, i: nat, j: nat, k: nat)
    requires IsPair(code) && i < |code| && j < |code| && k < |code| && code[i] == Nop() && code[j] == Rts()
    ensures k == i || k == j
  {
    assert code[k] in code;
    if code[k] == Nop() {
      SameAddress(code, k, i);
    } else {
      SameAddress(code, k, j);
    }
  }

  /** In address order the lower bank comes first. */
  lemma AcrossSorted(code: seq<Instruction>)
    requires IsPair(code)
    ensures code == [Rts(), Nop()]
  {
    assert Nop() in code && Rts() in code;
    var i :| 0 <= i < |code| && code[i] == Nop();
    var j :| 0 <= j < |code| && code[j] == Rts();
    assert Key(code[j].address) < Key(code[i].address);
    assert j < i;
    WhichOfTwo(code, i, j, 0);
    WhichOfTwo(code, i, j, 1);
    if |code| > 2 {
      WhichOfTwo(code, i, j, 2);
    }
  }

  /**
  A step that the graph misses: whatever the analysis of the function at the end of bank 5 yields
  within its budget, its code in address order has this fallthrough, and no graph of it does.
  */
  lemma FallthroughLost(
    limit: nat, analysis: Worklist.Analysis, code: seq<Instruction>, blocks: seq<Block>)
    requires Worklist.Analyzed(Worklist.CodeOf(AcrossRom(), AcrossWindows()), AtEnd(), limit, analysis)
    requires !analysis.truncated && Sorted(code)
    requires forall ins :: ins in code <==>
      ins.address in analysis.instructions && ins == analysis.instructions[ins.address]
    requires WellFormed(code, blocks)
    ensures FlowStep(code, AcrossWindows(), AtEnd(), Across())
    ensures !GraphStep(blocks, AtEnd(), Across())
  {
    AcrossAnalyzed(limit, analysis);
    assert IsPair(code);
    AcrossSorted(code);
    AcrossFlowKept(code);
    AcrossFlowLost(code, blocks);
  }

  lemma AcrossFlowKept(code: seq<Instruction>)
    requires Sorted(code) && code == [Rts(), Nop()]
    ensures FlowStep(code, AcrossWindows(), AtEnd(), Across())
  {
    AcrossFlow();
    assert code[0].address == Across() && code[1] == Nop();
    FlowStepIs(code, AcrossWindows(), 1, Across());
  }

  lemma AcrossFlowLost(code: seq<Instruction>, blocks: seq<Block>)
    requires Sorted(code) && code == [Rts(), Nop()] && WellFormed(code, blocks)
    ensures !GraphStep(blocks, AtEnd(), Across())
  {
    assert code[1] == Nop();
    NextKeyAt(code, 1);
    GraphStepIs(code, blocks, 1, Across());
  }
}
