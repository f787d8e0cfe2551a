/**
The two worklists of the decompiler.  `AnalyzeFunction` collects the instructions reachable
from one root; `Analyze` analyses every root and every call target they lead to.
*/
module Worklist {
  import Options
  import MachineWords
  import opened Decoder

  /**
  What the walks ask about a program under fixed bank windows: the decoding of an address,
  the addresses static flow goes on to, and whether an address lies inside PRG ROM.
  */
  datatype Code = Code(
    decode: Address -> Options.Option<Instruction>,
    successors: Instruction -> seq<Address>,
    valid: Address -> bool)

  predicate PhysicallyValid(prg: seq<MachineWords.Byte>, a: Address) {
    a.cpu >= 0x8000 && a.bank * BANK_SIZE + a.cpu % BANK_SIZE < |prg|
  }

  function CodeOf(prg: seq<MachineWords.Byte>, windows: Windows): Code {
    Code(a => Decode(prg, windows, a), ins => Successors(windows, ins),
         a => PhysicallyValid(prg, a))
  }

  /** The valid addresses are those in $8000-$FFFF with a byte in the ROM. */
  lemma ValidIff(prg: seq<MachineWords.Byte>, windows: Windows, a: Address)
    ensures CodeOf(prg, windows).valid(a) <==> a.cpu >= 0x8000 && ReadPhysical(prg, a).Some?
    ensures Decodable(CodeOf(prg, windows), a) ==> ReadPhysical(prg, a).Some?
  {
  }

  predicate Decodable(code: Code, a: Address) {
    code.decode(a).Some?
  }

  function At(code: Code, a: Address): Instruction
    requires Decodable(code, a)
  {
    code.decode(a).value
  }

  function Next(code: Code, a: Address): seq<Address>
    requires Decodable(code, a)
  {
    code.successors(At(code, a))
  }

  // ----- reachability by static flow

  ghost predicate IsPath(code: Code, path: seq<Address>) {
    path != [] &&
    (forall i :: 0 <= i < |path| ==> Decodable(code, path[i])) &&
    forall i :: 0 < i < |path| ==> path[i] in Next(code, path[i - 1])
  }

  ghost predicate IsPathTo(code: Code, start: Address, a: Address, path: seq<Address>) {
    IsPath(code, path) && path[0] == start && path[|path| - 1] == a
  }

  /** `a` is decodable and static flow leads to it from `start` through decodable addresses. */
  ghost predicate Reached(code: Code, start: Address, a: Address) {
    exists path :: IsPathTo(code, start, a, path)
  }

  lemma ReachedStart(code: Code, start: Address)
    requires Decodable(code, start)
    ensures Reached(code, start, start)
  {
    assert IsPathTo(code, start, start, [start]);
  }

  lemma ReachedNext(code: Code, start: Address, a: Address, b: Address)
    requires Reached(code, start, a) && Decodable(code, b) && b in Next(code, a)
    ensures Reached(code, start, b)
  {
    var path :| IsPathTo(code, start, a, path);
    assert IsPathTo(code, start, b, path + [b]);
  }

  /** `keys` holds `start` and is closed under static flow, undecodable addresses aside. */
  ghost predicate Closed(code: Code, start: Address, keys: set<Address>) {
    (Decodable(code, start) ==> start in keys) &&
    forall a, b ::
      a in keys && Decodable(code, a) && b in Next(code, a) && Decodable(code, b) ==> b in keys
  }

  lemma {:induction false} ClosedHoldsPath(
    code: Code, start: Address, keys: set<Address>, path: seq<Address>)
    requires Closed(code, start, keys) && IsPath(code, path) && path[0] == start
    ensures path[|path| - 1] in keys
    decreases |path|
  {
    if |path| <= 1 {
    } else {
      ClosedHoldsPath(code, start, keys, path[..|path| - 1]);
    }
  }

  /** The reached addresses are the least closed set. */
  lemma ReachedIsLeast(code: Code, start: Address, keys: set<Address>, a: Address)
    requires Closed(code, start, keys) && Reached(code, start, a)
    ensures a in keys
  {
    var path :| IsPathTo(code, start, a, path);
    ClosedHoldsPath(code, start, keys, path);
  }

  // ----- one function

  datatype Analysis = Analysis(
    instructions: map<Address, Instruction>, childRoots: set<Address>, truncated: bool)

  function Limit(maxInstructions: nat): nat {
    if maxInstructions < 1 then 1 else maxInstructions
  }

  /** Every analysed address is reached and carries its own decoding. */
  ghost predicate SoundFrom(code: Code, start: Address, instructions: map<Address, Instruction>) {
    forall a :: a in instructions ==>
      Reached(code, start, a) && Decodable(code, a) && instructions[a] == At(code, a)
  }

  /** The call targets of the analysed instructions. */
  ghost predicate AreChildren(instructions: map<Address, Instruction>, children: set<Address>) {
    (forall a, c :: a in instructions && c in Calls(instructions[a]) ==> c in children) &&
    forall c :: c in children ==> exists a :: a in instructions && c in Calls(instructions[a])
  }

  /** What the analysis of a function promises. */
  ghost predicate Analyzed(code: Code, start: Address, limit: nat, analysis: Analysis) {
    SoundFrom(code, start, analysis.instructions) &&
    AreChildren(analysis.instructions, analysis.childRoots) &&
    |analysis.instructions| <= limit &&
    (analysis.truncated ==> |analysis.instructions| == limit) &&
    (!analysis.truncated ==> forall a :: Reached(code, start, a) ==> a in analysis.instructions)
  }

  /** Each queued address is the start or a successor of an analysed instruction. */
  ghost predicate Justified(
    code: Code, start: Address, instructions: map<Address, Instruction>, queue: seq<Address>) {
    forall b :: b in queue ==> FlowsInto(code, start, instructions, b)
  }

  ghost predicate FlowsInto(
    code: Code, start: Address, instructions: map<Address, Instruction>, b: Address) {
    b == start || exists a :: a in instructions && Decodable(code, a) && b in Next(code, a)
  }

  /** Nothing reachable in one step is missing from the analysed and the queued addresses. */
  ghost predicate Covered(
    code: Code, start: Address, instructions: map<Address, Instruction>, queue: seq<Address>) {
    (start in instructions || start in queue || !Decodable(code, start)) &&
    forall a, b :: a in instructions && Decodable(code, a) && b in Next(code, a) ==>
      b in instructions || b in queue || !Decodable(code, b)
  }

  lemma JustifiedIsReached(
    code: Code, start: Address, instructions: map<Address, Instruction>, queue: seq<Address>,
    b: Address)
    requires SoundFrom(code, start, instructions) && Justified(code, start, instructions, queue)
    requires b in queue && Decodable(code, b)
    ensures Reached(code, start, b)
  {
    if b == start {
      ReachedStart(code, start);
    } else {
      var a :| a in instructions && Decodable(code, a) && b in Next(code, a);
      ReachedNext(code, start, a, b);
    }
  }

  lemma EmptyQueueIsComplete(
    code: Code, start: Address, instructions: map<Address, Instruction>)
    requires Covered(code, start, instructions, [])
    ensures forall a :: Reached(code, start, a) ==> a in instructions
  {
    forall a | Reached(code, start, a)
      ensures a in instructions
    {
      ReachedIsLeast(code, start, instructions.Keys, a);
    }
  }

  /** The walk between two rounds: `queue` is all that is left to do. */
  ghost predicate Walking(
    code: Code, start: Address, limit: nat,
    instructions: map<Address, Instruction>, children: set<Address>, queue: seq<Address>) {
    SoundFrom(code, start, instructions) && |instructions| <= limit &&
    AreChildren(instructions, children) &&
    Justified(code, start, instructions, queue) &&
    Covered(code, start, instructions, queue)
  }

  lemma Skip(
    code: Code, start: Address, limit: nat,
    instructions: map<Address, Instruction>, children: set<Address>, queue: seq<Address>)
    requires queue != [] && Walking(code, start, limit, instructions, children, queue)
    requires queue[0] in instructions || !Decodable(code, queue[0])
    ensures Walking(code, start, limit, instructions, children, queue[1..])
  {
    assert queue == [queue[0]] + queue[1..];
  }

  lemma VisitChildren(
    instructions: map<Address, Instruction>, children: set<Address>, a: Address, ins: Instruction)
    requires AreChildren(instructions, children) && a !in instructions
    ensures AreChildren(instructions[a := ins], children + (set c | c in Calls(ins)))
  {
    var longer := instructions[a := ins];
    forall c | c in children || c in Calls(ins)
      ensures exists b :: b in longer && c in Calls(longer[b])
    {
      if c in children {
        var b :| b in instructions && c in Calls(instructions[b]);
        assert b in longer && c in Calls(longer[b]);
      } else {
        assert a in longer && c in Calls(longer[a]);
      }
    }
  }

  lemma VisitQueue(
    code: Code, start: Address, instructions: map<Address, Instruction>, queue: seq<Address>)
    requires queue != [] && queue[0] !in instructions && Decodable(code, queue[0])
    requires Justified(code, start, instructions, queue) && Covered(code, start, instructions, queue)
    ensures var a := queue[0];
      var longer, rest := instructions[a := At(code, a)], queue[1..] + Next(code, a);
      Justified(code, start, longer, rest) && Covered(code, start, longer, rest)
  {
    assert queue == [queue[0]] + queue[1..];
    var a := queue[0];
    var longer, rest := instructions[a := At(code, a)], queue[1..] + Next(code, a);
    forall b | b in rest
      ensures FlowsInto(code, start, longer, b)
    {
      if b in Next(code, a) {
        assert a in longer;
      } else {
        assert b in queue;
      }
    }
  }

  lemma Visit(
    code: Code, start: Address, limit: nat,
    instructions: map<Address, Instruction>, children: set<Address>, queue: seq<Address>)
    requires queue != [] && Walking(code, start, limit, instructions, children, queue)
    requires queue[0] !in instructions && Decodable(code, queue[0]) && |instructions| < limit
    ensures var a, ins := queue[0], At(code, queue[0]);
      Walking(code, start, limit, instructions[a := ins],
              children + (set c | c in Calls(ins)), queue[1..] + code.successors(ins))
  {
    JustifiedIsReached(code, start, instructions, queue, queue[0]);
    VisitChildren(instructions, children, queue[0], At(code, queue[0]));
    VisitQueue(code, start, instructions, queue);
  }

  method AnalyzeFunction(code: Code, start: Address, maxInstructions: nat)
    returns (analysis: Analysis)
    ensures Analyzed(code, start, Limit(maxInstructions), analysis)
    ensures |analysis.instructions| <= 1 || |analysis.instructions| <= maxInstructions
    ensures analysis.truncated ==> |analysis.instructions| == maxInstructions || maxInstructions == 0
  {
    var instructions: map<Address, Instruction> := map[];
    var children: set<Address> := {};
    var pending := [start];
    var limit := Limit(maxInstructions);
    while pending != []
      invariant Walking(code, start, limit, instructions, children, pending)
      decreases limit - |instructions|, |pending|
    {
      var address := pending[0];
      if address in instructions {
        Skip(code, start, limit, instructions, children, pending);
        pending := pending[1..];
        continue;
      }
      if |instructions| >= limit {
        return Analysis(instructions, children, true);
      }
      var decoded := code.decode(address);
      if decoded.None? {
        Skip(code, start, limit, instructions, children, pending);
        pending := pending[1..];
        continue;
      }
      Visit(code, start, limit, instructions, children, pending);
      var instruction := decoded.value;
      pending := pending[1..] + code.successors(instruction);
      children := children + (set c | c in Calls(instruction));
      instructions := instructions[address := instruction];
    }
    EmptyQueueIsComplete(code, start, instructions);
    analysis := Analysis(instructions, children, false);
  }

  // ----- all functions

  ghost function AllAddresses(): set<Address> {
    set bank: int, cpu: int {:trigger Address(bank, cpu)}
      | 0 <= bank < 0x1_0000 && 0 <= cpu < 0x1_0000 :: Address(bank, cpu)
  }

  lemma AllAddressesHasAll(a: Address)
    ensures a in AllAddresses()
  {
    var bank: int, cpu: int := a.bank, a.cpu;
    assert 0 <= bank < 0x1_0000 && 0 <= cpu < 0x1_0000;
  }

  /** `c` is a call target of the analysed function `s`. */
  predicate Calling(analyses: map<Address, Analysis>, s: Address, c: Address) {
    s in analyses && c in analyses[s].childRoots
  }

  /** A chain of `n` calls, as the analyses found them, leads from a root to `a`. */
  ghost predicate CallReachedIn(
    code: Code, roots: seq<Address>, analyses: map<Address, Analysis>, a: Address, n: nat)
    decreases n
  {
    code.valid(a) &&
    if n == 0 then a in roots
    else exists s :: CallReachedIn(code, roots, analyses, s, n - 1) && Calling(analyses, s, a)
  }

  ghost predicate CallReached(
    code: Code, roots: seq<Address>, analyses: map<Address, Analysis>, a: Address) {
    exists n: nat :: CallReachedIn(code, roots, analyses, a, n)
  }

  /** Every valid root and every valid call target of an analysed function is analysed or queued. */
  ghost predicate RootsCovered(
    code: Code, roots: seq<Address>, analyses: map<Address, Analysis>, queue: seq<Address>) {
    (forall r :: r in roots && code.valid(r) ==> r in analyses || r in queue) &&
    forall s, c :: Calling(analyses, s, c) && code.valid(c) ==>
      c in analyses || c in queue
  }

  lemma {:induction false} CallReachedGrows(
    code: Code, roots: seq<Address>, analyses: map<Address, Analysis>,
    s: Address, analysis: Analysis, a: Address, n: nat)
    requires s !in analyses && CallReachedIn(code, roots, analyses, a, n)
    ensures CallReachedIn(code, roots, analyses[s := analysis], a, n)
    decreases n
  {
    if n == 0 {
    } else {
      var from :| CallReachedIn(code, roots, analyses, from, n - 1) && Calling(analyses, from, a);
      CallReachedGrows(code, roots, analyses, s, analysis, from, n - 1);
      assert Calling(analyses[s := analysis], from, a);
    }
  }

  lemma CallReachedChild(
    code: Code, roots: seq<Address>, analyses: map<Address, Analysis>, s: Address, c: Address)
    requires CallReached(code, roots, analyses, s) && Calling(analyses, s, c) && code.valid(c)
    ensures CallReached(code, roots, analyses, c)
  {
    var n: nat :| CallReachedIn(code, roots, analyses, s, n);
    assert CallReachedIn(code, roots, analyses, c, n + 1);
  }

  ghost predicate AllAnalyzed(code: Code, limit: nat, analyses: map<Address, Analysis>) {
    forall s :: s in analyses ==> code.valid(s) && Analyzed(code, s, limit, analyses[s])
  }

  ghost predicate AllReached(code: Code, roots: seq<Address>, analyses: map<Address, Analysis>) {
    forall s :: s in analyses ==> CallReached(code, roots, analyses, s)
  }

  /** What the whole-program analysis promises. */
  ghost predicate ProgramAnalyzed(
    code: Code, roots: seq<Address>, limit: nat, analyses: map<Address, Analysis>) {
    AllAnalyzed(code, limit, analyses) && AllReached(code, roots, analyses) &&
    RootsCovered(code, roots, analyses, [])
  }

  ghost predicate QueueReached(
    code: Code, roots: seq<Address>, analyses: map<Address, Analysis>, queue: seq<Address>) {
    forall q :: q in queue && code.valid(q) ==> CallReached(code, roots, analyses, q)
  }

  /** The whole-program walk between two rounds. */
  ghost predicate WalkingRoots(
    code: Code, roots: seq<Address>, limit: nat, analyses: map<Address, Analysis>,
    queue: seq<Address>) {
    AllAnalyzed(code, limit, analyses) && AllReached(code, roots, analyses) &&
    QueueReached(code, roots, analyses, queue) &&
    RootsCovered(code, roots, analyses, queue)
  }

  lemma StartRoots(code: Code, roots: seq<Address>, limit: nat)
    ensures WalkingRoots(code, roots, limit, map[], roots)
  {
    forall r | r in roots && code.valid(r)
      ensures CallReached(code, roots, map[], r)
    {
      assert CallReachedIn(code, roots, map[], r, 0);
    }
  }

  lemma FirstAndRest(queue: seq<Address>)
    requires queue != []
    ensures [queue[0]] + queue[1..] == queue
  {
  }

  lemma SkipReached(
    code: Code, roots: seq<Address>, analyses: map<Address, Analysis>, start: Address, rest: seq<Address>)
    requires QueueReached(code, roots, analyses, [start] + rest)
    ensures QueueReached(code, roots, analyses, rest)
  {
    assert forall q :: q in rest ==> q in [start] + rest;
  }

  lemma SkipCovers(
    code: Code, roots: seq<Address>, analyses: map<Address, Analysis>, start: Address, rest: seq<Address>)
    requires RootsCovered(code, roots, analyses, [start] + rest)
    requires start in analyses || !code.valid(start)
    ensures RootsCovered(code, roots, analyses, rest)
  {
    assert forall q :: q in [start] + rest && q != start ==> q in rest;
  }

  lemma SkipRoot(
    code: Code, roots: seq<Address>, limit: nat, analyses: map<Address, Analysis>, start: Address,
    rest: seq<Address>)
    requires WalkingRoots(code, roots, limit, analyses, [start] + rest)
    requires start in analyses || !code.valid(start)
    ensures WalkingRoots(code, roots, limit, analyses, rest)
  {
    SkipReached(code, roots, analyses, start, rest);
    SkipCovers(code, roots, analyses, start, rest);
  }

  /** `longer` is `queue` with the valid children appended that are not analysed yet. */
  ghost predicate Enqueued(
    code: Code, children: set<Address>, analyses: map<Address, Analysis>, queue: seq<Address>,
    longer: seq<Address>) {
    forall q :: q in longer <==> q in queue || (q in children && code.valid(q) && q !in analyses)
  }

  lemma StillCallReached(
    code: Code, roots: seq<Address>, analyses: map<Address, Analysis>,
    start: Address, analysis: Analysis)
    requires start !in analyses
    ensures forall a :: CallReached(code, roots, analyses, a) ==>
              CallReached(code, roots, analyses[start := analysis], a)
  {
    forall a | CallReached(code, roots, analyses, a)
      ensures CallReached(code, roots, analyses[start := analysis], a)
    {
      var n: nat :| CallReachedIn(code, roots, analyses, a, n);
      CallReachedGrows(code, roots, analyses, start, analysis, a, n);
    }
  }

  lemma VisitReached(
    code: Code, roots: seq<Address>, analyses: map<Address, Analysis>, start: Address,
    rest: seq<Address>, analysis: Analysis, longer: seq<Address>)
    requires start !in analyses && AllReached(code, roots, analyses)
    requires QueueReached(code, roots, analyses, [start] + rest) && code.valid(start)
    requires Enqueued(code, analysis.childRoots, analyses, rest, longer)
    ensures AllReached(code, roots, analyses[start := analysis])
    ensures QueueReached(code, roots, analyses[start := analysis], longer)
  {
    var more := analyses[start := analysis];
    StillCallReached(code, roots, analyses, start, analysis);
    assert start in [start] + rest;
    forall q | q in longer && code.valid(q)
      ensures CallReached(code, roots, more, q)
    {
      if q in rest {
        assert q in [start] + rest;
      } else {
        assert Calling(more, start, q);
        CallReachedChild(code, roots, more, start, q);
      }
    }
  }

  lemma VisitCovers(
    code: Code, roots: seq<Address>, analyses: map<Address, Analysis>, start: Address,
    rest: seq<Address>, analysis: Analysis, longer: seq<Address>)
    requires start !in analyses && RootsCovered(code, roots, analyses, [start] + rest)
    requires Enqueued(code, analysis.childRoots, analyses, rest, longer)
    ensures RootsCovered(code, roots, analyses[start := analysis], longer)
  {
    var more := analyses[start := analysis];
    assert forall q :: q in [start] + rest && q != start ==> q in longer;
    forall s, c | Calling(more, s, c) && code.valid(c)
      ensures c in more || c in longer
    {
      if s != start {
        assert Calling(analyses, s, c);
      }
    }
  }

  lemma VisitAnalyzed(
    code: Code, limit: nat, analyses: map<Address, Analysis>, start: Address, analysis: Analysis)
    requires AllAnalyzed(code, limit, analyses)
    requires code.valid(start) && Analyzed(code, start, limit, analysis)
    ensures AllAnalyzed(code, limit, analyses[start := analysis])
  {
  }

  lemma VisitRoot(
    code: Code, roots: seq<Address>, limit: nat, analyses: map<Address, Analysis>, start: Address,
    rest: seq<Address>, analysis: Analysis, longer: seq<Address>)
    requires WalkingRoots(code, roots, limit, analyses, [start] + rest)
    requires start !in analyses && code.valid(start) && Analyzed(code, start, limit, analysis)
    requires Enqueued(code, analysis.childRoots, analyses, rest, longer)
    ensures WalkingRoots(code, roots, limit, analyses[start := analysis], longer)
  {
    VisitAnalyzed(code, limit, analyses, start, analysis);
    VisitReached(code, roots, analyses, start, rest, analysis, longer);
    VisitCovers(code, roots, analyses, start, rest, analysis, longer);
  }

  /** `left` holds at least the addresses that are not analysed yet. */
  ghost predicate HoldsRest(left: set<Address>, analyses: map<Address, Analysis>) {
    forall a :: a in analyses || a in left
  }

  lemma AllAreLeft()
    ensures HoldsRest(AllAddresses(), map[])
  {
    forall a
      ensures a in AllAddresses()
    {
      AllAddressesHasAll(a);
    }
  }

  method AnalyzeRoot(
    code: Code, ghost roots: seq<Address>, maxInstructions: nat, analyses: map<Address, Analysis>,
    start: Address, rest: seq<Address>)
    returns (analysis: Analysis, longer: seq<Address>)
    requires WalkingRoots(code, roots, Limit(maxInstructions), analyses, [start] + rest)
    requires start !in analyses && code.valid(start)
    ensures WalkingRoots(code, roots, Limit(maxInstructions), analyses[start := analysis], longer)
  {
    analysis := AnalyzeFunction(code, start, maxInstructions);
    longer := Enqueue(code, analysis.childRoots, analyses, rest);
    VisitRoot(code, roots, Limit(maxInstructions), analyses, start, rest, analysis, longer);
  }

  method Analyze(code: Code, roots: seq<Address>, maxInstructions: nat)
    returns (analyses: map<Address, Analysis>)
    ensures ProgramAnalyzed(code, roots, Limit(maxInstructions), analyses)
  {
    analyses := map[];
    var pending := roots;
    ghost var left := AllAddresses();
    AllAreLeft();
    StartRoots(code, roots, Limit(maxInstructions));
    while pending != []
      invariant WalkingRoots(code, roots, Limit(maxInstructions), analyses, pending)
      invariant HoldsRest(left, analyses)
      decreases left, |pending|
    {
      var start, rest := pending[0], pending[1..];
      FirstAndRest(pending);
      if start in analyses || !code.valid(start) {
        SkipRoot(code, roots, Limit(maxInstructions), analyses, start, rest);
        pending := rest;
      } else {
        var analysis, longer := AnalyzeRoot(code, roots, maxInstructions, analyses, start, rest);
        analyses, pending, left := analyses[start := analysis], longer, left - {start};
      }
    }
  }

  method Enqueue(
    code: Code, children: set<Address>, analyses: map<Address, Analysis>, queue: seq<Address>)
    returns (longer: seq<Address>)
    ensures Enqueued(code, children, analyses, queue, longer)
  {
    longer := queue;
    var rest := children;
    while rest != {}
      invariant rest <= children
      invariant Enqueued(code, children - rest, analyses, queue, longer)
      decreases rest
    {
      var child :| child in rest;
      if code.valid(child) && child !in analyses {
        longer := longer + [child];
      }
      rest := rest - {child};
    }
  }
}
