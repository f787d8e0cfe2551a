/**
The whole decompiler against the executor: as long as the captured windows stay in place,
execution from an analysed address never leaves the analysed code.
*/
module Coverage {
  import opened Options
  import Iteration
  import opened MachineWords
  import opened Decoder
  import StaticFlow
  import opened Worklist

  // ----- roots

  /** A little-endian word read through the captured windows. */
  function MappedWord(prg: seq<Byte>, windows: Windows, cpu: Word): Option<Word> {
    if cpu > 0xFFFE then None
    else match (RomByte(prg, windows, cpu), RomByte(prg, windows, cpu + 1))
      case (Some(lo), Some(hi)) => Some(Join(lo, hi))
      case _ => None
  }

  function MappedTarget(prg: seq<Byte>, windows: Windows, vector: Word): seq<Address> {
    match MappedWord(prg, windows, vector)
    case None => []
    case Some(target) => Optional(MapCpuAddr(windows, target))
  }

  /** The interrupt vectors and the current program counter, where they lie in ROM. */
  function VectorRoots(prg: seq<Byte>, windows: Windows, pc: Word): seq<Address> {
    MappedTarget(prg, windows, 0xFFFA) + MappedTarget(prg, windows, 0xFFFC) +
    MappedTarget(prg, windows, 0xFFFE) + Optional(MapCpuAddr(windows, pc))
  }

  /** The word at `vector` is in ROM and names a ROM address. */
  predicate Names(prg: seq<Byte>, windows: Windows, vector: Word, r: Address) {
    vector < 0xFFFF &&
    var lo, hi := RomByte(prg, windows, vector), RomByte(prg, windows, vector + 1);
    lo.Some? && hi.Some? && MapCpuAddr(windows, lo.value + 0x100 * hi.value) == Some(r)
  }

  lemma NamedIsMapped(prg: seq<Byte>, windows: Windows, vector: Word, r: Address)
    ensures r in MappedTarget(prg, windows, vector) <==> Names(prg, windows, vector, r)
  {
  }

  /** The roots are the ROM addresses at the program counter and in the NMI, reset and IRQ vectors. */
  lemma VectorsListed(prg: seq<Byte>, windows: Windows, pc: Word, r: Address)
    ensures r in VectorRoots(prg, windows, pc) <==>
      Names(prg, windows, 0xFFFA, r) || Names(prg, windows, 0xFFFC, r) ||
      Names(prg, windows, 0xFFFE, r) || MapCpuAddr(windows, pc) == Some(r)
  {
    NamedIsMapped(prg, windows, 0xFFFA, r);
    NamedIsMapped(prg, windows, 0xFFFC, r);
    NamedIsMapped(prg, windows, 0xFFFE, r);
  }

  lemma VectorRootsInWindow(prg: seq<Byte>, windows: Windows, pc: Word, r: Address)
    requires r in VectorRoots(prg, windows, pc)
    ensures InWindow(windows, r)
  {
    var nmi, reset, irq := MappedTarget(prg, windows, 0xFFFA), MappedTarget(prg, windows, 0xFFFC),
                           MappedTarget(prg, windows, 0xFFFE);
    assert r in nmi || r in reset || r in irq || r in Optional(MapCpuAddr(windows, pc));
  }

  // ----- everything analysed keeps its captured bank

  lemma {:induction false} PathInWindow(prg: seq<Byte>, windows: Windows, path: seq<Address>)
    requires IsPath(CodeOf(prg, windows), path) && InWindow(windows, path[0])
    ensures InWindow(windows, path[|path| - 1])
    decreases |path|
  {
    if |path| <= 1 {
    } else {
      PathInWindow(prg, windows, path[..|path| - 1]);
      FlowStaysInWindow(prg, windows, path[|path| - 2], path[|path| - 1]);
    }
  }

  /** From a captured root, every reached address keeps the bank of its captured window. */
  lemma ReachedInWindow(prg: seq<Byte>, windows: Windows, start: Address, a: Address)
    requires InWindow(windows, start) && Reached(CodeOf(prg, windows), start, a)
    ensures InWindow(windows, a)
  {
    var path :| IsPathTo(CodeOf(prg, windows), start, a, path);
    PathInWindow(prg, windows, path);
  }

  ghost predicate RootsInWindow(windows: Windows, roots: seq<Address>) {
    forall r :: r in roots ==> InWindow(windows, r)
  }

  lemma ChildInWindow(
    prg: seq<Byte>, windows: Windows, limit: nat, s: Address, analysis: Analysis, c: Address)
    requires InWindow(windows, s) && Analyzed(CodeOf(prg, windows), s, limit, analysis)
    requires c in analysis.childRoots
    ensures InWindow(windows, c)
  {
    var a :| a in analysis.instructions && c in Calls(analysis.instructions[a]);
    ReachedInWindow(prg, windows, s, a);
    FlowStaysInWindow(prg, windows, a, c);
  }

  lemma {:induction false} StartInWindow(
    code: Code, windows: Windows, roots: seq<Address>, analyses: map<Address, Analysis>,
    s: Address, n: nat)
    requires RootsInWindow(windows, roots)
    requires forall a, c :: Calling(analyses, a, c) && InWindow(windows, a) ==> InWindow(windows, c)
    requires CallReachedIn(code, roots, analyses, s, n)
    ensures InWindow(windows, s)
    decreases n
  {
    if n == 0 {
    } else {
      var from :| CallReachedIn(code, roots, analyses, from, n - 1) && Calling(analyses, from, s);
      StartInWindow(code, windows, roots, analyses, from, n - 1);
    }
  }

  // ----- execution

  /** `a` is an instruction of some analysed function. */
  ghost predicate InCode(analyses: map<Address, Analysis>, a: Address) {
    exists s :: s in analyses && a in analyses[s].instructions
  }

  /** A finished analysis of any roots, no function cut short by its budget. */
  ghost predicate Complete(
    prg: seq<Byte>, windows: Windows, roots: seq<Address>, limit: nat,
    analyses: map<Address, Analysis>) {
    ProgramAnalyzed(CodeOf(prg, windows), roots, limit, analyses) &&
    forall s :: s in analyses ==> !analyses[s].truncated
  }

  /** From captured roots, everything analysed keeps the bank of its captured window. */
  lemma CodeInWindow(
    prg: seq<Byte>, windows: Windows, roots: seq<Address>, limit: nat,
    analyses: map<Address, Analysis>, s: Address, a: Address)
    requires ProgramAnalyzed(CodeOf(prg, windows), roots, limit, analyses)
    requires RootsInWindow(windows, roots)
    requires s in analyses && a in analyses[s].instructions
    ensures InWindow(windows, s) && InWindow(windows, a)
  {
    var n: nat :| CallReachedIn(CodeOf(prg, windows), roots, analyses, s, n);
    forall from, c | Calling(analyses, from, c) && InWindow(windows, from)
      ensures InWindow(windows, c)
    {
      ChildInWindow(prg, windows, limit, from, analyses[from], c);
    }
    StartInWindow(CodeOf(prg, windows), windows, roots, analyses, s, n);
    ReachedInWindow(prg, windows, s, a);
  }

  lemma DecodableIsValid(prg: seq<Byte>, windows: Windows, b: Address)
    requires Decodable(CodeOf(prg, windows), b) && InWindow(windows, b)
    ensures PhysicallyValid(prg, b)
  {
  }

  /** A decodable root is the first instruction of its own analysis. */
  lemma StartInCode(
    prg: seq<Byte>, windows: Windows, roots: seq<Address>, limit: nat,
    analyses: map<Address, Analysis>, s: Address)
    requires Complete(prg, windows, roots, limit, analyses)
    requires s in analyses && Decodable(CodeOf(prg, windows), s)
    ensures InCode(analyses, s)
  {
    ReachedStart(CodeOf(prg, windows), s);
    assert s in analyses[s].instructions;
  }

  /**
  The successors and call targets of a captured analysed instruction are captured and analysed,
  where decodable.
  */
  lemma NextInCode(
    prg: seq<Byte>, windows: Windows, roots: seq<Address>, limit: nat,
    analyses: map<Address, Analysis>, s: Address, a: Address, b: Address)
    requires Complete(prg, windows, roots, limit, analyses)
    requires s in analyses && a in analyses[s].instructions && InWindow(windows, a)
    requires Decodable(CodeOf(prg, windows), b)
    requires var ins := analyses[s].instructions[a];
      b in Successors(windows, ins) || b in Calls(ins)
    ensures InCode(analyses, b) && InWindow(windows, b)
  {
    var code := CodeOf(prg, windows);
    var ins := analyses[s].instructions[a];
    FlowStaysInWindow(prg, windows, a, b);
    if b in Calls(ins) {
      DecodableIsValid(prg, windows, b);
      assert Calling(analyses, s, b) && code.valid(b);
      StartInCode(prg, windows, roots, limit, analyses, b);
    } else {
      assert b in Next(code, a);
      ReachedNext(code, s, a, b);
      assert b in analyses[s].instructions;
    }
  }

  /** With flags `p`, the direct instruction at `a` goes on to the decodable ROM address `b`. */
  predicate Executes(prg: seq<Byte>, windows: Windows, a: Address, p: Byte, b: Address) {
    StaticFlow.DirectAt(prg, windows, a) && Decodable(CodeOf(prg, windows), b) &&
    MapCpuAddr(windows, StaticFlow.StepTarget(prg, windows, a, p)) == Some(b)
  }

  /** An analysed instruction in the bank its window captured: one that execution can be at. */
  ghost predicate Live(windows: Windows, analyses: map<Address, Analysis>, a: Address) {
    InCode(analyses, a) && InWindow(windows, a)
  }

  /** One executed instruction leads from analysed code to analysed code, whatever the roots were. */
  lemma StepStaysInCode(
    prg: seq<Byte>, windows: Windows, roots: seq<Address>, limit: nat,
    analyses: map<Address, Analysis>, a: Address, p: Byte, b: Address)
    requires Complete(prg, windows, roots, limit, analyses)
    requires Live(windows, analyses, a) && Executes(prg, windows, a, p, b)
    ensures Live(windows, analyses, b)
  {
    var s :| s in analyses && a in analyses[s].instructions;
    StaticFlow.StepIsSuccessor(prg, windows, a, p, b);
    NextInCode(prg, windows, roots, limit, analyses, s, a, b);
  }

  function Execution(prg: seq<Byte>, windows: Windows): (Address, Byte, Address) -> bool {
    (a: Address, p: Byte, b: Address) => Executes(prg, windows, a, p, b)
  }

  /** Execution that starts in analysed code stays in it, whatever the flags and however long it runs. */
  lemma ExecutionStaysInCode(
    prg: seq<Byte>, windows: Windows, roots: seq<Address>, limit: nat,
    analyses: map<Address, Analysis>, a: Address, b: Address, n: nat)
    requires Complete(prg, windows, roots, limit, analyses)
    requires Live(windows, analyses, a) && Iteration.Leads(Execution(prg, windows), a, b, n)
    ensures Live(windows, analyses, b)
  {
    var live := (x: Address) => Live(windows, analyses, x);
    forall x: Address, p: Byte, y: Address | live(x) && Executes(prg, windows, x, p, y)
      ensures live(y)
    {
      StepStaysInCode(prg, windows, roots, limit, analyses, x, p, y);
    }
    Iteration.LeadsKeeps(Execution(prg, windows), live, a, b, n);
  }

  /** Whatever execution reaches from a vector, or from the current program counter, is analysed. */
  lemma ExecutionFromVectors(
    prg: seq<Byte>, windows: Windows, pc: Word, roots: seq<Address>, limit: nat,
    analyses: map<Address, Analysis>, r: Address, b: Address, n: nat)
    requires Complete(prg, windows, roots, limit, analyses)
    requires r in roots && r in VectorRoots(prg, windows, pc) && Decodable(CodeOf(prg, windows), r)
    requires Iteration.Leads(Execution(prg, windows), r, b, n)
    ensures Live(windows, analyses, b)
  {
    VectorRootsInWindow(prg, windows, pc, r);
    DecodableIsValid(prg, windows, r);
    assert CodeOf(prg, windows).valid(r);
    StartInCode(prg, windows, roots, limit, analyses, r);
    ExecutionStaysInCode(prg, windows, roots, limit, analyses, r, b, n);
  }
}
