/**
Basic blocks of one analysed function: leaders, the cut into blocks, successor and
predecessor links, and loop marks.  The sorted instruction map is a sequence in address order.
*/
module Blocks {
  import opened Options
  import opened Decoder

  /** Addresses are ordered by bank, then by CPU address. */
  function Key(a: Address): int {
    a.bank * 0x1_0000 + a.cpu
  }

  lemma KeyInjective(a: Address, b: Address)
    requires Key(a) == Key(b)
    ensures a == b
  {
  }

  predicate Sorted(code: seq<Instruction>) {
    forall i, j :: 0 <= i < j < |code| ==> Key(code[i].address) < Key(code[j].address)
  }

  predicate HasKey(code: seq<Instruction>, a: Address) {
    exists i :: 0 <= i < |code| && code[i].address == a
  }

  /** The first address after `a`, in map order. */
  function NextKey(code: seq<Instruction>, a: Address): Option<Address> {
    if code == [] then None
    else if Key(a) < Key(code[0].address) then Some(code[0].address)
    else NextKey(code[1..], a)
  }

  lemma {:induction false} NextKeyAt(code: seq<Instruction>, i: nat)
    requires Sorted(code) && i < |code|
    ensures NextKey(code, code[i].address)
         == if i + 1 < |code| then Some(code[i + 1].address) else None
    decreases |code|
  {
    if i > 0 {
      NextKeyAt(code[1..], i - 1);
    } else if |code| > 1 {
      assert code[1..][0] == code[1];
    }
  }

  /** The place of a new address in address order. */
  function Position(code: seq<Instruction>, a: Address): (n: nat)
    requires Sorted(code)
    ensures n <= |code| && (forall i :: 0 <= i < n ==> Key(code[i].address) < Key(a)) &&
      forall i :: n <= i < |code| ==> Key(a) <= Key(code[i].address)
  {
    if code == [] || Key(a) <= Key(code[|code| - 1].address)
      then (if code == [] then 0 else Position(code[..|code| - 1], a))
      else |code|
  }

  function Inserted(code: seq<Instruction>, n: nat, ins: Instruction): seq<Instruction>
    requires n <= |code|
  {
    code[..n] + [ins] + code[n..]
  }

  lemma InsertedAt(code: seq<Instruction>, n: nat, ins: Instruction, i: nat)
    requires n <= |code| && i <= |code|
    ensures Inserted(code, n, ins)[i] == if i < n then code[i] else if i == n then ins else code[i - 1]
  {
  }

  lemma InsertedOrder(code: seq<Instruction>, n: nat, ins: Instruction)
    requires Sorted(code) && n <= |code|
    requires forall i :: 0 <= i < n ==> Key(code[i].address) < Key(ins.address)
    requires forall i :: n <= i < |code| ==> Key(ins.address) < Key(code[i].address)
    ensures Sorted(Inserted(code, n, ins))
  {
    var more := Inserted(code, n, ins);
    forall i, j | 0 <= i < j < |more|
      ensures Key(more[i].address) < Key(more[j].address)
    {
      InsertedAt(code, n, ins, i);
      InsertedAt(code, n, ins, j);
    }
  }

  /** A new instruction goes between the smaller and the larger addresses. */
  lemma InsertedSorted(code: seq<Instruction>, ins: Instruction)
    requires Sorted(code) && forall i :: 0 <= i < |code| ==> code[i].address != ins.address
    ensures Sorted(Inserted(code, Position(code, ins.address), ins))
  {
    var n := Position(code, ins.address);
    forall i | n <= i < |code|
      ensures Key(ins.address) < Key(code[i].address)
    {
      if Key(ins.address) == Key(code[i].address) {
        KeyInjective(ins.address, code[i].address);
      }
    }
    InsertedOrder(code, n, ins);
  }

  lemma InsertedMembers(code: seq<Instruction>, n: nat, ins: Instruction)
    requires n <= |code|
    ensures forall x :: x in Inserted(code, n, ins) <==> x in code || x == ins
  {
    assert code == code[..n] + code[n..];
  }

  /** The instructions of a map, in the order of its keys. */
  method InOrder(instructions: map<Address, Instruction>) returns (code: seq<Instruction>)
    requires forall a :: a in instructions ==> instructions[a].address == a
    ensures Sorted(code)
    ensures forall ins :: ins in code <==>
      ins.address in instructions && ins == instructions[ins.address]
  {
    code := [];
    var rest := instructions.Keys;
    while rest != {}
      invariant rest <= instructions.Keys && Sorted(code)
      invariant forall ins :: ins in code <==>
        ins.address in instructions.Keys - rest && ins == instructions[ins.address]
      decreases rest
    {
      var a :| a in rest;
      var ins := instructions[a];
      var n := Position(code, a);
      assert forall i :: 0 <= i < |code| ==> code[i] in code && code[i].address != a;
      InsertedSorted(code, ins);
      InsertedMembers(code, n, ins);
      code := Inserted(code, n, ins);
      rest := rest - {a};
    }
  }

  predicate EndsFlow(ins: Instruction) {
    ins.flow.Jump? || ins.flow.Branch? || ins.flow.Return? || ins.flow.Stop? || ins.flow.Unknown?
  }

  // ----- leaders

  /** The addresses an instruction makes leaders: known targets, and what follows a branch. */
  function LeadersOf(code: seq<Instruction>, ins: Instruction): set<Address> {
    var target := if ins.target.Some? && HasKey(code, ins.target.value) then {ins.target.value} else {};
    var next := NextKey(code, ins.address);
    match ins.flow
    case Branch => target + (if next.Some? then {next.value} else {})
    case Jump => target
    case _ => {}
  }

  ghost predicate AreLeaders(code: seq<Instruction>, leaders: set<Address>) {
    forall i, a :: 0 <= i < |code| && a in LeadersOf(code, code[i]) ==> a in leaders
  }

  /** Nothing is a leader without a reason. */
  ghost predicate OnlyLeaders(code: seq<Instruction>, leaders: set<Address>) {
    forall a :: a in leaders ==>
      (code != [] && a == code[0].address) || exists i :: 0 <= i < |code| && a in LeadersOf(code, code[i])
  }

  method CollectLeaders(code: seq<Instruction>) returns (leaders: set<Address>)
    ensures AreLeaders(code, leaders) && OnlyLeaders(code, leaders)
  {
    leaders := if code == [] then {} else {code[0].address};
    for i := 0 to |code|
      invariant forall k, a :: 0 <= k < i && a in LeadersOf(code, code[k]) ==> a in leaders
      invariant forall a :: a in leaders ==>
        (code != [] && a == code[0].address) || exists k :: 0 <= k < i && a in LeadersOf(code, code[k])
    {
      leaders := leaders + LeadersOf(code, code[i]);
    }
  }

  // ----- the cut

  datatype Role = Latch | Header

  datatype Block = Block(
    start: Address,
    end: Address,
    instructions: seq<Instruction>,
    predecessors: seq<Address>,
    successors: seq<Address>,
    loopRole: Option<Role>)

  /** A block starts at the first instruction, at a leader, and after an instruction that ends flow. */
  predicate IsHead(code: seq<Instruction>, leaders: set<Address>, k: nat)
    requires k < |code|
  {
    k == 0 || code[k].address in leaders || EndsFlow(code[k - 1])
  }

  /** Where the blocks of a stretch of code start and end. */
  datatype Cut = Cut(heads: seq<nat>, ends: seq<nat>)

  /** `cut` lists the heads of `code[..upTo]` in order, each with the next head as its end. */
  ghost predicate AreHeads(code: seq<Instruction>, leaders: set<Address>, cut: Cut, upTo: nat) {
    upTo <= |code| && |cut.heads| == |cut.ends| &&
    (if upTo == 0 then cut.heads == []
     else cut.heads != [] && cut.heads[0] == 0 && cut.ends[|cut.ends| - 1] == upTo) &&
    (forall m {:trigger cut.heads[m]} :: 0 <= m < |cut.heads| ==>
      cut.heads[m] < upTo && IsHead(code, leaders, cut.heads[m])) &&
    (forall m, n {:trigger cut.heads[m], cut.heads[n]} ::
      0 <= m < n < |cut.heads| ==> cut.heads[m] < cut.heads[n]) &&
    (forall m {:trigger cut.ends[m]} :: 0 <= m < |cut.ends| ==>
      cut.heads[m] < cut.ends[m] <= upTo &&
      (m + 1 < |cut.heads| ==> cut.ends[m] == cut.heads[m + 1])) &&
    forall m, k {:trigger cut.ends[m], IsHead(code, leaders, k)} ::
      0 <= m < |cut.ends| && cut.heads[m] < k < cut.ends[m] ==> !IsHead(code, leaders, k)
  }

  lemma {:induction false} HeadBelow(
    code: seq<Instruction>, leaders: set<Address>, cut: Cut, m: nat, j: nat)
    requires AreHeads(code, leaders, cut, |code|)
    requires m < |cut.heads| && cut.heads[m] <= j < |code|
    ensures exists i :: m <= i < |cut.heads| && cut.heads[i] <= j < cut.ends[i]
    decreases |cut.heads| - m
  {
    if j < cut.ends[m] {
    } else {
      HeadBelow(code, leaders, cut, m + 1, j);
    }
  }

  /** Every head is listed. */
  lemma HeadListed(code: seq<Instruction>, leaders: set<Address>, cut: Cut, j: nat)
    requires AreHeads(code, leaders, cut, |code|) && j < |code| && IsHead(code, leaders, j)
    ensures exists m :: 0 <= m < |cut.heads| && cut.heads[m] == j
  {
    HeadBelow(code, leaders, cut, 0, j);
    var i :| 0 <= i < |cut.heads| && cut.heads[i] <= j < cut.ends[i];
  }

  predicate IsBlock(code: seq<Instruction>, first: nat, past: nat, block: Block) {
    first < past <= |code| &&
    block == Block(code[first].address, code[past - 1].address, code[first..past], [], [], None)
  }

  /** The blocks are the stretches of `code[..upTo]` from one head to the next. */
  ghost predicate IsCut(
    code: seq<Instruction>, leaders: set<Address>, cut: Cut, blocks: seq<Block>, upTo: nat) {
    AreHeads(code, leaders, cut, upTo) && |cut.heads| == |blocks| &&
    forall m {:trigger blocks[m]} :: 0 <= m < |blocks| ==>
      IsBlock(code, cut.heads[m], cut.ends[m], blocks[m])
  }

  lemma CutGrows(
    code: seq<Instruction>, leaders: set<Address>, cut: Cut, blocks: seq<Block>,
    index: nat, past: nat, block: Block)
    requires IsCut(code, leaders, cut, blocks, index) && index < |code|
    requires IsHead(code, leaders, index) && IsBlock(code, index, past, block)
    requires forall k :: index < k < past ==> !IsHead(code, leaders, k)
    ensures IsCut(code, leaders, Cut(cut.heads + [index], cut.ends + [past]), blocks + [block], past)
  {
  }

  method TakeBlock(code: seq<Instruction>, leaders: set<Address>, first: nat) returns (past: nat)
    requires first < |code|
    ensures first < past <= |code|
    ensures forall k :: first < k < past ==> !IsHead(code, leaders, k)
    ensures past < |code| ==> IsHead(code, leaders, past)
  {
    past := first;
    while true
      invariant first <= past <= |code|
      invariant forall k :: first < k <= past && k < |code| && k > first ==>
        (k < past ==> !IsHead(code, leaders, k)) && (k == past ==> !EndsFlow(code[k - 1]))
      decreases |code| - past
    {
      if past >= |code| || (past > first && code[past].address in leaders) {
        break;
      }
      past := past + 1;
      if EndsFlow(code[past - 1]) {
        break;
      }
    }
  }

  method CutBlocks(code: seq<Instruction>, leaders: set<Address>)
    returns (blocks: seq<Block>, ghost cut: Cut)
    ensures IsCut(code, leaders, cut, blocks, |code|)
    ensures code != [] <==> blocks != []
    ensures forall block :: block in blocks ==> block.instructions != []
  {
    blocks, cut := [], Cut([], []);
    var index := 0;
    while index < |code|
      invariant 0 <= index <= |code| && (index > 0 <==> blocks != [])
      invariant IsCut(code, leaders, cut, blocks, index)
      invariant index < |code| ==> IsHead(code, leaders, index)
    {
      var past := TakeBlock(code, leaders, index);
      var lines := code[index..past];
      var block := Block(code[index].address, lines[|lines| - 1].address, lines, [], [], None);
      CutGrows(code, leaders, cut, blocks, index, past, block);
      blocks := blocks + [block];
      cut := Cut(cut.heads + [index], cut.ends + [past]);
      index := past;
    }
  }

  // ----- links

  /** Where control can go from the last instruction of a block, by the sorted map. */
  function EdgeAddresses(code: seq<Instruction>, last: Instruction): seq<Address> {
    var next := Optional(NextKey(code, last.address));
    match last.flow
    case Jump => Optional(last.target)
    case Branch => Optional(last.target) + next
    case Fallthrough | Call => next
    case Return | Stop | Unknown => []
  }

  /** Every edge of a block that stays in the function lands on a block head. */
  lemma EdgesHitHeads(
    code: seq<Instruction>, leaders: set<Address>, cut: Cut, m: nat, a: Address)
    requires Sorted(code) && AreLeaders(code, leaders) && AreHeads(code, leaders, cut, |code|)
    requires m < |cut.ends| && 0 < cut.ends[m] <= |code|
    requires a in EdgeAddresses(code, code[cut.ends[m] - 1]) && HasKey(code, a)
    ensures exists n :: 0 <= n < |cut.heads| && code[cut.heads[n]].address == a
  {
    var past := cut.ends[m];
    var last := code[past - 1];
    NextKeyAt(code, past - 1);
    if a in Optional(NextKey(code, last.address)) && past < |code| {
      assert code[cut.heads[m + 1]].address == a;
    } else {
      assert a in LeadersOf(code, last);
      var j :| 0 <= j < |code| && code[j].address == a;
      HeadListed(code, leaders, cut, j);
    }
  }

  predicate NoDup(s: seq<Address>) {
    forall i, j :: 0 <= i < j < |s| ==> s[i] != s[j]
  }

  /** The last head at or before position `i`. */
  function HeadOf(code: seq<Instruction>, leaders: set<Address>, i: nat): (h: nat)
    requires i < |code|
    ensures h <= i && IsHead(code, leaders, h)
  {
    if IsHead(code, leaders, i) then i else HeadOf(code, leaders, i - 1)
  }

  /** The start of the block that position `i` lies in. */
  function StartOf(code: seq<Instruction>, leaders: set<Address>, i: nat): Address
    requires i < |code|
  {
    code[HeadOf(code, leaders, i)].address
  }

  /** Each address of `code[..upTo]` with the start of the block it lies in. */
  ghost predicate IsOwnerMap(
    code: seq<Instruction>, leaders: set<Address>, upTo: nat, owner: map<Address, Address>) {
    upTo <= |code| &&
    (forall i {:trigger StartOf(code, leaders, i)} :: 0 <= i < upTo ==>
      code[i].address in owner && owner[code[i].address] == StartOf(code, leaders, i)) &&
    forall a :: a in owner ==> HasKey(code, a)
  }

  lemma {:induction false} HeadWithin(
    code: seq<Instruction>, leaders: set<Address>, first: nat, i: nat)
    requires first <= i < |code| && IsHead(code, leaders, first)
    requires forall k :: first < k <= i ==> !IsHead(code, leaders, k)
    ensures HeadOf(code, leaders, i) == first
    decreases i
  {
    if first >= i {
    } else {
      HeadWithin(code, leaders, first, i - 1);
    }
  }

  lemma StartInBlock(code: seq<Instruction>, leaders: set<Address>, cut: Cut, m: nat, i: nat)
    requires AreHeads(code, leaders, cut, |code|) && m < |cut.ends|
    requires cut.heads[m] <= i < cut.ends[m] && i < |code|
    ensures StartOf(code, leaders, i) == code[cut.heads[m]].address
  {
    HeadWithin(code, leaders, cut.heads[m], i);
  }

  lemma OwnerGrows(
    code: seq<Instruction>, leaders: set<Address>, i: nat, owner: map<Address, Address>)
    requires Sorted(code) && i < |code| && IsOwnerMap(code, leaders, i, owner)
    ensures IsOwnerMap(code, leaders, i + 1, owner[code[i].address := StartOf(code, leaders, i)])
  {
    var longer := owner[code[i].address := StartOf(code, leaders, i)];
    forall k | 0 <= k < i + 1
      ensures code[k].address in longer && longer[code[k].address] == StartOf(code, leaders, k)
    {
      var start := StartOf(code, leaders, k);
      assert k < i ==> Key(code[k].address) < Key(code[i].address);
    }
  }

  lemma StartsInBlock(code: seq<Instruction>, leaders: set<Address>, cut: Cut, m: nat)
    requires AreHeads(code, leaders, cut, |code|) && m < |cut.ends|
    ensures forall i {:trigger StartOf(code, leaders, i)} ::
      cut.heads[m] <= i < cut.ends[m] ==> StartOf(code, leaders, i) == code[cut.heads[m]].address
  {
    forall i | cut.heads[m] <= i < cut.ends[m]
      ensures StartOf(code, leaders, i) == code[cut.heads[m]].address
    {
      StartInBlock(code, leaders, cut, m, i);
    }
  }

  method AddOwners(
    code: seq<Instruction>, ghost leaders: set<Address>, ghost first: nat, start: Address,
    lines: seq<Instruction>, owner0: map<Address, Address>)
    returns (owner: map<Address, Address>)
    requires Sorted(code) && first + |lines| <= |code| && lines == code[first..first + |lines|]
    requires forall i {:trigger StartOf(code, leaders, i)} ::
      first <= i < first + |lines| ==> StartOf(code, leaders, i) == start
    requires IsOwnerMap(code, leaders, first, owner0)
    ensures IsOwnerMap(code, leaders, first + |lines|, owner)
  {
    owner := owner0;
    for k := 0 to |lines|
      invariant IsOwnerMap(code, leaders, first + k, owner)
    {
      ghost var i := first + k;
      assert lines[k] == code[i] && StartOf(code, leaders, i) == start;
      OwnerGrows(code, leaders, i, owner);
      owner := owner[lines[k].address := start];
    }
  }

  method AddBlockOwners(
    code: seq<Instruction>, ghost leaders: set<Address>, ghost cut: Cut, ghost m: nat,
    block: Block, owner0: map<Address, Address>)
    returns (owner: map<Address, Address>)
    requires Sorted(code) && AreHeads(code, leaders, cut, |code|) && m < |cut.ends|
    requires IsBlock(code, cut.heads[m], cut.ends[m], block)
    requires IsOwnerMap(code, leaders, cut.heads[m], owner0)
    ensures IsOwnerMap(code, leaders, cut.ends[m], owner)
  {
    StartsInBlock(code, leaders, cut, m);
    owner := AddOwners(code, leaders, cut.heads[m], block.start, block.instructions, owner0);
  }

  method OwnersOf(
    code: seq<Instruction>, blocks: seq<Block>, ghost leaders: set<Address>, ghost cut: Cut)
    returns (owner: map<Address, Address>)
    requires Sorted(code) && IsCut(code, leaders, cut, blocks, |code|)
    ensures IsOwnerMap(code, leaders, |code|, owner)
  {
    owner := map[];
    for m := 0 to |blocks|
      invariant IsOwnerMap(code, leaders, if m < |cut.heads| then cut.heads[m] else |code|, owner)
    {
      owner := AddBlockOwners(code, leaders, cut, m, blocks[m], owner);
    }
  }

  /** Distinct owners of the edge addresses that lie in the function; whether one does not lie ahead. */
  method LinkSuccessors(edges: seq<Address>, owner: map<Address, Address>, start: Address)
    returns (successors: seq<Address>, latch: bool)
    requires forall a :: a in edges && a in owner ==> owner[a] == a
    ensures NoDup(successors) && forall s :: s in successors <==> s in edges && s in owner
    ensures latch <==> exists s :: s in successors && Key(s) <= Key(start)
  {
    successors, latch := [], false;
    for i := 0 to |edges|
      invariant NoDup(successors)
      invariant forall s :: s in successors <==> s in edges[..i] && s in owner
      invariant latch <==> exists s :: s in successors && Key(s) <= Key(start)
    {
      var address := edges[i];
      assert edges[..i + 1] == edges[..i] + [address];
      if address in owner && owner[address] !in successors {
        if Key(address) <= Key(start) {
          latch := true;
        }
        successors := successors + [owner[address]];
      }
    }
    assert edges[..|edges|] == edges;
  }
}
