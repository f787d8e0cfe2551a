/**
The recovered control-flow graph: successor and predecessor links between basic blocks and
the loop marks put on them.
*/
module ControlFlow {
  import opened Options
  import opened Decoder
  import opened Blocks

  // ----- what the graph promises

  function Joined(blocks: seq<Block>): seq<Instruction> {
    if blocks == [] then [] else Joined(blocks[..|blocks| - 1]) + blocks[|blocks| - 1].instructions
  }

  function Last(block: Block): Instruction
    requires block.instructions != []
  {
    block.instructions[|block.instructions| - 1]
  }

  /** Control goes on to the following instruction, at once or after a call. */
  predicate GoesOn(ins: Instruction) {
    ins.flow.Fallthrough? || ins.flow.Call?
  }

  /** A non-empty straight run of instructions: all but the last one go on. */
  predicate IsStraight(block: Block) {
    block.instructions != [] &&
    block.start == block.instructions[0].address && block.end == Last(block).address &&
    forall k :: 0 <= k < |block.instructions| - 1 ==> GoesOn(block.instructions[k])
  }

  /** Some branch or jump of the code leads to `a`. */
  predicate IsTarget(code: seq<Instruction>, a: Address) {
    exists i :: 0 <= i < |code| && (code[i].flow.Branch? || code[i].flow.Jump?) && code[i].target == Some(a)
  }

  /** Block `to` after `from` is one of its own: `from` does not go on, or something leads to `to`. */
  predicate IsForced(code: seq<Instruction>, from: Block, to: Block) {
    from.instructions != [] && (!GoesOn(Last(from)) || IsTarget(code, to.start))
  }

  predicate StartsAscend(blocks: seq<Block>) {
    forall m, n :: 0 <= m < n < |blocks| ==> Key(blocks[m].start) < Key(blocks[n].start)
  }

  /** `a` is the start of a block. */
  predicate IsStart(blocks: seq<Block>, a: Address) {
    exists m :: 0 <= m < |blocks| && blocks[m].start == a
  }

  /** The links of a block are exactly its last instruction's edges inside the function, once each. */
  ghost predicate HasExactEdges(code: seq<Instruction>, block: Block) {
    block.instructions != [] && NoDup(block.successors) &&
    forall s :: s in block.successors <==> s in EdgeAddresses(code, Last(block)) && HasKey(code, s)
  }

  /** Some link of the block does not lead to a later address. */
  ghost predicate LeadsBack(block: Block) {
    exists s :: s in block.successors && Key(s) <= Key(block.start)
  }

  /** The block is entered from itself or from a later address. */
  ghost predicate EnteredFromBack(block: Block) {
    exists p :: p in block.predecessors && Key(p) >= Key(block.start)
  }

  ghost predicate IsMarked(block: Block) {
    block.loopRole ==
      if LeadsBack(block) then Some(Latch)
      else if EnteredFromBack(block) then Some(Header)
      else None
  }

  /** Links and back links are the same edges, seen from both ends, without repetition. */
  ghost predicate IsDual(blocks: seq<Block>) {
    (forall n :: 0 <= n < |blocks| ==> NoDup(blocks[n].predecessors)) &&
    (forall n, p :: 0 <= n < |blocks| && p in blocks[n].predecessors ==> IsStart(blocks, p)) &&
    forall m, n :: 0 <= m < |blocks| && 0 <= n < |blocks| ==>
      (blocks[n].start in blocks[m].successors <==> blocks[m].start in blocks[n].predecessors)
  }

  /** No two consecutive blocks could be one. */
  ghost predicate IsMaximal(code: seq<Instruction>, blocks: seq<Block>) {
    forall m, n {:trigger IsForced(code, blocks[m], blocks[n])} ::
      0 <= m < n < |blocks| && n == m + 1 ==> IsForced(code, blocks[m], blocks[n])
  }

  ghost predicate WellFormed(code: seq<Instruction>, blocks: seq<Block>) {
    Joined(blocks) == code &&
    StartsAscend(blocks) &&
    (forall m :: 0 <= m < |blocks| ==>
      IsStraight(blocks[m]) && HasExactEdges(code, blocks[m]) && IsMarked(blocks[m])) &&
    (forall m, s :: 0 <= m < |blocks| && s in blocks[m].successors ==> IsStart(blocks, s)) &&
    IsMaximal(code, blocks) &&
    IsDual(blocks)
  }

  // ----- successor links

  /** `block` is `bare` with its successor links and its latch mark. */
  ghost predicate IsLinked(code: seq<Instruction>, bare: Block, block: Block) {
    block == bare.(successors := block.successors, loopRole := block.loopRole) &&
    HasExactEdges(code, block) &&
    block.loopRole == if LeadsBack(block) then Some(Latch) else None
  }

  /** The edges collected so far, target first, from the first `upTo` blocks. */
  ghost predicate ArePairs(blocks: seq<Block>, upTo: nat, pairs: seq<(Address, Address)>) {
    upTo <= |blocks| &&
    forall s, p :: (s, p) in pairs <==>
      exists m :: 0 <= m < upTo && p == blocks[m].start && s in blocks[m].successors
  }

  lemma OwnerOfHead(
    code: seq<Instruction>, leaders: set<Address>, cut: Cut, owner: map<Address, Address>,
    a: Address)
    requires IsOwnerMap(code, leaders, |code|, owner) && AreHeads(code, leaders, cut, |code|)
    requires exists n :: 0 <= n < |cut.heads| && code[cut.heads[n]].address == a
    ensures a in owner && owner[a] == a
  {
    var n :| 0 <= n < |cut.heads| && code[cut.heads[n]].address == a;
    assert StartOf(code, leaders, cut.heads[n]) == code[cut.heads[n]].address;
  }

  lemma OwnerKeys(
    code: seq<Instruction>, leaders: set<Address>, owner: map<Address, Address>, a: Address)
    requires IsOwnerMap(code, leaders, |code|, owner)
    ensures a in owner <==> HasKey(code, a)
  {
    if HasKey(code, a) {
      var i :| 0 <= i < |code| && code[i].address == a;
      var start := StartOf(code, leaders, i);
    }
  }

  /** Edges inside the function are owned by the very block they lead to. */
  lemma EdgeOwners(
    code: seq<Instruction>, leaders: set<Address>, cut: Cut, owner: map<Address, Address>,
    m: nat, a: Address)
    requires Sorted(code) && AreLeaders(code, leaders) && AreHeads(code, leaders, cut, |code|)
    requires IsOwnerMap(code, leaders, |code|, owner)
    requires m < |cut.heads| && 0 < cut.ends[m] <= |code|
    requires a in EdgeAddresses(code, code[cut.ends[m] - 1]) && a in owner
    ensures owner[a] == a
  {
    OwnerKeys(code, leaders, owner, a);
    EdgesHitHeads(code, leaders, cut, m, a);
    OwnerOfHead(code, leaders, cut, owner, a);
  }

  lemma BlockEdgesOwned(
    code: seq<Instruction>, leaders: set<Address>, cut: Cut, owner: map<Address, Address>, m: nat,
    last: Instruction)
    requires Sorted(code) && AreLeaders(code, leaders) && AreHeads(code, leaders, cut, |code|)
    requires IsOwnerMap(code, leaders, |code|, owner)
    requires m < |cut.heads| && 0 < cut.ends[m] <= |code| && last == code[cut.ends[m] - 1]
    ensures forall a :: a in EdgeAddresses(code, last) && a in owner ==> owner[a] == a
  {
    forall a | a in EdgeAddresses(code, last) && a in owner
      ensures owner[a] == a
    {
      EdgeOwners(code, leaders, cut, owner, m, a);
    }
  }

  lemma OwnersAreCode(code: seq<Instruction>, leaders: set<Address>, owner: map<Address, Address>)
    requires IsOwnerMap(code, leaders, |code|, owner)
    ensures forall a :: a in owner <==> HasKey(code, a)
  {
    forall a
      ensures a in owner <==> HasKey(code, a)
    {
      OwnerKeys(code, leaders, owner, a);
    }
  }

  lemma LastOfBlock(code: seq<Instruction>, first: nat, past: nat, bare: Block)
    requires IsBlock(code, first, past, bare)
    ensures bare.instructions != [] && Last(bare) == code[past - 1]
  {
  }

  /** The links that LinkSuccessors finds are the ones of IsLinked. */
  lemma LinksFound(
    code: seq<Instruction>, owner: map<Address, Address>, bare: Block, successors: seq<Address>,
    latch: bool, block: Block)
    requires bare.instructions != [] && forall a :: a in owner <==> HasKey(code, a)
    requires NoDup(successors)
    requires forall s :: s in successors <==> s in EdgeAddresses(code, Last(bare)) && s in owner
    requires latch <==> exists s :: s in successors && Key(s) <= Key(bare.start)
    requires block == bare.(successors := successors, loopRole := if latch then Some(Latch) else None)
    ensures IsLinked(code, bare, block)
  {
  }

  method LinkBlock(
    code: seq<Instruction>, ghost leaders: set<Address>, ghost cut: Cut,
    owner: map<Address, Address>, ghost m: nat, bare: Block)
    returns (block: Block)
    requires Sorted(code) && AreLeaders(code, leaders) && AreHeads(code, leaders, cut, |code|)
    requires IsOwnerMap(code, leaders, |code|, owner)
    requires m < |cut.heads| && IsBlock(code, cut.heads[m], cut.ends[m], bare)
    ensures IsLinked(code, bare, block)
  {
    LastOfBlock(code, cut.heads[m], cut.ends[m], bare);
    BlockEdgesOwned(code, leaders, cut, owner, m, Last(bare));
    OwnersAreCode(code, leaders, owner);
    var successors, latch := LinkSuccessors(EdgeAddresses(code, Last(bare)), owner, bare.start);
    block := bare.(successors := successors, loopRole := if latch then Some(Latch) else None);
    LinksFound(code, owner, bare, successors, latch, block);
  }

  lemma PairsOfPrefix(blocks: seq<Block>, m: nat, block: Block, pairs: seq<(Address, Address)>)
    requires m < |blocks| && ArePairs(blocks, m, pairs)
    ensures ArePairs(blocks[m := block], m, pairs)
  {
    var updated := blocks[m := block];
    forall s, p
      ensures (s, p) in pairs <==>
        exists k :: 0 <= k < m && p == updated[k].start && s in updated[k].successors
    {
      if (s, p) in pairs {
        var k :| 0 <= k < m && p == blocks[k].start && s in blocks[k].successors;
        assert updated[k] == blocks[k];
      }
      if k :| 0 <= k < m && p == updated[k].start && s in updated[k].successors {
        assert updated[k] == blocks[k];
      }
    }
  }

  method CollectPairs(block: Block, blocks: seq<Block>, m: nat, pairs0: seq<(Address, Address)>)
    returns (pairs: seq<(Address, Address)>)
    requires m < |blocks| && blocks[m] == block && ArePairs(blocks, m, pairs0)
    ensures ArePairs(blocks, m + 1, pairs)
  {
    var own := seq(|block.successors|, i requires 0 <= i < |block.successors| =>
      (block.successors[i], block.start));
    pairs := pairs0 + own;
    forall s, p
      ensures (s, p) in own <==> p == block.start && s in block.successors
    {
      if s in block.successors && p == block.start {
        var i :| 0 <= i < |block.successors| && block.successors[i] == s;
        assert own[i] == (s, p);
      }
    }
  }

  /** The first `m` blocks are linked and their edges collected. */
  ghost predicate LinkedUpTo(
    code: seq<Instruction>, bare: seq<Block>, m: nat, blocks: seq<Block>,
    pairs: seq<(Address, Address)>) {
    m <= |bare| == |blocks| &&
    (forall k :: 0 <= k < m ==> IsLinked(code, bare[k], blocks[k])) &&
    (forall k :: m <= k < |bare| ==> blocks[k] == bare[k]) &&
    ArePairs(blocks, m, pairs)
  }

  lemma LinkedGrows(
    code: seq<Instruction>, bare: seq<Block>, m: nat, blocks: seq<Block>,
    pairs: seq<(Address, Address)>, block: Block, more: seq<(Address, Address)>)
    requires LinkedUpTo(code, bare, m, blocks, pairs) && m < |bare| && IsLinked(code, bare[m], block)
    requires ArePairs(blocks[m := block], m + 1, more)
    ensures LinkedUpTo(code, bare, m + 1, blocks[m := block], more)
  {
  }

  method LinkBlocks(
    code: seq<Instruction>, ghost leaders: set<Address>, ghost cut: Cut,
    owner: map<Address, Address>, bare: seq<Block>)
    returns (blocks: seq<Block>, pairs: seq<(Address, Address)>)
    requires Sorted(code) && AreLeaders(code, leaders) && IsCut(code, leaders, cut, bare, |code|)
    requires IsOwnerMap(code, leaders, |code|, owner)
    ensures LinkedUpTo(code, bare, |bare|, blocks, pairs)
  {
    blocks, pairs := bare, [];
    for m := 0 to |bare|
      invariant LinkedUpTo(code, bare, m, blocks, pairs)
    {
      var block := LinkBlock(code, leaders, cut, owner, m, bare[m]);
      PairsOfPrefix(blocks, m, block, pairs);
      var more := CollectPairs(block, blocks[m := block], m, pairs);
      LinkedGrows(code, bare, m, blocks, pairs, block, more);
      blocks, pairs := blocks[m := block], more;
    }
  }

  // ----- predecessor links

  ghost predicate AreIndices(blocks: seq<Block>, indices: map<Address, nat>) {
    (forall m :: 0 <= m < |blocks| ==>
      blocks[m].start in indices && indices[blocks[m].start] == m) &&
    forall a :: a in indices ==> indices[a] < |blocks| && blocks[indices[a]].start == a
  }

  method IndexBlocks(blocks: seq<Block>) returns (indices: map<Address, nat>)
    requires StartsAscend(blocks)
    ensures AreIndices(blocks, indices)
  {
    indices := map[];
    for m := 0 to |blocks|
      invariant forall k :: 0 <= k < m ==> blocks[k].start in indices && indices[blocks[k].start] == k
      invariant forall a :: a in indices ==> indices[a] < m && blocks[indices[a]].start == a
    {
      indices := indices[blocks[m].start := m];
    }
  }

  /** The loop mark of a linked block once `predecessors` are known. */
  ghost function RoleFor(linked: Block, predecessors: seq<Address>): Option<Role> {
    if linked.loopRole.Some? then linked.loopRole
    else if exists p :: p in predecessors && Key(p) >= Key(linked.start) then Some(Header)
    else None
  }

  /** `block` is `linked` with the predecessors that `pairs` lists for it. */
  ghost predicate IsBackLinked(linked: Block, pairs: seq<(Address, Address)>, block: Block) {
    block == linked.(predecessors := block.predecessors, loopRole := block.loopRole) &&
    NoDup(block.predecessors) &&
    (forall p :: p in block.predecessors <==> (linked.start, p) in pairs) &&
    block.loopRole == RoleFor(linked, block.predecessors)
  }

  method AddPredecessor(
    ghost linked: Block, ghost pairs: seq<(Address, Address)>, block0: Block, predecessor: Address)
    returns (block: Block)
    requires IsBackLinked(linked, pairs, block0) && Key(linked.start) <= Key(linked.end)
    ensures IsBackLinked(linked, pairs + [(linked.start, predecessor)], block)
  {
    block := block0;
    if predecessor !in block.predecessors {
      block := block.(predecessors := block.predecessors + [predecessor]);
    }
    if block.loopRole.None? && Key(block.start) <= Key(block.end) {
      if exists p :: p in block.predecessors && Key(p) >= Key(block.start) {
        block := block.(loopRole := Some(Header));
      }
    }
  }

  lemma OtherBlockUnaffected(
    linked: Block, pairs: seq<(Address, Address)>, block: Block, pair: (Address, Address))
    requires IsBackLinked(linked, pairs, block) && pair.0 != linked.start
    ensures IsBackLinked(linked, pairs + [pair], block)
  {
  }

  method LinkPredecessors(linked: seq<Block>, pairs: seq<(Address, Address)>)
    returns (blocks: seq<Block>)
    requires StartsAscend(linked)
    requires forall m :: 0 <= m < |linked| ==>
      linked[m].predecessors == [] && Key(linked[m].start) <= Key(linked[m].end) &&
      linked[m].loopRole != Some(Header)
    ensures |blocks| == |linked|
    ensures forall m :: 0 <= m < |linked| ==> IsBackLinked(linked[m], pairs, blocks[m])
  {
    blocks := linked;
    var indices := IndexBlocks(linked);
    for i := 0 to |pairs|
      invariant |blocks| == |linked|
      invariant forall m :: 0 <= m < |linked| ==> IsBackLinked(linked[m], pairs[..i], blocks[m])
    {
      var (successor, predecessor) := pairs[i];
      assert pairs[..i + 1] == pairs[..i] + [pairs[i]];
      forall m | 0 <= m < |linked| && linked[m].start != successor
        ensures IsBackLinked(linked[m], pairs[..i + 1], blocks[m])
      {
        OtherBlockUnaffected(linked[m], pairs[..i], blocks[m], pairs[i]);
      }
      if successor in indices {
        var index := indices[successor];
        var block := AddPredecessor(linked[index], pairs[..i], blocks[index], predecessor);
        blocks := blocks[index := block];
      }
    }
    assert pairs[..|pairs|] == pairs;
  }

  // ----- the whole graph

  /** The blocks cover the code from the first instruction on, without gaps. */
  predicate IsContiguous(code: seq<Instruction>, cut: Cut, bare: seq<Block>) {
    |cut.heads| == |bare| == |cut.ends| &&
    (if bare == [] then code == []
     else cut.heads[0] == 0 && cut.ends[|bare| - 1] == |code|) &&
    forall m {:trigger bare[m]} :: 0 <= m < |bare| ==>
      cut.heads[m] <= cut.ends[m] <= |code| &&
      (m + 1 < |bare| ==> cut.ends[m] == cut.heads[m + 1]) &&
      bare[m].instructions == code[cut.heads[m]..cut.ends[m]]
  }

  lemma CutIsContiguous(
    code: seq<Instruction>, leaders: set<Address>, cut: Cut, bare: seq<Block>)
    requires IsCut(code, leaders, cut, bare, |code|)
    ensures IsContiguous(code, cut, bare)
  {
    forall m | 0 <= m < |bare|
      ensures cut.heads[m] <= cut.ends[m] <= |code|
      ensures m + 1 < |bare| ==> cut.ends[m] == cut.heads[m + 1]
      ensures bare[m].instructions == code[cut.heads[m]..cut.ends[m]]
    {
      assert IsBlock(code, cut.heads[m], cut.ends[m], bare[m]);
    }
  }

  lemma {:induction false} CutJoins(code: seq<Instruction>, cut: Cut, bare: seq<Block>, m: nat)
    requires IsContiguous(code, cut, bare) && 0 < m <= |bare|
    ensures cut.ends[m - 1] <= |code| && Joined(bare[..m]) == code[..cut.ends[m - 1]]
    decreases m
  {
    var last := bare[m - 1];
    assert bare[..m][..m - 1] == bare[..m - 1];
    if m <= 1 {
    } else {
      CutJoins(code, cut, bare, m - 1);
      var before := bare[m - 2];
      assert cut.ends[m - 2] == cut.heads[m - 1];
    }
  }

  lemma ContiguousJoins(code: seq<Instruction>, cut: Cut, bare: seq<Block>)
    requires IsContiguous(code, cut, bare)
    ensures Joined(bare) == code
  {
    if bare != [] {
      CutJoins(code, cut, bare, |bare|);
      assert bare[..|bare|] == bare && code[..|code|] == code;
    }
  }

  lemma {:induction false} JoinedByInstructions(a: seq<Block>, b: seq<Block>)
    requires |a| == |b| && forall m :: 0 <= m < |a| ==> a[m].instructions == b[m].instructions
    ensures Joined(a) == Joined(b)
    decreases |a|
  {
    if a == [] {
    } else {
      JoinedByInstructions(a[..|a| - 1], b[..|b| - 1]);
    }
  }

  lemma CutAscends(
    code: seq<Instruction>, leaders: set<Address>, cut: Cut, bare: seq<Block>)
    requires Sorted(code) && IsCut(code, leaders, cut, bare, |code|)
    ensures StartsAscend(bare)
    ensures forall m :: 0 <= m < |bare| ==> Key(bare[m].start) <= Key(bare[m].end)
  {
    forall m | 0 <= m < |bare|
      ensures bare[m].start == code[cut.heads[m]].address && Key(bare[m].start) <= Key(bare[m].end)
    {
      assert IsBlock(code, cut.heads[m], cut.ends[m], bare[m]);
    }
    forall m, n | 0 <= m < n < |bare|
      ensures Key(bare[m].start) < Key(bare[n].start)
    {
      assert cut.heads[m] < cut.heads[n];
    }
  }

  lemma CutIsStraight(
    code: seq<Instruction>, leaders: set<Address>, cut: Cut, bare: seq<Block>, m: nat)
    requires IsCut(code, leaders, cut, bare, |code|) && m < |bare|
    ensures IsStraight(bare[m])
  {
    var first, past := cut.heads[m], cut.ends[m];
    assert IsBlock(code, first, past, bare[m]);
    forall k | 0 <= k < past - first - 1
      ensures GoesOn(bare[m].instructions[k])
    {
      assert !IsHead(code, leaders, first + k + 1);
    }
  }

  /** A head after the first has one of the two reasons. */
  lemma HeadForced(code: seq<Instruction>, leaders: set<Address>, k: nat)
    requires Sorted(code) && OnlyLeaders(code, leaders)
    requires 0 < k < |code| && IsHead(code, leaders, k)
    ensures !GoesOn(code[k - 1]) || IsTarget(code, code[k].address)
  {
    var a := code[k].address;
    if a in leaders {
      assert Key(code[0].address) < Key(a);
      var i :| 0 <= i < |code| && a in LeadersOf(code, code[i]);
      NextKeyAt(code, i);
      if code[i].target != Some(a) {
        assert code[i].flow.Branch? && code[i + 1].address == a;
        assert i + 1 == k;
      }
    }
  }

  lemma CutIsForced(
    code: seq<Instruction>, leaders: set<Address>, cut: Cut, bare: seq<Block>, m: nat, n: nat)
    requires Sorted(code) && OnlyLeaders(code, leaders) && IsCut(code, leaders, cut, bare, |code|)
    requires n == m + 1 && n < |bare|
    ensures IsForced(code, bare[m], bare[n])
  {
    LastBeforeHead(code, leaders, cut, bare, m, n);
    HeadForced(code, leaders, cut.heads[n]);
  }

  lemma ForcedTransfers(code: seq<Instruction>, bare: seq<Block>, blocks: seq<Block>)
    requires |bare| == |blocks| && forall m :: 0 <= m < |bare| ==> SameCode(bare[m], blocks[m])
    requires IsMaximal(code, bare)
    ensures IsMaximal(code, blocks)
  {
    forall m, n | 0 <= m < n < |blocks| && n == m + 1
      ensures IsForced(code, blocks[m], blocks[n])
    {
      assert IsForced(code, bare[m], bare[n]);
    }
  }

  lemma LastBeforeHead(
    code: seq<Instruction>, leaders: set<Address>, cut: Cut, bare: seq<Block>, m: nat, n: nat)
    requires IsCut(code, leaders, cut, bare, |code|) && n == m + 1 && n < |bare|
    ensures 0 < cut.heads[n] < |code| && IsHead(code, leaders, cut.heads[n])
    ensures bare[n].start == code[cut.heads[n]].address
    ensures bare[m].instructions != [] && Last(bare[m]) == code[cut.heads[n] - 1]
  {
    assert IsBlock(code, cut.heads[n], cut.ends[n], bare[n]);
    LastOfCut(code, leaders, cut, bare, m);
    assert cut.ends[m] == cut.heads[n];
  }

  lemma CutIsMaximal(
    code: seq<Instruction>, leaders: set<Address>, cut: Cut, bare: seq<Block>)
    requires Sorted(code) && OnlyLeaders(code, leaders) && IsCut(code, leaders, cut, bare, |code|)
    ensures IsMaximal(code, bare)
  {
    forall m, n | 0 <= m < n < |bare| && n == m + 1
      ensures IsForced(code, bare[m], bare[n])
    {
      CutIsForced(code, leaders, cut, bare, m, n);
    }
  }

  lemma HeadIsStart(
    code: seq<Instruction>, leaders: set<Address>, cut: Cut, bare: seq<Block>, a: Address)
    requires IsCut(code, leaders, cut, bare, |code|)
    requires exists n :: 0 <= n < |cut.heads| && code[cut.heads[n]].address == a
    ensures IsStart(bare, a)
  {
    var n :| 0 <= n < |cut.heads| && code[cut.heads[n]].address == a;
    assert IsBlock(code, cut.heads[n], cut.ends[n], bare[n]);
    assert bare[n].start == a;
  }

  lemma LastOfCut(
    code: seq<Instruction>, leaders: set<Address>, cut: Cut, bare: seq<Block>, m: nat)
    requires IsCut(code, leaders, cut, bare, |code|) && m < |bare|
    ensures 0 < cut.ends[m] <= |code| && bare[m].instructions != []
    ensures Last(bare[m]) == code[cut.ends[m] - 1]
  {
    assert IsBlock(code, cut.heads[m], cut.ends[m], bare[m]);
  }

  lemma CutEdgesStart(
    code: seq<Instruction>, leaders: set<Address>, cut: Cut, bare: seq<Block>, m: nat,
    a: Address)
    requires Sorted(code) && AreLeaders(code, leaders) && IsCut(code, leaders, cut, bare, |code|)
    requires m < |bare| && bare[m].instructions != []
    requires a in EdgeAddresses(code, Last(bare[m])) && HasKey(code, a)
    ensures IsStart(bare, a)
  {
    LastOfCut(code, leaders, cut, bare, m);
    EdgesHitHeads(code, leaders, cut, m, a);
    HeadIsStart(code, leaders, cut, bare, a);
  }

  /** `block` differs from `bare` by its links and mark only. */
  predicate SameCode(bare: Block, block: Block) {
    block.start == bare.start && block.end == bare.end && block.instructions == bare.instructions
  }

  lemma LinksAreExact(
    code: seq<Instruction>, bare: Block, linked: Block, pairs: seq<(Address, Address)>, block: Block)
    requires IsLinked(code, bare, linked) && IsBackLinked(linked, pairs, block)
    ensures SameCode(bare, block) && block.successors == linked.successors
    ensures HasExactEdges(code, block) && IsMarked(block)
  {
  }

  lemma PairsAreDual(linked: seq<Block>, pairs: seq<(Address, Address)>, blocks: seq<Block>)
    requires ArePairs(linked, |linked|, pairs) && |blocks| == |linked| && StartsAscend(linked)
    requires forall m :: 0 <= m < |linked| ==> IsBackLinked(linked[m], pairs, blocks[m])
    ensures IsDual(blocks)
  {
    forall n, p | 0 <= n < |blocks| && p in blocks[n].predecessors
      ensures IsStart(blocks, p)
    {
      var m :| 0 <= m < |linked| && p == linked[m].start && blocks[n].start in linked[m].successors;
      assert blocks[m].start == p;
    }
    forall m, n | 0 <= m < |blocks| && 0 <= n < |blocks|
      ensures blocks[n].start in blocks[m].successors <==>
              blocks[m].start in blocks[n].predecessors
    {
      PairsOfOne(linked, pairs, m, blocks[n].start);
    }
  }

  lemma PairsOfOne(linked: seq<Block>, pairs: seq<(Address, Address)>, m: nat, s: Address)
    requires ArePairs(linked, |linked|, pairs) && StartsAscend(linked) && m < |linked|
    ensures (s, linked[m].start) in pairs <==> s in linked[m].successors
  {
    if (s, linked[m].start) in pairs {
      var k :| 0 <= k < |linked| && linked[m].start == linked[k].start && s in linked[k].successors;
      assert k == m;
    }
  }

  method BuildBlocks(code: seq<Instruction>) returns (blocks: seq<Block>)
    requires Sorted(code)
    ensures WellFormed(code, blocks)
  {
    var leaders := CollectLeaders(code);
    var bare, cut := CutBlocks(code, leaders);
    var owner := OwnersOf(code, bare, leaders, cut);
    var linked, pairs := LinkBlocks(code, leaders, cut, owner, bare);
    CutAscends(code, leaders, cut, bare);
    forall m | 0 <= m < |bare|
      ensures SameCode(bare[m], linked[m]) && linked[m].predecessors == []
    {
      assert IsLinked(code, bare[m], linked[m]);
      assert IsBlock(code, cut.heads[m], cut.ends[m], bare[m]);
    }
    blocks := LinkPredecessors(linked, pairs);
    Assemble(code, leaders, cut, bare, linked, pairs, blocks);
  }

  lemma AssembleBlock(
    code: seq<Instruction>, leaders: set<Address>, cut: Cut, bare: seq<Block>,
    linked: seq<Block>, pairs: seq<(Address, Address)>, block: Block, m: nat)
    requires IsCut(code, leaders, cut, bare, |code|) && m < |bare| == |linked|
    requires IsLinked(code, bare[m], linked[m]) && IsBackLinked(linked[m], pairs, block)
    ensures SameCode(bare[m], block) && linked[m].start == bare[m].start
    ensures IsStraight(block) && HasExactEdges(code, block) && IsMarked(block)
  {
    LinksAreExact(code, bare[m], linked[m], pairs, block);
    CutIsStraight(code, leaders, cut, bare, m);
  }

  lemma LinkIsEdge(code: seq<Instruction>, bare: Block, block: Block, s: Address)
    requires SameCode(bare, block) && HasExactEdges(code, block) && s in block.successors
    ensures bare.instructions != [] && s in EdgeAddresses(code, Last(bare)) && HasKey(code, s)
  {
  }

  lemma AssembleEdges(
    code: seq<Instruction>, leaders: set<Address>, cut: Cut, bare: seq<Block>,
    blocks: seq<Block>, m: nat, s: Address)
    requires Sorted(code) && AreLeaders(code, leaders) && IsCut(code, leaders, cut, bare, |code|)
    requires |blocks| == |bare| && m < |bare| && HasExactEdges(code, blocks[m])
    requires forall k :: 0 <= k < |bare| ==> SameCode(bare[k], blocks[k])
    requires s in blocks[m].successors
    ensures IsStart(blocks, s)
  {
    LinkIsEdge(code, bare[m], blocks[m], s);
    CutEdgesStart(code, leaders, cut, bare, m, s);
    StartTransfers(bare, blocks, s);
  }

  lemma StartTransfers(bare: seq<Block>, blocks: seq<Block>, s: Address)
    requires |blocks| == |bare| && IsStart(bare, s)
    requires forall k :: 0 <= k < |bare| ==> SameCode(bare[k], blocks[k])
    ensures IsStart(blocks, s)
  {
    var n :| 0 <= n < |bare| && bare[n].start == s;
    assert blocks[n].start == s;
  }

  lemma AssembleOrder(code: seq<Instruction>, bare: seq<Block>, blocks: seq<Block>)
    requires StartsAscend(bare) && Joined(bare) == code && |blocks| == |bare|
    requires forall k :: 0 <= k < |bare| ==> SameCode(bare[k], blocks[k])
    ensures Joined(blocks) == code && StartsAscend(blocks)
  {
    JoinedByInstructions(blocks, bare);
  }

  lemma Assemble(
    code: seq<Instruction>, leaders: set<Address>, cut: Cut, bare: seq<Block>,
    linked: seq<Block>, pairs: seq<(Address, Address)>, blocks: seq<Block>)
    requires Sorted(code) && IsCut(code, leaders, cut, bare, |code|)
    requires AreLeaders(code, leaders) && OnlyLeaders(code, leaders)
    requires LinkedUpTo(code, bare, |bare|, linked, pairs) && |blocks| == |bare|
    requires forall m :: 0 <= m < |linked| ==> IsBackLinked(linked[m], pairs, blocks[m])
    ensures WellFormed(code, blocks)
  {
    forall m | 0 <= m < |blocks|
      ensures SameCode(bare[m], blocks[m]) && linked[m].start == blocks[m].start
      ensures IsStraight(blocks[m]) && HasExactEdges(code, blocks[m]) && IsMarked(blocks[m])
    {
      AssembleBlock(code, leaders, cut, bare, linked, pairs, blocks[m], m);
    }
    CutAscends(code, leaders, cut, bare);
    CutIsContiguous(code, leaders, cut, bare);
    ContiguousJoins(code, cut, bare);
    AssembleOrder(code, bare, blocks);
    CutIsMaximal(code, leaders, cut, bare);
    ForcedTransfers(code, bare, blocks);
    forall m, s | 0 <= m < |blocks| && s in blocks[m].successors
      ensures IsStart(blocks, s)
    {
      AssembleEdges(code, leaders, cut, bare, blocks, m, s);
    }
    PairsAreDual(linked, pairs, blocks);
  }

  // ----- loops

  predicate IsEdge(blocks: seq<Block>, m: nat, n: nat) {
    m < |blocks| && n < |blocks| && blocks[n].start in blocks[m].successors
  }

  /** A walk along successor links, as block positions. */
  predicate IsWalk(blocks: seq<Block>, walk: seq<nat>)
    decreases |walk|
  {
    var n := |walk|;
    n > 0 && walk[n - 1] < |blocks| &&
    (n > 1 ==> IsWalk(blocks, walk[..n - 1]) && IsEdge(blocks, walk[n - 2], walk[n - 1]))
  }

  lemma {:induction false} WalkStays(blocks: seq<Block>, walk: seq<nat>)
    requires IsWalk(blocks, walk)
    ensures forall i :: 0 <= i < |walk| ==> walk[i] < |blocks|
    decreases |walk|
  {
    var n := |walk|;
    if n <= 1 {
    } else {
      WalkStays(blocks, walk[..n - 1]);
      assert forall i :: 0 <= i < n - 1 ==> walk[..n - 1][i] == walk[i];
    }
  }

  lemma {:induction false} WalkWithoutLatchAscends(blocks: seq<Block>, walk: seq<nat>)
    requires IsWalk(blocks, walk) && forall m :: 0 <= m < |blocks| ==> IsMarked(blocks[m])
    requires forall i :: 0 <= i < |walk| ==> walk[i] < |blocks|
    requires forall i :: 0 <= i < |walk| - 1 ==> blocks[walk[i]].loopRole != Some(Latch)
    ensures |walk| > 1 ==> Key(blocks[walk[0]].start) < Key(blocks[walk[|walk| - 1]].start)
    decreases |walk|
  {
    var n := |walk|;
    if n <= 1 {
    } else {
      var rest := walk[..n - 1];
      assert forall i :: 0 <= i < n - 1 ==> rest[i] == walk[i];
      WalkWithoutLatchAscends(blocks, rest);
      StepWithoutLatchAscends(blocks[walk[n - 2]], blocks[walk[n - 1]].start);
    }
  }

  lemma StepWithoutLatchAscends(from: Block, to: Address)
    requires IsMarked(from) && from.loopRole != Some(Latch) && to in from.successors
    ensures Key(from.start) < Key(to)
  {
  }

  /** Every cycle of the graph goes through a block marked as a latch. */
  lemma CycleHasLatch(code: seq<Instruction>, blocks: seq<Block>, walk: seq<nat>)
    requires WellFormed(code, blocks) && IsWalk(blocks, walk)
    requires |walk| > 1 && walk[0] == walk[|walk| - 1]
    ensures exists m :: m in walk && m < |blocks| && blocks[m].loopRole == Some(Latch)
  {
    WalkStays(blocks, walk);
    if forall i :: 0 <= i < |walk| - 1 ==> blocks[walk[i]].loopRole != Some(Latch) {
      WalkWithoutLatchAscends(blocks, walk);
    } else {
      var i :| 0 <= i < |walk| - 1 && blocks[walk[i]].loopRole == Some(Latch);
      assert walk[i] in walk;
    }
  }

  /** The edge from `from` to `to` does not lead to a later start. */
  predicate IsBackEdge(from: Block, to: Block) {
    to.start in from.successors && Key(to.start) <= Key(from.start)
  }

  /** A block is marked exactly when it is an end of an edge that does not lead to a later start. */
  lemma MarkedIffOnBackEdge(code: seq<Instruction>, blocks: seq<Block>, m: nat)
    requires WellFormed(code, blocks) && m < |blocks|
    ensures blocks[m].loopRole.Some? <==>
      (exists n :: 0 <= n < |blocks| &&
        (IsBackEdge(blocks[m], blocks[n]) || IsBackEdge(blocks[n], blocks[m])))
  {
    var b := blocks[m];
    assert IsMarked(b);
    if LeadsBack(b) {
      var s :| s in b.successors && Key(s) <= Key(b.start);
      assert IsStart(blocks, s);
      var n :| 0 <= n < |blocks| && blocks[n].start == s;
    }
    if EnteredFromBack(b) {
      var p :| p in b.predecessors && Key(p) >= Key(b.start);
      assert IsStart(blocks, p);
      var n :| 0 <= n < |blocks| && blocks[n].start == p;
      assert blocks[m].start in blocks[n].successors;
    }
  }
}
