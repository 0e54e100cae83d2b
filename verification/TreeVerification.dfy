/** Verification of downloaded commitment tree states: each is recomputed from the closest lower state by appending
    the commitments of the batch's blocks in between. A commitment tree is the sequence of its leaves. */
module TreeVerification {
  import opened Wrappers
  import opened Sequences
  import opened CompactBlocks
  import opened ChainSlots

  /** `orchardTree` is None for the empty string servers send below Orchard activation. */
  datatype TreeState = TreeState(height: nat, saplingTree: seq<nat>, orchardTree: Option<seq<nat>>)

  function OrchardLeaves(state: TreeState): seq<nat> {
    if state.orchardTree.Some? then state.orchardTree.value else []
  }

  /** The leaves a block appends. */
  function BlockCommitments(pool: Pool, block: CompactBlock): seq<nat> {
    Nodes(BlockSlots(pool, block))
  }

  /** The tree after all blocks up to height `h`. */
  ghost function ChainTree(pool: Pool, chain: nat -> CompactBlock, h: nat): seq<nat> {
    (if h == 0 then [] else ChainTree(pool, chain, h - 1)) + BlockCommitments(pool, chain(h))
  }

  ghost predicate Genuine(state: TreeState, chain: nat -> CompactBlock) {
    && state.saplingTree == ChainTree(Sapling, chain, state.height)
    && OrchardLeaves(state) == ChainTree(Orchard, chain, state.height)
  }

  /** The batch's blocks are the chain's, tallest first. */
  ghost predicate Batch(blocks: seq<CompactBlock>, chain: nat -> CompactBlock) {
    && blocks != []
    && |blocks| <= blocks[0].height + 1
    && forall i :: 0 <= i < |blocks| ==> blocks[i] == chain(blocks[0].height - i)
  }

  // ---- One pair

  /** What lies between two heights, in ascending order, read off the descending list. */
  function Between(pool: Pool, blocks: seq<CompactBlock>, lo: nat, hi: nat): seq<nat>
    requires blocks != [] && lo <= hi <= blocks[0].height && (lo < hi ==> blocks[0].height - lo - 1 < |blocks|)
  {
    if lo == hi then [] else Between(pool, blocks, lo, hi - 1) + BlockCommitments(pool, blocks[blocks[0].height - hi])
  }

  /** Both recomputed trees equal the candidate's. */
  predicate Strict(blocks: seq<CompactBlock>, candidate: TreeState, closest: TreeState)
    requires closest.height < candidate.height && blocks != [] && candidate.height <= blocks[0].height
    requires blocks[0].height - closest.height - 1 < |blocks|
  {
    && closest.saplingTree + Between(Sapling, blocks, closest.height, candidate.height) == candidate.saplingTree
    && Some(OrchardLeaves(closest) + Between(Orchard, blocks, closest.height, candidate.height))
         == candidate.orchardTree
  }

  /** `parentless` stands for the string comparison that tolerates another encoding of parentless Orchard trees. */
  predicate Fallback(orchard: seq<nat>, candidate: TreeState, parentless: (seq<nat>, Option<seq<nat>>) -> bool) {
    orchard == [] || parentless(orchard, candidate.orchardTree)
  }

  /** When verify_tree_pair answers true. */
  predicate PairAccepted(
      blocks: seq<CompactBlock>, candidate: TreeState, closest: TreeState,
      parentless: (seq<nat>, Option<seq<nat>>) -> bool)
    requires blocks != [] && closest.height <= candidate.height <= blocks[0].height
  {
    || closest.height == candidate.height
    || blocks[0].height - closest.height - 1 >= |blocks|
    || Strict(blocks, candidate, closest)
    || Fallback(
         OrchardLeaves(closest) + Between(Orchard, blocks, closest.height, candidate.height), candidate, parentless)
  }

  method UpdateTree(tree: seq<nat>, outputs: seq<Output>) returns (r: seq<nat>)
    ensures r == tree + Commitments(outputs)
  {
    r := tree;
    for i := 0 to |outputs|
      invariant r == tree + Commitments(outputs)[..i]
    {
      r := r + [outputs[i].commitment];
    }
    assert Commitments(outputs)[..|outputs|] == Commitments(outputs);
  }

  /** Appends one block's commitments to both trees, transaction by transaction: each tree grows by one leaf for each of
      the block's outputs in its pool, in their places. */
  method UpdateTrees(block: CompactBlock, sapling: seq<nat>, orchard: seq<nat>) returns (s: seq<nat>, o: seq<nat>)
    ensures s == sapling + BlockCommitments(Sapling, block) && o == orchard + BlockCommitments(Orchard, block)
    ensures |s| == |sapling| + BlockCount(Sapling, block) && |o| == |orchard| + BlockCount(Orchard, block)
    ensures GrowsBy(Sapling, block, sapling, s) && GrowsBy(Orchard, block, orchard, o)
  {
    hide TreeWithTxs, Commitments, TxsCount, BlockCount, GrowsBy, BlockSlots, Nodes;
    s, o := sapling, orchard;
    NoTxsNodes(Sapling, sapling, block);
    NoTxsNodes(Orchard, orchard, block);
    for t := 0 to |block.vtx|
      invariant s == TreeWithTxs(Sapling, sapling, block, t) && o == TreeWithTxs(Orchard, orchard, block, t)
    {
      TxsNodesStep(Sapling, sapling, block, t);
      TxsNodesStep(Orchard, orchard, block, t);
      s := UpdateTree(s, block.vtx[t].outputs);
      o := UpdateTree(o, block.vtx[t].Outputs(Orchard));
    }
    TreeWithBlock(Sapling, sapling, block);
    TreeWithBlock(Orchard, orchard, block);
  }

  /** The folded heights are exactly those above the closest state up to the candidate's, ascending. */
  method VerifyTreePair(
      blocks: seq<CompactBlock>, candidate: TreeState, closest: TreeState,
      parentless: (seq<nat>, Option<seq<nat>>) -> bool)
    returns (ok: bool)
    requires blocks != [] && closest.height <= candidate.height <= blocks[0].height
    ensures ok <==> PairAccepted(blocks, candidate, closest, parentless)
  {
    hide BlockCommitments, Between, BlockCount, GrowsBy;
    if closest.height == candidate.height {
      return true;
    }
    var sapling, orchard := closest.saplingTree, OrchardLeaves(closest);
    NothingBetween(Sapling, blocks, closest.height, sapling);
    NothingBetween(Orchard, blocks, closest.height, orchard);
    var topBlock := blocks[0].height;
    var startPos := topBlock - closest.height - 1;
    var endPos := topBlock - candidate.height;
    if startPos >= |blocks| || endPos >= |blocks| {
      return true;
    }
    // (endPos..startPos + 1).rev()
    var i := startPos + 1;
    while i > endPos
      invariant endPos <= i <= startPos + 1
      invariant sapling == closest.saplingTree + Between(Sapling, blocks, closest.height, topBlock - i)
      invariant orchard == OrchardLeaves(closest) + Between(Orchard, blocks, closest.height, topBlock - i)
    {
      i := i - 1;
      OneMoreBetween(Sapling, blocks, closest.height, topBlock - i, closest.saplingTree);
      OneMoreBetween(Orchard, blocks, closest.height, topBlock - i, OrchardLeaves(closest));
      sapling, orchard := UpdateTrees(blocks[i], sapling, orchard);
    }
    if sapling == candidate.saplingTree && Some(orchard) == candidate.orchardTree {
      return true;
    }
    ok := orchard == [] || parentless(orchard, candidate.orchardTree);
  }

  lemma NothingBetween(pool: Pool, blocks: seq<CompactBlock>, height: nat, tree: seq<nat>)
    requires blocks != [] && height <= blocks[0].height
    ensures tree + Between(pool, blocks, height, height) == tree
  {
  }

  lemma OneMoreBetween(pool: Pool, blocks: seq<CompactBlock>, lo: nat, hi: nat, tree: seq<nat>)
    requires blocks != [] && lo < hi <= blocks[0].height && blocks[0].height - lo - 1 < |blocks|
    ensures tree + Between(pool, blocks, lo, hi)
              == tree + Between(pool, blocks, lo, hi - 1) + BlockCommitments(pool, blocks[blocks[0].height - hi])
  {
    hide BlockCommitments;
  }

  lemma BetweenStep(pool: Pool, blocks: seq<CompactBlock>, lo: nat, hi: nat)
    requires blocks != [] && lo <= hi <= blocks[0].height && (lo < hi ==> blocks[0].height - lo - 1 < |blocks|)
    ensures Between(pool, blocks, lo, hi) ==
            if lo == hi then []
            else Between(pool, blocks, lo, hi - 1) + BlockCommitments(pool, blocks[blocks[0].height - hi])
  {
  }

  lemma ChainTreeStep(pool: Pool, chain: nat -> CompactBlock, h: nat)
    requires h > 0
    ensures ChainTree(pool, chain, h) == ChainTree(pool, chain, h - 1) + BlockCommitments(pool, chain(h))
  {
  }

  lemma FirstChainTree(pool: Pool, chain: nat -> CompactBlock)
    ensures ChainTree(pool, chain, 0) == BlockCommitments(pool, chain(0))
  {
    hide BlockCommitments;
  }

  /** The chain's blocks up to height `h`. */
  function UpTo(chain: nat -> CompactBlock, h: nat): (r: seq<CompactBlock>)
    ensures |r| == h + 1 && forall i {:trigger r[i]} :: 0 <= i <= h ==> r[i] == chain(i)
  {
    seq(h + 1, i requires 0 <= i <= h => chain(i))
  }

  /** The chain's tree is the commitments of all outputs up to that height. */
  lemma {:induction false} ChainTreeIsNodes(pool: Pool, chain: nat -> CompactBlock, h: nat)
    ensures ChainTree(pool, chain, h) == Nodes(AllSlots(pool, UpTo(chain, h)))
  {
    hide AllSlots, BlockSlots, ChainTree, Nodes;
    OneBlockSlots(pool, chain(h));
    if h == 0 {
      assert UpTo(chain, 0) == [chain(0)];
      FirstChainTree(pool, chain);
    } else {
      ChainTreeIsNodes(pool, chain, h - 1);
      ChainTreeStep(pool, chain, h);
      assert UpTo(chain, h) == UpTo(chain, h - 1) + [chain(h)];
      AllSlotsConcat(pool, UpTo(chain, h - 1), [chain(h)]);
      NodesAppend(AllSlots(pool, UpTo(chain, h - 1)), BlockSlots(pool, chain(h)));
    }
  }

  /** A state is genuine if and only if each of its trees has one leaf for every output of its pool up to its height,
      and each output's commitment at the output's place in the chain. */
  lemma GenuineIffEveryLeaf(state: TreeState, chain: nat -> CompactBlock)
    ensures Genuine(state, chain) <==>
              && HoldsEvery(Sapling, UpTo(chain, state.height), state.saplingTree)
              && HoldsEvery(
                   Orchard, UpTo(chain, state.height),
                   if state.orchardTree.Some? then state.orchardTree.value else [])
  {
    hide ChainTree, AllSlots, HoldsEvery;
    var blocks := UpTo(chain, state.height);
    ChainTreeIsNodes(Sapling, chain, state.height);
    ChainTreeIsNodes(Orchard, chain, state.height);
    NodesHoldEvery(Sapling, blocks, state.saplingTree);
    NodesHoldEvery(Orchard, blocks, OrchardLeaves(state));
  }

  /** Appending what lies between to the lower tree of the chain gives the upper one. */
  lemma {:induction false} BetweenIsChain(
      pool: Pool, blocks: seq<CompactBlock>, chain: nat -> CompactBlock, lo: nat, hi: nat)
    requires Batch(blocks, chain) && lo <= hi <= blocks[0].height && (lo < hi ==> blocks[0].height - lo - 1 < |blocks|)
    ensures ChainTree(pool, chain, lo) + Between(pool, blocks, lo, hi) == ChainTree(pool, chain, hi)
  {
    hide Between, ChainTree, BlockCommitments;
    BetweenStep(pool, blocks, lo, hi);
    var tree := ChainTree(pool, chain, lo);
    if lo == hi {
      Regroup(tree, [], []);
    } else {
      BetweenIsChain(pool, blocks, chain, lo, hi - 1);
      ChainTreeStep(pool, chain, hi);
      Regroup(tree, Between(pool, blocks, lo, hi - 1), BlockCommitments(pool, blocks[blocks[0].height - hi]));
    }
  }

  /** From a genuine state below, inside the batch, the strict comparison accepts exactly the genuine candidates
      (those encoded with an Orchard tree). */
  lemma StrictIffGenuine(
      blocks: seq<CompactBlock>, chain: nat -> CompactBlock, candidate: TreeState, closest: TreeState)
    requires Batch(blocks, chain) && Genuine(closest, chain)
    requires closest.height < candidate.height <= blocks[0].height && blocks[0].height - closest.height - 1 < |blocks|
    ensures Strict(blocks, candidate, closest) <==> candidate.orchardTree.Some? && Genuine(candidate, chain)
  {
    hide ChainTree, Between;
    BetweenIsChain(Sapling, blocks, chain, closest.height, candidate.height);
    BetweenIsChain(Orchard, blocks, chain, closest.height, candidate.height);
  }

  /** The closest start is so far down that the batch's blocks do not reach it: nothing is folded. */
  predicate BelowBatch(blocks: seq<CompactBlock>, closest: TreeState) {
    blocks != [] && blocks[0].height - closest.height - 1 >= |blocks|
  }

  /** The exact reach of the whole check, fallback included: with a genuine state below, an accepted candidate is
      genuine unless that state lies below the batch, the Orchard tree at the candidate's height is empty, or the
      tolerant comparison matched. */
  lemma AcceptedIff(
      blocks: seq<CompactBlock>, chain: nat -> CompactBlock, candidate: TreeState, closest: TreeState,
      parentless: (seq<nat>, Option<seq<nat>>) -> bool)
    requires Batch(blocks, chain) && Genuine(closest, chain) && closest.height < candidate.height <= blocks[0].height
    ensures PairAccepted(blocks, candidate, closest, parentless) <==>
            || BelowBatch(blocks, closest)
            || (candidate.orchardTree.Some? && Genuine(candidate, chain))
            || ChainTree(Orchard, chain, candidate.height) == []
            || parentless(ChainTree(Orchard, chain, candidate.height), candidate.orchardTree)
  {
    hide ChainTree, Between;
    if !BelowBatch(blocks, closest) {
      StrictIffGenuine(blocks, chain, candidate, closest);
      BetweenIsChain(Orchard, blocks, chain, closest.height, candidate.height);
    }
  }

  /** A state at height `h` that is not the chain's, and passes nevertheless. */
  ghost predicate WrongStatePasses(
      blocks: seq<CompactBlock>, chain: nat -> CompactBlock, h: nat, closest: TreeState,
      parentless: (seq<nat>, Option<seq<nat>>) -> bool)
    requires blocks != [] && closest.height <= h <= blocks[0].height
  {
    exists c: TreeState :: c.height == h && !Genuine(c, chain) && PairAccepted(blocks, c, closest, parentless)
  }

  /** The tolerant comparison matches some encoding with the chain's Orchard tree. */
  ghost predicate ToleratesSome(orchard: seq<nat>, parentless: (seq<nat>, Option<seq<nat>>) -> bool) {
    exists encoding :: parentless(orchard, encoding)
  }

  /** A wrong state can pass at height `h` if and only if the closest genuine state lies below the batch, the chain has
      no Orchard commitment up to `h`, or the tolerant comparison matches any encoding there: none of the three looks at
      the Sapling tree. */
  lemma WrongStatePassesIff(
      blocks: seq<CompactBlock>, chain: nat -> CompactBlock, h: nat, closest: TreeState,
      parentless: (seq<nat>, Option<seq<nat>>) -> bool)
    requires Batch(blocks, chain) && Genuine(closest, chain) && closest.height < h <= blocks[0].height
    ensures WrongStatePasses(blocks, chain, h, closest, parentless) <==>
            || BelowBatch(blocks, closest)
            || ChainTree(Orchard, chain, h) == []
            || ToleratesSome(ChainTree(Orchard, chain, h), parentless)
  {
    hide ChainTree, PairAccepted, BelowBatch;
    forall c: TreeState | c.height == h
      ensures PairAccepted(blocks, c, closest, parentless) <==>
              || BelowBatch(blocks, closest)
              || (c.orchardTree.Some? && Genuine(c, chain))
              || ChainTree(Orchard, chain, h) == []
              || parentless(ChainTree(Orchard, chain, h), c.orchardTree)
    {
      AcceptedIff(blocks, chain, c, closest, parentless);
    }
    forall encoding: Option<seq<nat>>
      ensures !Genuine(TreeState(h, ChainTree(Sapling, chain, h) + [0], encoding), chain)
    {
      var wrong := TreeState(h, ChainTree(Sapling, chain, h) + [0], encoding);
      assert |wrong.saplingTree| != |ChainTree(Sapling, chain, h)|;
    }
    if ToleratesSome(ChainTree(Orchard, chain, h), parentless) {
      var encoding :| parentless(ChainTree(Orchard, chain, h), encoding);
      var wrong := TreeState(h, ChainTree(Sapling, chain, h) + [0], encoding);
      assert PairAccepted(blocks, wrong, closest, parentless);
    } else {
      var wrong := TreeState(h, ChainTree(Sapling, chain, h) + [0], None);
      assert !Genuine(wrong, chain);
    }
  }

  // ---- Choosing the pairs

  predicate SortedByHeight(states: seq<TreeState>) {
    forall i, j :: 0 <= i < j < |states| ==> states[i].height <= states[j].height
  }

  predicate StrictlySorted(states: seq<TreeState>) {
    forall i, j :: 0 <= i < j < |states| ==> states[i].height < states[j].height
  }

  function InsertByHeight(states: seq<TreeState>, s: TreeState): (r: seq<TreeState>)
    requires SortedByHeight(states)
    ensures SortedByHeight(r) && |r| == |states| + 1
    ensures forall t :: t in r <==> t == s || t in states
  {
    if states == [] || s.height < states[0].height then [s] + states
    else
      var rest := InsertByHeight(states[1..], s);
      assert forall t :: t in rest ==> states[0].height <= t.height;
      [states[0]] + rest
  }

  /** Nothing below depends on how a sort orders equal heights. */
  function SortByHeight(states: seq<TreeState>): (r: seq<TreeState>)
    ensures SortedByHeight(r) && |r| == |states|
    ensures forall t :: t in r <==> t in states
  {
    if states == [] then [] else InsertByHeight(SortByHeight(states[1..]), states[0])
  }

  /** Keeps the first state of each height of a sorted list's first `n` states. */
  function DedupByHeight(states: seq<TreeState>, n: nat): (r: seq<TreeState>)
    requires n <= |states|
    ensures n > 0 ==> r != [] && r[|r| - 1].height == states[n - 1].height
    ensures forall s :: s in r ==> s in states
  {
    if n == 0 then []
    else if n > 1 && states[n - 2].height == states[n - 1].height then DedupByHeight(states, n - 1)
    else DedupByHeight(states, n - 1) + [states[n - 1]]
  }

  predicate HasHeight(states: seq<TreeState>, height: nat) {
    exists i :: 0 <= i < |states| && states[i].height == height
  }

  lemma AppendTaller(states: seq<TreeState>, s: TreeState)
    requires StrictlySorted(states) && (states != [] ==> states[|states| - 1].height < s.height)
    ensures StrictlySorted(states + [s]) && HasHeight(states + [s], s.height)
    ensures forall h :: HasHeight(states, h) ==> HasHeight(states + [s], h)
  {
    assert (states + [s])[|states|] == s;
    forall h | HasHeight(states, h) ensures HasHeight(states + [s], h) {
      var i :| 0 <= i < |states| && states[i].height == h;
      assert (states + [s])[i] == states[i];
    }
  }

  lemma DedupStep(states: seq<TreeState>, n: nat)
    requires 0 < n <= |states|
    ensures DedupByHeight(states, n) ==
            if n > 1 && states[n - 2].height == states[n - 1].height then DedupByHeight(states, n - 1)
            else DedupByHeight(states, n - 1) + [states[n - 1]]
    ensures n == 1 ==> DedupByHeight(states, 0) == []
  {
  }

  lemma {:induction false} DedupSorted(states: seq<TreeState>, n: nat)
    requires SortedByHeight(states) && n <= |states|
    ensures StrictlySorted(DedupByHeight(states, n))
    ensures forall i :: 0 <= i < n ==> HasHeight(DedupByHeight(states, n), states[i].height)
  {
    if n > 0 {
      DedupStep(states, n);
      hide StrictlySorted, HasHeight, DedupByHeight;
      DedupSorted(states, n - 1);
      if n == 1 || states[n - 2].height != states[n - 1].height {
        AppendTaller(DedupByHeight(states, n - 1), states[n - 1]);
      }
    }
  }

  /** No height has two different states. */
  predicate OneStatePerHeight(states: seq<TreeState>) {
    forall s, t :: s in states && t in states && s.height == t.height ==> s == t
  }

  lemma SameStatesPerHeight(a: seq<TreeState>, b: seq<TreeState>)
    requires forall s :: s in a <==> s in b
    ensures OneStatePerHeight(a) <==> OneStatePerHeight(b)
  {
  }

  lemma StrictlySortedUnique(states: seq<TreeState>, s: TreeState, t: TreeState)
    requires StrictlySorted(states) && s in states && t in states && s.height == t.height
    ensures s == t
  {
    var i :| 0 <= i < |states| && states[i] == s;
    var j :| 0 <= j < |states| && states[j] == t;
  }

  /** Dropping duplicates by height loses a state if and only if another state has its height. */
  lemma DedupKeepsAllIffOnePerHeight(states: seq<TreeState>)
    requires SortedByHeight(states)
    ensures (forall s :: s in states ==> s in DedupByHeight(states, |states|)) <==> OneStatePerHeight(states)
  {
    hide DedupByHeight, StrictlySorted;
    var kept := DedupByHeight(states, |states|);
    DedupSorted(states, |states|);
    if OneStatePerHeight(states) {
      forall s | s in states ensures s in kept {
        var i :| 0 <= i < |states| && states[i] == s;
        assert HasHeight(kept, states[i].height);
        var j :| 0 <= j < |kept| && kept[j].height == s.height;
        assert kept[j] in kept && kept[j] in states;
      }
    }
    if forall s :: s in states ==> s in kept {
      forall s, t | s in states && t in states && s.height == t.height ensures s == t {
        StrictlySortedUnique(kept, s, t);
      }
    }
  }

  /** Two states of one height, the second with another Sapling tree: whichever comes first, the other is not
      checked. */
  lemma OneOfTwoStatesIsNotChecked(height: nat, tree: seq<nat>, leaf: nat)
    ensures var a, b := TreeState(height, tree, None), TreeState(height, tree + [leaf], None);
            && a != b && SortedByHeight([a, b]) && SortedByHeight([b, a])
            && DedupByHeight([a, b], 2) == [a] && DedupByHeight([b, a], 2) == [b]
  {
    hide DedupByHeight;
    var a, b := TreeState(height, tree, None), TreeState(height, tree + [leaf], None);
    assert |a.saplingTree| != |b.saplingTree|;
    DedupOfTwo(a, b);
    DedupOfTwo(b, a);
  }

  lemma DedupOfTwo(a: TreeState, b: TreeState)
    requires a.height == b.height
    ensures DedupByHeight([a, b], 2) == [a]
  {
    assert DedupByHeight([a, b], 1) == [a];
  }

  /** The highest starting tree strictly below `candidate`. */
  predicate IsClosest(starts: seq<TreeState>, candidate: TreeState, closest: Option<TreeState>) {
    match closest
    case None => forall s :: s in starts ==> s.height >= candidate.height
    case Some(c) =>
      && c in starts && c.height < candidate.height
      && forall s :: s in starts && s.height < candidate.height ==> s.height <= c.height
  }

  lemma ClosestSameMembers(a: seq<TreeState>, b: seq<TreeState>, candidate: TreeState, closest: Option<TreeState>)
    requires forall s :: s in a <==> s in b
    ensures IsClosest(a, candidate, closest) <==> IsClosest(b, candidate, closest)
  {
  }

  method ClosestTree(starts: seq<TreeState>, candidate: TreeState) returns (closest: Option<TreeState>)
    requires SortedByHeight(starts)
    ensures IsClosest(starts, candidate, closest)
  {
    closest := None;
    for i := 0 to |starts|
      invariant IsClosest(starts[..i], candidate, closest)
    {
      if starts[i].height < candidate.height {
        closest := Some(starts[i]);
      }
      assert starts[..i + 1] == starts[..i] + [starts[i]];
    }
    assert starts[..|starts|] == starts;
  }

  /** A closest start accepts the candidate, or there is no start below it. */
  predicate PassesFrom(
      blocks: seq<CompactBlock>, candidate: TreeState, closest: Option<TreeState>,
      parentless: (seq<nat>, Option<seq<nat>>) -> bool)
    requires blocks != [] && candidate.height <= blocks[0].height
  {
    match closest
    case None => true
    case Some(c) => c.height <= candidate.height && PairAccepted(blocks, candidate, c, parentless)
  }

  /** The answer for all candidates, and the closest start each was compared with. */
  method VerifyCandidates(
      blocks: seq<CompactBlock>, candidates: seq<TreeState>, starts: seq<TreeState>,
      parentless: (seq<nat>, Option<seq<nat>>) -> bool)
    returns (ok: bool, used: seq<Option<TreeState>>)
    requires blocks != [] && SortedByHeight(starts)
    requires forall c :: c in candidates ==> c.height <= blocks[0].height
    ensures |used| == |candidates|
    ensures forall i :: 0 <= i < |used| ==> IsClosest(starts, candidates[i], used[i])
    ensures ok <==> forall i :: 0 <= i < |used| ==> PassesFrom(blocks, candidates[i], used[i], parentless)
  {
    hide PairAccepted;
    ok, used := true, [];
    for i := 0 to |candidates|
      invariant |used| == i
      invariant forall k :: 0 <= k < i ==> IsClosest(starts, candidates[k], used[k])
      invariant ok <==> forall k :: 0 <= k < i ==> PassesFrom(blocks, candidates[k], used[k], parentless)
    {
      var closest := ClosestTree(starts, candidates[i]);
      var passed := true;
      if closest.Some? {
        passed := VerifyTreePair(blocks, candidates[i], closest.value, parentless);
      }
      used := used + [closest];
      ok := ok && passed;
    }
  }

  function Starts(candidates: seq<TreeState>, highestVerified: Option<TreeState>): seq<TreeState> {
    candidates + if highestVerified.Some? then [highestVerified.value] else []
  }

  /** One state per height, all from `states` and all heights kept; nothing is lost iff no height had two. */
  predicate Deduplicated(states: seq<TreeState>, kept: seq<TreeState>) {
    && StrictlySorted(kept)
    && (forall s :: s in kept ==> s in states)
    && (forall s :: s in states ==> HasHeight(kept, s.height))
    && ((forall s :: s in states ==> s in kept) <==> OneStatePerHeight(states))
    && (states != [] ==> kept != [])
  }

  lemma DeduplicatedHeights(states: seq<TreeState>, kept: seq<TreeState>)
    requires Deduplicated(states, kept)
    ensures forall i, j :: 0 <= i < j < |kept| ==> kept[i].height < kept[j].height
    ensures forall s :: s in states ==> exists i :: 0 <= i < |kept| && kept[i].height == s.height
  {
    forall s | s in states ensures exists i :: 0 <= i < |kept| && kept[i].height == s.height {
      assert HasHeight(kept, s.height);
    }
  }

  /** Sorts the downloaded states by height and drops duplicates of a height. */
  method SortAndDedup(states: seq<TreeState>) returns (kept: seq<TreeState>)
    ensures Deduplicated(states, kept)
  {
    hide SortByHeight, DedupByHeight, OneStatePerHeight, HasHeight, StrictlySorted;
    var sorted := SortByHeight(states);
    kept := DedupByHeight(sorted, |sorted|);
    DedupSorted(sorted, |sorted|);
    DedupKeepsAllIffOnePerHeight(sorted);
    SameStatesPerHeight(sorted, states);
    forall s | s in states ensures HasHeight(kept, s.height) {
      assert s in sorted;
      var i :| 0 <= i < |sorted| && sorted[i] == s;
      assert HasHeight(kept, sorted[i].height);
    }
  }

  /** verify_trees: nothing is checked before the last batch. On the last, `checked` is what is left of the downloaded
      states once duplicates of a height are dropped, one per height, and the answer is whether each passes against a
      closest start among themselves and the wallet's tree; the highest is returned with a positive answer. */
  method VerifyTrees(
      batchNum: nat, batchTotal: nat, unverified: seq<TreeState>, highestVerified: Option<TreeState>,
      blocks: seq<CompactBlock>, parentless: (seq<nat>, Option<seq<nat>>) -> bool)
    returns (ok: bool, highest: Option<TreeState>, ghost checked: seq<TreeState>, ghost used: seq<Option<TreeState>>)
    requires blocks != [] && forall s :: s in unverified ==> s.height <= blocks[0].height
    ensures batchNum + 1 != batchTotal || unverified == [] ==> ok && highest == None && checked == [] && used == []
    ensures (forall s :: s in unverified ==> s in checked) <==>
            unverified == [] || (batchNum + 1 == batchTotal && OneStatePerHeight(unverified))
    ensures batchNum + 1 == batchTotal && unverified != [] ==>
              && Deduplicated(unverified, checked) && checked != []
              && (forall i, j :: 0 <= i < j < |checked| ==> checked[i].height < checked[j].height)
              && (forall s :: s in checked ==> s in unverified)
              && (forall s :: s in unverified ==> exists i :: 0 <= i < |checked| && checked[i].height == s.height)
              && |used| == |checked|
              && (forall i :: 0 <= i < |used| ==> IsClosest(Starts(checked, highestVerified), checked[i], used[i]))
              && (ok <==> forall i :: 0 <= i < |used| ==> PassesFrom(blocks, checked[i], used[i], parentless))
              && highest == if ok then Some(checked[|checked| - 1]) else None
  {
    hide PassesFrom, IsClosest, SortByHeight, OneStatePerHeight, HasHeight, StrictlySorted;
    if batchNum + 1 != batchTotal || unverified == [] {
      assert unverified != [] ==> unverified[0] in unverified;
      return true, None, [], [];
    }
    var candidates := SortAndDedup(unverified);
    checked := candidates;
    var starts := SortByHeight(Starts(candidates, highestVerified));
    ok, used := VerifyCandidates(blocks, candidates, starts, parentless);
    highest := if ok then Some(candidates[|candidates| - 1]) else None;
    DeduplicatedHeights(unverified, checked);
    forall i | 0 <= i < |used| ensures IsClosest(Starts(checked, highestVerified), checked[i], used[i]) {
      ClosestSameMembers(starts, Starts(checked, highestVerified), checked[i], used[i]);
    }
  }

  /** The pair is folded and compared, rather than accepted as it stands. */
  predicate Folded(blocks: seq<CompactBlock>, candidate: TreeState, closest: Option<TreeState>) {
    closest.Some? && closest.value.height < candidate.height && !BelowBatch(blocks, closest.value)
  }

  /** Whether the lowest checked state is compared at all is decided by the wallet's verified tree alone: there has to
      be one, below that state and no further down than the batch reaches. */
  lemma LowestIsFoldedIff(
      blocks: seq<CompactBlock>, checked: seq<TreeState>, highestVerified: Option<TreeState>, used: Option<TreeState>)
    requires StrictlySorted(checked) && checked != [] && IsClosest(Starts(checked, highestVerified), checked[0], used)
    ensures Folded(blocks, checked[0], used) <==>
            && highestVerified.Some? && highestVerified.value.height < checked[0].height
            && !BelowBatch(blocks, highestVerified.value)
  {
    if highestVerified.Some? {
      assert highestVerified.value in Starts(checked, highestVerified);
    }
  }

  /** All checked states are compared if and only if the lowest is, as the batch's own blocks reach down to every state
      downloaded with it. */
  lemma AllAreFoldedIff(
      blocks: seq<CompactBlock>, checked: seq<TreeState>, highestVerified: Option<TreeState>,
      used: seq<Option<TreeState>>)
    requires StrictlySorted(checked) && checked != [] && |used| == |checked|
    requires forall k :: 0 <= k < |checked| ==>
               IsClosest(Starts(checked, highestVerified), checked[k], used[k]) && !BelowBatch(blocks, checked[k])
    ensures (forall k :: 0 <= k < |checked| ==> Folded(blocks, checked[k], used[k])) <==>
            && highestVerified.Some? && highestVerified.value.height < checked[0].height
            && !BelowBatch(blocks, highestVerified.value)
  {
    LowestIsFoldedIff(blocks, checked, highestVerified, used[0]);
    forall k | 0 < k < |checked| ensures Folded(blocks, checked[k], used[k]) {
      assert checked[0] in Starts(checked, highestVerified) && checked[0].height < checked[k].height;
    }
  }

  /** And a state that is not compared passes whatever its trees are. */
  lemma UnfoldedPasses(
      blocks: seq<CompactBlock>, candidate: TreeState, closest: Option<TreeState>,
      parentless: (seq<nat>, Option<seq<nat>>) -> bool)
    requires blocks != [] && candidate.height <= blocks[0].height && !Folded(blocks, candidate, closest)
    requires closest.Some? ==> closest.value.height <= candidate.height
    ensures forall sapling, orchard ::
              PassesFrom(blocks, candidate.(saplingTree := sapling, orchardTree := orchard), closest, parentless)
  {
  }

  /** A closest start accepts the candidate by the strict comparison, on blocks of the batch. */
  ghost predicate PassesStrictly(blocks: seq<CompactBlock>, starts: seq<TreeState>, candidate: TreeState) {
    exists closest ::
      && IsClosest(starts, candidate, Some(closest))
      && blocks != [] && candidate.height <= blocks[0].height && blocks[0].height - closest.height - 1 < |blocks|
      && Strict(blocks, candidate, closest)
  }

  /** Trust spreads upwards: if the wallet's verified tree is genuine and below all checked states, and each of them
      passes the strict comparison against its closest start, then every checked state is genuine. */
  lemma {:induction false} StrictVerificationIsSound(
      blocks: seq<CompactBlock>, chain: nat -> CompactBlock, wallet: TreeState, checked: seq<TreeState>, c: TreeState)
    requires Batch(blocks, chain) && Genuine(wallet, chain)
    requires forall s :: s in checked ==> wallet.height < s.height && PassesStrictly(blocks, checked + [wallet], s)
    requires c in checked
    ensures Genuine(c, chain)
    decreases c.height
  {
    hide Genuine, Strict;
    var starts := checked + [wallet];
    assert PassesStrictly(blocks, starts, c);
    var closest :| IsClosest(starts, c, Some(closest)) && blocks[0].height - closest.height - 1 < |blocks|
      && Strict(blocks, c, closest);
    if closest != wallet {
      StrictVerificationIsSound(blocks, chain, wallet, checked, closest);
    }
    StrictIffGenuine(blocks, chain, c, closest);
  }

  /** What a positive answer of VerifyTrees is worth: if the wallet's verified tree is genuine, below all checked
      states and reached by the batch, and the fallback cannot apply at any checked height, then every checked state
      is genuine. */
  lemma {:induction false} VerifiedIsGenuine(
      blocks: seq<CompactBlock>, chain: nat -> CompactBlock, wallet: TreeState, checked: seq<TreeState>,
      used: seq<Option<TreeState>>, parentless: (seq<nat>, Option<seq<nat>>) -> bool, i: nat)
    requires Batch(blocks, chain) && Genuine(wallet, chain) && !BelowBatch(blocks, wallet)
    requires |used| == |checked| && forall k :: 0 <= k < |checked| ==>
               wallet.height < checked[k].height <= blocks[0].height
    requires forall k :: 0 <= k < |used| ==>
               IsClosest(Starts(checked, Some(wallet)), checked[k], used[k])
               && PassesFrom(blocks, checked[k], used[k], parentless)
    requires forall k :: 0 <= k < |checked| ==>
               ChainTree(Orchard, chain, checked[k].height) != []
               && !parentless(ChainTree(Orchard, chain, checked[k].height), checked[k].orchardTree)
    requires i < |checked|
    ensures Genuine(checked[i], chain)
    decreases if i < |checked| then checked[i].height else 0
  {
    hide Genuine, PairAccepted, ChainTree;
    assert wallet in Starts(checked, Some(wallet));
    var closest := used[i].value;
    assert closest.height >= wallet.height;
    if closest != wallet {
      assert closest in checked;
      var k :| 0 <= k < |checked| && checked[k] == closest;
      VerifiedIsGenuine(blocks, chain, wallet, checked, used, parentless, k);
    }
    AcceptedIff(blocks, chain, checked[i], closest, parentless);
  }
}
