/** Where a batch's notes end up: the trees receive every commitment in chain order, and a note's position is the global
    index of its leaf, the same one its witness was built at. */
module WitnessPositions {
  import opened Wrappers
  import opened Sequences
  import opened CompactBlocks
  import opened ChainSlots
  import opened TrialDecryption
  import opened BlockCache
  import opened Witnesses

  /** A descending list in chain order. */
  function Ascending(blocks: seq<CompactBlock>): (r: seq<CompactBlock>)
    ensures |r| == |blocks|
    ensures forall i {:trigger r[i]} :: 0 <= i < |r| ==> r[i] == blocks[|blocks| - 1 - i]
  {
    seq(|blocks|, i requires 0 <= i < |blocks| => blocks[|blocks| - 1 - i])
  }

  // ---- The witness of one note

  /** The block's commitments, up to that of output `o` of transaction `t`, sit in their places after the first `size`
      leaves. */
  ghost predicate HoldsThrough(pool: Pool, block: CompactBlock, size: nat, t: nat, o: nat, tree: seq<nat>) {
    forall u: nat, p: nat :: HasOutput(pool, block, u, p) && (u < t || (u == t && p <= o)) ==>
      var j := size + TxsCount(pool, block, u) + p;
      j < |tree| && tree[j] == block.vtx[u].Outputs(pool)[p].commitment
  }

  /** get_note_witness: None is the "Not found!" error. The tree is the server's of the block below (empty below the
      pool's activation) and then the block's own commitments, the note's being the last. */
  method GetNoteWitness(
      pool: Pool, blocks: seq<CompactBlock>, trees: nat -> seq<nat>, activation: nat,
      height: nat, txNum: nat, outputNum: nat)
    returns (r: Option<seq<nat>>)
    requires Contiguous(blocks) && Holds(blocks, height) && height > 0
    ensures blocks[0].height - height < |blocks| && blocks[blocks[0].height - height].height == height
    ensures r.Some? <==> HasOutput(pool, blocks[blocks[0].height - height], txNum, outputNum)
    ensures r.Some? ==>
              var block := blocks[blocks[0].height - height];
              var before := if height - 1 >= activation then trees(height - 1) else [];
              && before <= r.value && |r.value| == |before| + TxsCount(pool, block, txNum) + outputNum + 1
              && HoldsThrough(pool, block, |before|, txNum, outputNum, r.value)
  {
    hide TreeWithTxs, Commitments, TxsCount, HoldsThrough;
    var before := if height - 1 < activation then [] else trees(height - 1);
    var tree := before;
    var pos := blocks[0].height - height;
    var block := blocks[pos];
    NoTxsNodes(pool, before, block);
    for t := 0 to |block.vtx|
      invariant tree == TreeWithTxs(pool, before, block, t)
      invariant t > txNum ==> !HasOutput(pool, block, txNum, outputNum)
    {
      TxsNodesStep(pool, before, block, t);
      var wanted := if t == txNum then Some(outputNum) else None;
      var longer, found := AppendOutputs(tree, block.vtx[t].Outputs(pool), wanted);
      tree := longer;
      if found {
        WitnessFound(pool, before, block, txNum, outputNum);
        return Some(tree);
      }
    }
    return None;
  }

  /** Appends a transaction's commitments, stopping after the output looked for. */
  method AppendOutputs(start: seq<nat>, outputs: seq<Output>, wanted: Option<nat>) returns (tree: seq<nat>, found: bool)
    ensures found <==> wanted.Some? && wanted.value < |outputs|
    ensures tree == start + if found then Commitments(outputs)[..wanted.value + 1] else Commitments(outputs)
  {
    tree := start;
    for o := 0 to |outputs|
      invariant tree == start + Commitments(outputs)[..o]
      invariant wanted.Some? ==> wanted.value >= o
    {
      tree := tree + [outputs[o].commitment];
      assert Commitments(outputs)[..o + 1] == Commitments(outputs)[..o] + [Commitments(outputs)[o]];
      if wanted == Some(o) {
        return tree, true;
      }
    }
    assert Commitments(outputs)[..|outputs|] == Commitments(outputs);
    found := false;
  }

  /** The tree up to a note holds the outputs up to it, in their places. */
  lemma WitnessFound(pool: Pool, before: seq<nat>, block: CompactBlock, t: nat, o: nat)
    requires HasOutput(pool, block, t, o)
    ensures var tree := TreeWithTxs(pool, before, block, t) + Commitments(block.vtx[t].Outputs(pool))[..o + 1];
            && before <= tree && |tree| == |before| + TxsCount(pool, block, t) + o + 1
            && HoldsThrough(pool, block, |before|, t, o, tree)
  {
    hide TxsSlots, TxsCount;
    TxsCountIsSlots(pool, block, t);
    forall u: nat, p: nat | HasOutput(pool, block, u, p) && u < t
      ensures TxsCount(pool, block, u) + p < TxsCount(pool, block, t)
      ensures TxsSlots(pool, block, t)[TxsCount(pool, block, u) + p].output == block.vtx[u].Outputs(pool)[p]
    {
      TxsSlotAt(pool, block, t, u, p);
    }
  }

  /** The position a worker records: the size of the server's tree of the block below plus the outputs before the
      note. */
  function WitnessPosition(
      pool: Pool, trees: nat -> seq<nat>, activation: nat, block: CompactBlock, txNum: nat, outputNum: nat): nat
    requires HasOutput(pool, block, txNum, outputNum) && block.height > 0
  {
    (if block.height - 1 >= activation then |trees(block.height - 1)| else 0) + TxsCount(pool, block, txNum) + outputNum
  }

  // ---- The leaves of a batch, by place

  /** The leaves of the last `n` blocks, last first. */
  function FlatLeaves(blocks: seq<BlockLeaves>, n: nat): seq<NoteLeaf>
    requires n <= |blocks|
  {
    if n == 0 then [] else FlatLeaves(blocks, n - 1) + blocks[|blocks| - n].leaves
  }

  lemma FlatStep(blocks: seq<BlockLeaves>, n: nat)
    requires 0 < n <= |blocks|
    ensures FlatLeaves(blocks, n) == FlatLeaves(blocks, n - 1) + blocks[|blocks| - n].leaves
  {
  }

  function BatchLeaves(
      pool: Pool, blocks: seq<CompactBlock>, key: Option<ViewingKey>, filter: Option<nat>): seq<NoteLeaf>
  {
    FlatLeaves(AllLeavesOf(pool, blocks, key, filter), |blocks|)
  }

  lemma {:induction false} TxsLeafCount(
      pool: Pool, block: CompactBlock, n: nat, key: Option<ViewingKey>, filter: Option<nat>)
    requires n <= |block.vtx|
    ensures |TxsLeaves(pool, block, n, key, filter)| == TxsCount(pool, block, n)
  {
    if n > 0 {
      TxsLeafCount(pool, block, n - 1, key, filter);
    }
  }

  lemma TxsLeavesStep(pool: Pool, block: CompactBlock, n: nat, key: Option<ViewingKey>, filter: Option<nat>)
    requires 0 < n <= |block.vtx|
    ensures TxsLeaves(pool, block, n, key, filter)
              == TxsLeaves(pool, block, n - 1, key, filter) + TxLeaves(pool, block.vtx[n - 1], key, filter)
  {
  }

  lemma {:induction false} TxsLeafAt(
      pool: Pool, block: CompactBlock, n: nat, key: Option<ViewingKey>, filter: Option<nat>, t: nat, o: nat)
    requires t < n <= |block.vtx| && o < |block.vtx[t].Outputs(pool)|
    ensures TxsCount(pool, block, t) + o < |TxsLeaves(pool, block, n, key, filter)|
    ensures TxsLeaves(pool, block, n, key, filter)[TxsCount(pool, block, t) + o]
              == TxLeaves(pool, block.vtx[t], key, filter)[o]
  {
    hide TxLeaves, TxsLeaves, TxsCount, Detect;
    TxsLeavesStep(pool, block, n, key, filter);
    if t < n - 1 {
      TxsLeafAt(pool, block, n - 1, key, filter, t, o);
    } else {
      TxsLeafCount(pool, block, n - 1, key, filter);
    }
  }

  lemma {:induction false} LeafCount(
      pool: Pool, blocks: seq<CompactBlock>, key: Option<ViewingKey>, filter: Option<nat>, n: nat)
    requires n <= |blocks|
    ensures |FlatLeaves(AllLeavesOf(pool, blocks, key, filter), n)| == Offset(pool, Ascending(blocks), n)
  {
    hide TxsLeaves, TxsCount;
    if n > 0 {
      LeafCount(pool, blocks, key, filter, n - 1);
      var block := blocks[|blocks| - n];
      TxsLeafCount(pool, block, |block.vtx|, key, filter);
    }
  }

  lemma {:induction false} LeafAt(
      pool: Pool, blocks: seq<CompactBlock>, key: Option<ViewingKey>, filter: Option<nat>, n: nat, b: nat, t: nat,
      o: nat)
    requires b < n <= |blocks| && HasOutput(pool, Ascending(blocks)[b], t, o)
    ensures Place(pool, Ascending(blocks), b, t, o) < |FlatLeaves(AllLeavesOf(pool, blocks, key, filter), n)|
    ensures FlatLeaves(AllLeavesOf(pool, blocks, key, filter), n)[Place(pool, Ascending(blocks), b, t, o)]
              == TxLeaves(pool, Ascending(blocks)[b].vtx[t], key, filter)[o]
  {
    hide TxsLeaves, TxsCount, FlatLeaves;
    FlatStep(AllLeavesOf(pool, blocks, key, filter), n);
    if b < n - 1 {
      LeafAt(pool, blocks, key, filter, n - 1, b, t, o);
    } else {
      LeafCount(pool, blocks, key, filter, n - 1);
      var block := blocks[|blocks| - n];
      TxsLeafAt(pool, block, |block.vtx|, key, filter, t, o);
    }
  }

  // ---- The tree

  lemma {:induction false} MarkConcat(
      records: map<OutputId, NoteRecord>, a: seq<NoteLeaf>, b: seq<NoteLeaf>, position: nat, n: nat,
      nullifier: (Note, nat) -> Nullifier)
    requires n <= |a| + |b|
    ensures MarkLeaves(records, a + b, position, n, nullifier) ==
            if n <= |a| then MarkLeaves(records, a, position, n, nullifier)
            else MarkLeaves(MarkLeaves(records, a, position, |a|, nullifier), b, position + |a|, n - |a|, nullifier)
  {
    hide Positioned;
    if n > 0 {
      MarkConcat(records, a, b, position, n - 1, nullifier);
    }
  }

  lemma UpdatedStep(state: PoolState, blocks: seq<BlockLeaves>, n: nat, nullifier: (Note, nat) -> Nullifier)
    requires 0 < n <= |blocks|
    ensures Updated(state, blocks, n, nullifier)
              == InsertBlock(Updated(state, blocks, n - 1, nullifier), blocks[|blocks| - n], nullifier)
  {
  }

  /** Feeding the blocks one by one is feeding their leaves in one go. */
  lemma {:induction false} UpdatedIsFlat(
      state: PoolState, blocks: seq<BlockLeaves>, n: nat, nullifier: (Note, nat) -> Nullifier)
    requires state.tree.Some? && n <= |blocks|
    ensures var flat := FlatLeaves(blocks, n);
            && Updated(state, blocks, n, nullifier).tree == Some(state.tree.value + TreeLeaves(flat))
            && Updated(state, blocks, n, nullifier).records
                 == MarkLeaves(state.records, flat, |state.tree.value|, |flat|, nullifier)
  {
    hide MarkLeaves, Checkpointed, TxsLeaves;
    if n == 0 {
      assert state.tree.value + TreeLeaves([]) == state.tree.value;
      MarkNone(state.records, |state.tree.value|, nullifier);
    } else {
      UpdatedIsFlat(state, blocks, n - 1, nullifier);
      UpdatedStep(state, blocks, n, nullifier);
      FlatStep(blocks, n);
      hide Updated, FlatLeaves;
      var flat, leaves := FlatLeaves(blocks, n - 1), blocks[|blocks| - n].leaves;
      var tree := state.tree.value;
      assert tree + TreeLeaves(flat + leaves) == (tree + TreeLeaves(flat)) + TreeLeaves(leaves);
      MarkConcat(state.records, flat, leaves, |tree|, |flat| + |leaves|, nullifier);
      if leaves == [] {
        MarkNone(Updated(state, blocks, n - 1, nullifier).records, |tree| + |flat|, nullifier);
      }
    }
  }

  lemma MarkNone(records: map<OutputId, NoteRecord>, position: nat, nullifier: (Note, nat) -> Nullifier)
    ensures MarkLeaves(records, [], position, 0, nullifier) == records
  {
  }

  /** Whatever keys are held and whatever the size filter, the tree grows by every commitment of the batch, in chain
      order. */
  lemma TreeGrowsByAllCommitments(
      pool: Pool, blocks: seq<CompactBlock>, key: Option<ViewingKey>, filter: Option<nat>, state: PoolState,
      nullifier: (Note, nat) -> Nullifier, j: nat)
    requires state.tree.Some?
    ensures var after := Updated(state, AllLeavesOf(pool, blocks, key, filter), |blocks|, nullifier).tree;
            && after.Some? && state.tree.value <= after.value
            && |after.value| == |state.tree.value| + Total(pool, Ascending(blocks))
            && |AllSlots(pool, Ascending(blocks))| == Total(pool, Ascending(blocks))
            && (j < Total(pool, Ascending(blocks)) ==>
                  after.value[|state.tree.value| + j].node == AllSlots(pool, Ascending(blocks))[j].output.commitment)
  {
    hide Slots, FlatLeaves, Updated, TxsCount, Offset;
    var asc := Ascending(blocks);
    UpdatedIsFlat(state, AllLeavesOf(pool, blocks, key, filter), |blocks|, nullifier);
    LeafCount(pool, blocks, key, filter, |blocks|);
    AllSlotsConcat(pool, asc, []);
    if j < Total(pool, asc) {
      var b, t, o := Locate(pool, asc, j);
      LeafAt(pool, blocks, key, filter, |blocks|, b, t, o);
      SlotAt(pool, asc, b, t, o);
    }
  }

  // ---- The records

  /** No two transactions of the batch share an id. */
  predicate UniqueTxids(blocks: seq<CompactBlock>) {
    forall b, t, c, u ::
      (0 <= b < |blocks| && 0 <= t < |blocks[b].vtx| && 0 <= c < |blocks| && 0 <= u < |blocks[c].vtx|
       && blocks[b].vtx[t].txid == blocks[c].vtx[u].txid) ==> (b == c && t == u)
  }

  function LeafIds(leaves: seq<NoteLeaf>): (r: seq<OutputId>)
    ensures |r| == |leaves|
    ensures forall i {:trigger r[i]} :: 0 <= i < |r| ==> r[i] == IdOf(leaves[i])
  {
    seq(|leaves|, i requires 0 <= i < |leaves| => IdOf(leaves[i]))
  }

  predicate MarkedHere(leaves: seq<NoteLeaf>, n: nat, id: OutputId)
    requires n <= |leaves|
  {
    exists j :: 0 <= j < n && leaves[j].marked && IdOf(leaves[j]) == id
  }

  /** Every marked leaf on record gets its own index as position; nothing else changes. */
  lemma {:induction false} MarkByIndex(
      records: map<OutputId, NoteRecord>, leaves: seq<NoteLeaf>, position: nat, n: nat,
      nullifier: (Note, nat) -> Nullifier, id: OutputId)
    requires Distinct(LeafIds(leaves)) && n <= |leaves|
    ensures var after := MarkLeaves(records, leaves, position, n, nullifier);
            && (id in after <==> id in records)
            && (id in records && !MarkedHere(leaves, n, id) ==> after[id] == records[id])
            && (id in records ==> forall j :: 0 <= j < n && leaves[j].marked && IdOf(leaves[j]) == id ==>
                  after[id] == NoteRecord(records[id].note, position + j, nullifier(records[id].note, position + j)))
  {
    if n > 0 {
      assert forall j {:trigger leaves[j]} :: 0 <= j < n - 1 ==> LeafIds(leaves)[j] != LeafIds(leaves)[n - 1];
      MarkByIndex(records, leaves, position, n - 1, nullifier, id);
      if MarkedHere(leaves, n - 1, id) {
        assert MarkedHere(leaves, n, id);
      }
    }
  }

  lemma LeavesHaveDistinctIds(pool: Pool, blocks: seq<CompactBlock>, key: Option<ViewingKey>, filter: Option<nat>)
    requires UniqueTxids(blocks)
    ensures Distinct(LeafIds(BatchLeaves(pool, blocks, key, filter)))
  {
    hide FlatLeaves, TxsCount, Offset;
    var asc, leaves := Ascending(blocks), BatchLeaves(pool, blocks, key, filter);
    LeafCount(pool, blocks, key, filter, |blocks|);
    forall i, j | 0 <= i < j < |leaves| ensures IdOf(leaves[i]) != IdOf(leaves[j]) {
      var b, t, o := Locate(pool, asc, i);
      var c, u, p := Locate(pool, asc, j);
      LeafAt(pool, blocks, key, filter, |blocks|, b, t, o);
      LeafAt(pool, blocks, key, filter, |blocks|, c, u, p);
    }
  }

  /** A detection is made at one output, whose leaf is marked. */
  lemma DetectionPlace(
      pool: Pool, blocks: seq<CompactBlock>, key: Option<ViewingKey>, filter: Option<nat>, d: Detection)
    returns (b: nat)
    requires Detected(pool, blocks, key, filter, d)
    ensures b < |blocks| && DetectedAt(pool, Ascending(blocks)[b], key, filter, d)
    ensures HasOutput(pool, Ascending(blocks)[b], d.txNum, d.outputNum)
    ensures var leaves := BatchLeaves(pool, blocks, key, filter);
            var place := Place(pool, Ascending(blocks), b, d.txNum, d.outputNum);
            place < |leaves| && leaves[place].marked && IdOf(leaves[place]) == OutputId(d.txid, d.outputNum)
  {
    hide FlatLeaves, TxsCount, Offset;
    var i :| 0 <= i < |blocks| && DetectedAt(pool, blocks[i], key, filter, d);
    b := |blocks| - 1 - i;
    LeafAt(pool, blocks, key, filter, |blocks|, b, d.txNum, d.outputNum);
  }

  /** A marked leaf comes from a detection. */
  lemma MarkedIsDetected(
      pool: Pool, blocks: seq<CompactBlock>, key: Option<ViewingKey>, filter: Option<nat>, j: nat)
    returns (b: nat, d: Detection)
    requires j < |BatchLeaves(pool, blocks, key, filter)| && BatchLeaves(pool, blocks, key, filter)[j].marked
    ensures b < |blocks| && DetectedAt(pool, Ascending(blocks)[b], key, filter, d)
    ensures Detected(pool, blocks, key, filter, d)
    ensures HasOutput(pool, Ascending(blocks)[b], d.txNum, d.outputNum)
    ensures j == Place(pool, Ascending(blocks), b, d.txNum, d.outputNum)
    ensures IdOf(BatchLeaves(pool, blocks, key, filter)[j]) == OutputId(d.txid, d.outputNum)
  {
    hide FlatLeaves, TxsCount, Offset;
    var asc := Ascending(blocks);
    LeafCount(pool, blocks, key, filter, |blocks|);
    var t, o;
    b, t, o := Locate(pool, asc, j);
    LeafAt(pool, blocks, key, filter, |blocks|, b, t, o);
    var tx := asc[b].vtx[t];
    d := Detection(asc[b].height, t, o, tx.txid, Detect(tx, key, filter, tx.Outputs(pool)[o]).value);
    assert DetectedAt(pool, blocks[|blocks| - 1 - b], key, filter, d);
  }

  /** Every decrypted note on record gets the global index of its leaf, counting from the tree's size at the start. */
  lemma PositionsAreGlobalIndexes(
      pool: Pool, blocks: seq<CompactBlock>, key: Option<ViewingKey>, filter: Option<nat>, state: PoolState,
      nullifier: (Note, nat) -> Nullifier, d: Detection)
    returns (b: nat)
    requires UniqueTxids(blocks) && state.tree.Some? && Detected(pool, blocks, key, filter, d)
    requires OutputId(d.txid, d.outputNum) in state.records
    ensures b < |blocks| && DetectedAt(pool, Ascending(blocks)[b], key, filter, d)
    ensures var id, after := OutputId(d.txid, d.outputNum),
                Updated(state, AllLeavesOf(pool, blocks, key, filter), |blocks|, nullifier);
            var position := |state.tree.value| + Place(pool, Ascending(blocks), b, d.txNum, d.outputNum);
            && id in after.records && id in state.records
            && after.records[id].note == state.records[id].note && after.records[id].position == position
            && after.records[id].nullifier == nullifier(state.records[id].note, position)
            && after.tree.Some? && position < |after.tree.value| && after.tree.value[position].marked
  {
    hide FlatLeaves, TxsCount, Offset, Updated, MarkLeaves, AllLeavesOf, Distinct;
    var leaves := BatchLeaves(pool, blocks, key, filter);
    UpdatedIsFlat(state, AllLeavesOf(pool, blocks, key, filter), |blocks|, nullifier);
    LeavesHaveDistinctIds(pool, blocks, key, filter);
    b := DetectionPlace(pool, blocks, key, filter, d);
    MarkByIndex(state.records, leaves, |state.tree.value|, |leaves|, nullifier, OutputId(d.txid, d.outputNum));
  }

  // ---- Agreement with the witnesses

  /** The batch's heights are consecutive and the server's trees follow its blocks: each is the one before, if the pool
      was active, plus the block's commitments. Before the activation blocks have no outputs in the pool. */
  ghost predicate ServerFollows(pool: Pool, trees: nat -> seq<nat>, activation: nat, asc: seq<CompactBlock>) {
    && (forall b :: 0 <= b < |asc| ==> asc[b].height == asc[0].height + b > 0)
    && forall b :: 0 <= b < |asc| ==>
         var h := asc[b].height;
         if h < activation then BlockSlots(pool, asc[b]) == []
         else trees(h) == (if h - 1 >= activation then trees(h - 1) else []) + Nodes(BlockSlots(pool, asc[b]))
  }

  /** The wallet's tree is as long as the chain's before the batch. */
  ghost predicate Aligned(trees: nat -> seq<nat>, activation: nat, asc: seq<CompactBlock>, state: PoolState) {
    && state.tree.Some?
    && (asc != [] && asc[0].height > 0 ==>
          |state.tree.value| == if asc[0].height - 1 >= activation then |trees(asc[0].height - 1)| else 0)
  }

  lemma {:induction false} AlignedThroughout(
      pool: Pool, trees: nat -> seq<nat>, activation: nat, asc: seq<CompactBlock>, state: PoolState, b: nat)
    requires ServerFollows(pool, trees, activation, asc) && Aligned(trees, activation, asc, state) && b < |asc|
    ensures (if asc[b].height - 1 >= activation then |trees(asc[b].height - 1)| else 0)
              == |state.tree.value| + Offset(pool, asc, b)
  {
    hide BlockSlots, BlockCount;
    if b > 0 {
      AlignedThroughout(pool, trees, activation, asc, state, b - 1);
      BlockSlotCount(pool, asc[b - 1]);
    }
  }

  lemma BlockSlotCount(pool: Pool, block: CompactBlock)
    ensures |BlockSlots(pool, block)| == BlockCount(pool, block)
  {
    TxsCountIsSlots(pool, block, |block.vtx|);
  }

  /** A detection is on record as its worker left it: the note at its witness's position. */
  ghost predicate RecordedAt(
      pool: Pool, trees: nat -> seq<nat>, activation: nat, nullifier: (Note, nat) -> Nullifier,
      records: map<OutputId, NoteRecord>, block: CompactBlock, d: Detection)
    requires HasOutput(pool, block, d.txNum, d.outputNum) && block.height > 0
  {
    var position := WitnessPosition(pool, trees, activation, block, d.txNum, d.outputNum);
    && OutputId(d.txid, d.outputNum) in records
    && records[OutputId(d.txid, d.outputNum)] == NoteRecord(d.note, position, nullifier(d.note, position))
  }

  /** Every detection of the batch is on record as its worker left it. */
  ghost predicate WorkersRecorded(
      pool: Pool, blocks: seq<CompactBlock>, key: Option<ViewingKey>, filter: Option<nat>, trees: nat -> seq<nat>,
      activation: nat, nullifier: (Note, nat) -> Nullifier, records: map<OutputId, NoteRecord>)
  {
    forall b, d ::
      (0 <= b < |blocks| && DetectedAt(pool, blocks[b], key, filter, d) && blocks[b].height > 0) ==>
        RecordedAt(pool, trees, activation, nullifier, records, blocks[b], d)
  }

  /** The two computations of a position agree: from an aligned tree, updating the witnesses changes no record. */
  lemma AlignedUpdateChangesNoRecord(
      pool: Pool, blocks: seq<CompactBlock>, key: Option<ViewingKey>, filter: Option<nat>, trees: nat -> seq<nat>,
      activation: nat, nullifier: (Note, nat) -> Nullifier, state: PoolState)
    requires UniqueTxids(blocks)
    requires ServerFollows(pool, trees, activation, Ascending(blocks))
    requires Aligned(trees, activation, Ascending(blocks), state)
    requires WorkersRecorded(pool, blocks, key, filter, trees, activation, nullifier, state.records)
    ensures Updated(state, AllLeavesOf(pool, blocks, key, filter), |blocks|, nullifier).records == state.records
  {
    hide Updated, MarkLeaves, FlatLeaves;
    var leaves, size := BatchLeaves(pool, blocks, key, filter), |state.tree.value|;
    UpdatedIsFlat(state, AllLeavesOf(pool, blocks, key, filter), |blocks|, nullifier);
    LeavesHaveDistinctIds(pool, blocks, key, filter);
    var after := MarkLeaves(state.records, leaves, size, |leaves|, nullifier);
    forall id ensures (id in after <==> id in state.records) && (id in after ==> after[id] == state.records[id]) {
      RecordStands(pool, blocks, key, filter, trees, activation, nullifier, state, id);
    }
  }

  lemma RecordStands(
      pool: Pool, blocks: seq<CompactBlock>, key: Option<ViewingKey>, filter: Option<nat>, trees: nat -> seq<nat>,
      activation: nat, nullifier: (Note, nat) -> Nullifier, state: PoolState, id: OutputId)
    requires Distinct(LeafIds(BatchLeaves(pool, blocks, key, filter)))
    requires ServerFollows(pool, trees, activation, Ascending(blocks))
    requires Aligned(trees, activation, Ascending(blocks), state)
    requires WorkersRecorded(pool, blocks, key, filter, trees, activation, nullifier, state.records)
    ensures var leaves := BatchLeaves(pool, blocks, key, filter);
            var after := MarkLeaves(state.records, leaves, |state.tree.value|, |leaves|, nullifier);
            (id in after <==> id in state.records) && (id in after ==> after[id] == state.records[id])
  {
    hide BatchLeaves, MarkLeaves, Distinct, ServerFollows, WorkersRecorded;
    var leaves := BatchLeaves(pool, blocks, key, filter);
    MarkByIndex(state.records, leaves, |state.tree.value|, |leaves|, nullifier, id);
    if MarkedHere(leaves, |leaves|, id) {
      var j :| 0 <= j < |leaves| && leaves[j].marked && IdOf(leaves[j]) == id;
      MarkedStands(pool, blocks, key, filter, trees, activation, nullifier, state, j);
    }
  }

  /** What the tree's update would write for a marked leaf is on record already. */
  lemma MarkedStands(
      pool: Pool, blocks: seq<CompactBlock>, key: Option<ViewingKey>, filter: Option<nat>, trees: nat -> seq<nat>,
      activation: nat, nullifier: (Note, nat) -> Nullifier, state: PoolState, j: nat)
    requires ServerFollows(pool, trees, activation, Ascending(blocks))
    requires Aligned(trees, activation, Ascending(blocks), state)
    requires WorkersRecorded(pool, blocks, key, filter, trees, activation, nullifier, state.records)
    requires j < |BatchLeaves(pool, blocks, key, filter)| && BatchLeaves(pool, blocks, key, filter)[j].marked
    ensures state.tree.Some?
    ensures var id, position := IdOf(BatchLeaves(pool, blocks, key, filter)[j]), |state.tree.value| + j;
            && id in state.records
            && state.records[id]
                 == NoteRecord(state.records[id].note, position, nullifier(state.records[id].note, position))
  {
    hide BatchLeaves, DetectedAt, Detected, ServerFollows, Offset, TxsCount;
    var b, d := MarkedIsDetected(pool, blocks, key, filter, j);
    PositiveHeight(pool, trees, activation, Ascending(blocks), b);
    AlignedThroughout(pool, trees, activation, Ascending(blocks), state, b);
    assert DetectedAt(pool, blocks[|blocks| - 1 - b], key, filter, d);
  }

  lemma PositiveHeight(pool: Pool, trees: nat -> seq<nat>, activation: nat, asc: seq<CompactBlock>, b: nat)
    requires ServerFollows(pool, trees, activation, asc) && b < |asc|
    ensures asc[b].height > 0
  {
  }

  // ---- Checkpoints

  /** One checkpoint per block, at the tree's size after it. */
  function BlockCheckpoints(pool: Pool, asc: seq<CompactBlock>, size: nat, n: nat): seq<Checkpoint>
    requires n <= |asc|
  {
    if n == 0 then []
    else BlockCheckpoints(pool, asc, size, n - 1) + [Checkpoint(asc[n - 1].height, size + Offset(pool, asc, n))]
  }

  predicate CheckpointsAscend(checkpoints: seq<Checkpoint>) {
    forall i, j :: 0 <= i < j < |checkpoints| ==> checkpoints[i].height < checkpoints[j].height
  }

  /** A checkpoint is refused exactly when there is already one at its height or above. */
  lemma CheckpointedAscends(checkpoints: seq<Checkpoint>, height: nat, size: nat)
    requires CheckpointsAscend(checkpoints)
    ensures CheckpointsAscend(Checkpointed(checkpoints, height, size))
    ensures Checkpointed(checkpoints, height, size) ==
            if exists i :: 0 <= i < |checkpoints| && checkpoints[i].height >= height then checkpoints
            else checkpoints + [Checkpoint(height, size)]
  {
  }

  /** Whatever is fed, in whatever order, checkpoints stay in ascending order and none is lost. */
  lemma {:induction false} CheckpointsStayAscending(
      state: PoolState, blocks: seq<BlockLeaves>, n: nat, nullifier: (Note, nat) -> Nullifier)
    requires CheckpointsAscend(state.checkpoints) && n <= |blocks|
    ensures CheckpointsAscend(Updated(state, blocks, n, nullifier).checkpoints)
    ensures state.checkpoints <= Updated(state, blocks, n, nullifier).checkpoints
  {
    hide MarkLeaves, CheckpointsAscend, TreeLeaves;
    if n > 0 {
      var before := Updated(state, blocks, n - 1, nullifier);
      CheckpointsStayAscending(state, blocks, n - 1, nullifier);
      if before.tree.Some? {
        var block := blocks[|blocks| - n];
        CheckpointedAscends(before.checkpoints, block.height, |before.tree.value| + |block.leaves|);
      }
    }
  }

  /** Blocks fed lowest first are each checkpointed: no checkpoint is refused. */
  lemma {:induction false} EveryBlockIsCheckpointed(
      pool: Pool, blocks: seq<CompactBlock>, key: Option<ViewingKey>, filter: Option<nat>, state: PoolState,
      nullifier: (Note, nat) -> Nullifier, n: nat)
    requires Contiguous(blocks) && n <= |blocks| && state.tree.Some?
    requires state.checkpoints != [] && blocks != [] ==>
               state.checkpoints[|state.checkpoints| - 1].height < blocks[|blocks| - 1].height
    ensures Updated(state, AllLeavesOf(pool, blocks, key, filter), n, nullifier).checkpoints
              == state.checkpoints + BlockCheckpoints(pool, Ascending(blocks), |state.tree.value|, n)
  {
    hide Offset, TxsLeaves, MarkLeaves, FlatLeaves, Updated, BlockCheckpoints, Checkpointed, Contiguous, LeavesOf,
        AllLeavesOf;
    var leaves, asc := AllLeavesOf(pool, blocks, key, filter), Ascending(blocks);
    if n == 0 {
      BlockCheckpointsStep(pool, asc, |state.tree.value|, 0);
      assert state.checkpoints + [] == state.checkpoints;
      UpdatedNone(state, leaves, nullifier);
    } else {
      EveryBlockIsCheckpointed(pool, blocks, key, filter, state, nullifier, n - 1);
      CheckpointSize(pool, blocks, key, filter, state, nullifier, n);
      NextCheckpoint(pool, blocks, state.checkpoints, |state.tree.value|, n);
    }
  }

  lemma {:induction false} BlockCheckpointAt(pool: Pool, asc: seq<CompactBlock>, size: nat, n: nat, i: nat)
    requires i < n <= |asc|
    ensures |BlockCheckpoints(pool, asc, size, n)| == n
    ensures BlockCheckpoints(pool, asc, size, n)[i] == Checkpoint(asc[i].height, size + Offset(pool, asc, i + 1))
  {
    hide Offset;
    assert BlockCheckpoints(pool, asc, size, 0) == [];
    if i < n - 1 {
      BlockCheckpointAt(pool, asc, size, n - 1, i);
    } else if i > 0 {
      BlockCheckpointAt(pool, asc, size, n - 1, i - 1);
    }
  }

  /** So the `i`th block of the batch has a checkpoint at its height and the tree's size after it, behind the earlier
      ones. */
  lemma BlockHasItsCheckpoint(
      pool: Pool, blocks: seq<CompactBlock>, key: Option<ViewingKey>, filter: Option<nat>, state: PoolState,
      nullifier: (Note, nat) -> Nullifier, i: nat)
    requires Contiguous(blocks) && i < |blocks| && state.tree.Some?
    requires state.checkpoints != [] ==>
               state.checkpoints[|state.checkpoints| - 1].height < blocks[|blocks| - 1].height
    ensures var after := Updated(state, AllLeavesOf(pool, blocks, key, filter), |blocks|, nullifier).checkpoints;
            var asc := Ascending(blocks);
            && |after| == |state.checkpoints| + |blocks| && state.checkpoints <= after
            && after[|state.checkpoints| + i]
                 == Checkpoint(asc[i].height, |state.tree.value| + Offset(pool, asc, i + 1))
  {
    hide Updated, AllLeavesOf, BlockCheckpoints, Offset, Contiguous;
    EveryBlockIsCheckpointed(pool, blocks, key, filter, state, nullifier, |blocks|);
    BlockCheckpointAt(pool, Ascending(blocks), |state.tree.value|, |blocks|, i);
  }

  /** The block's checkpoint lies above all those before it. */
  lemma NextCheckpoint(pool: Pool, blocks: seq<CompactBlock>, checkpoints: seq<Checkpoint>, size: nat, n: nat)
    requires Contiguous(blocks) && 0 < n <= |blocks|
    requires checkpoints != [] ==> checkpoints[|checkpoints| - 1].height < blocks[|blocks| - 1].height
    ensures var asc := Ascending(blocks);
            Checkpointed(checkpoints + BlockCheckpoints(pool, asc, size, n - 1), blocks[|blocks| - n].height,
                         size + Offset(pool, asc, n))
              == checkpoints + BlockCheckpoints(pool, asc, size, n)
  {
    hide Offset, BlockCheckpoints, Checkpointed, Contiguous;
    var asc := Ascending(blocks);
    HeightsRise(blocks, n);
    BlockCheckpointsStep(pool, asc, size, n);
    if n > 1 {
      BlockCheckpointsStep(pool, asc, size, n - 1);
    }
    CheckpointTaken(
      checkpoints, BlockCheckpoints(pool, asc, size, n - 1), asc[n - 1].height, size + Offset(pool, asc, n));
  }

  lemma HeightsRise(blocks: seq<CompactBlock>, n: nat)
    requires Contiguous(blocks) && n <= |blocks|
    ensures n > 0 ==> blocks[|blocks| - 1].height <= Ascending(blocks)[n - 1].height
    ensures n > 1 ==> Ascending(blocks)[n - 2].height < Ascending(blocks)[n - 1].height
  {
  }

  lemma UpdatedNone(state: PoolState, blocks: seq<BlockLeaves>, nullifier: (Note, nat) -> Nullifier)
    ensures Updated(state, blocks, 0, nullifier) == state
  {
  }

  lemma BlockCheckpointsStep(pool: Pool, asc: seq<CompactBlock>, size: nat, n: nat)
    requires n <= |asc|
    ensures BlockCheckpoints(pool, asc, size, n) ==
            if n == 0 then []
            else BlockCheckpoints(pool, asc, size, n - 1) + [Checkpoint(asc[n - 1].height, size + Offset(pool, asc, n))]
    ensures n == 1 ==> BlockCheckpoints(pool, asc, size, 0) == []
  {
  }

  lemma CheckpointTaken(a: seq<Checkpoint>, b: seq<Checkpoint>, height: nat, size: nat)
    requires b == [] && a != [] ==> a[|a| - 1].height < height
    requires b != [] ==> b[|b| - 1].height < height
    ensures Checkpointed(a + b, height, size) == a + (b + [Checkpoint(height, size)])
  {
  }

  /** A block's checkpoint is asked for at the tree's size after the block. */
  lemma CheckpointSize(
      pool: Pool, blocks: seq<CompactBlock>, key: Option<ViewingKey>, filter: Option<nat>, state: PoolState,
      nullifier: (Note, nat) -> Nullifier, n: nat)
    requires 0 < n <= |blocks| && state.tree.Some?
    ensures var leaves := AllLeavesOf(pool, blocks, key, filter);
            Updated(state, leaves, n, nullifier).checkpoints
              == Checkpointed(Updated(state, leaves, n - 1, nullifier).checkpoints, blocks[|blocks| - n].height,
                              |state.tree.value| + Offset(pool, Ascending(blocks), n))
  {
    hide Offset, TxsLeaves, MarkLeaves, FlatLeaves, Checkpointed;
    var leaves := AllLeavesOf(pool, blocks, key, filter);
    UpdatedIsFlat(state, leaves, n - 1, nullifier);
    LeafCount(pool, blocks, key, filter, n - 1);
    LeafCount(pool, blocks, key, filter, n);
    FlatStep(leaves, n);
  }

  // ---- The whole batch

  /** The block a lookup by height finds. */
  function BlockAt(blocks: seq<CompactBlock>, height: nat): (block: CompactBlock)
    requires Contiguous(blocks) && Holds(blocks, height)
    ensures block in blocks && block.height == height
  {
    blocks[blocks[0].height - height]
  }

  lemma DetectionBlock(
      pool: Pool, blocks: seq<CompactBlock>, key: Option<ViewingKey>, filter: Option<nat>, d: Detection)
    requires Contiguous(blocks) && Detected(pool, blocks, key, filter, d)
    ensures Holds(blocks, d.height) && DetectedAt(pool, BlockAt(blocks, d.height), key, filter, d)
    ensures HasOutput(pool, BlockAt(blocks, d.height), d.txNum, d.outputNum)
  {
    var b :| 0 <= b < |blocks| && DetectedAt(pool, blocks[b], key, filter, d);
    assert blocks[0].height - d.height == b;
  }

  lemma DistinctDetections(
      pool: Pool, blocks: seq<CompactBlock>, key: Option<ViewingKey>, filter: Option<nat>, d: Detection, e: Detection)
    requires UniqueTxids(blocks) && Detected(pool, blocks, key, filter, d) && Detected(pool, blocks, key, filter, e)
    requires d.txid == e.txid && d.outputNum == e.outputNum
    ensures d == e
  {
    var b :| 0 <= b < |blocks| && DetectedAt(pool, blocks[b], key, filter, d);
    var c :| 0 <= c < |blocks| && DetectedAt(pool, blocks[c], key, filter, e);
  }

  /** The record of a detection: the detected note, at the position that counts the server's tree of the block below (if
      the pool was active) and the block's outputs before the note, and its nullifier there. */
  ghost predicate Recorded(
      pool: Pool, blocks: seq<CompactBlock>, trees: nat -> seq<nat>, activation: nat,
      nullifier: (Note, nat) -> Nullifier,
      records: map<OutputId, NoteRecord>, d: Detection)
  {
    && Contiguous(blocks) && Holds(blocks, d.height) && d.height > 0
    && HasOutput(pool, BlockAt(blocks, d.height), d.txNum, d.outputNum) && OutputId(d.txid, d.outputNum) in records
    && var record := records[OutputId(d.txid, d.outputNum)];
       && record.note == d.note && record.nullifier == nullifier(d.note, record.position)
       && record.position
            == (if d.height - 1 >= activation then |trees(d.height - 1)| else 0)
               + TxsCount(pool, BlockAt(blocks, d.height), d.txNum) + d.outputNum
  }

  /** Nothing but the detections' ids is touched. */
  ghost predicate OnlyDetected(
      before: map<OutputId, NoteRecord>, after: map<OutputId, NoteRecord>, workers: set<Detection>)
  {
    forall id ::
      (forall d :: d in workers ==> id != OutputId(d.txid, d.outputNum)) ==>
        ((id in after <==> id in before) && (id in after ==> after[id] == before[id]))
  }

  /** The position of a witness is that of the last leaf of the tree it starts from. */
  method WitnessedPosition(
      pool: Pool, blocks: seq<CompactBlock>, trees: nat -> seq<nat>, activation: nat,
      height: nat, txNum: nat, outputNum: nat)
    returns (position: nat)
    requires Contiguous(blocks) && Holds(blocks, height) && height > 0
    requires HasOutput(pool, BlockAt(blocks, height), txNum, outputNum)
    ensures position == (if height - 1 >= activation then |trees(height - 1)| else 0)
                        + TxsCount(pool, BlockAt(blocks, height), txNum) + outputNum
  {
    hide TxsCount, HasOutput;
    var tree := GetNoteWitness(pool, blocks, trees, activation, height, txNum, outputNum);
    position := |tree.value| - 1;
  }

  /** One worker: its witness is always found. */
  method RunWorker(
      pool: Pool, blocks: seq<CompactBlock>, key: ViewingKey, ghost filter: Option<nat>, trees: nat -> seq<nat>,
      activation: nat, d: Detection, before: map<OutputId, NoteRecord>)
    returns (records: map<OutputId, NoteRecord>)
    requires Contiguous(blocks) && (forall b :: 0 <= b < |blocks| ==> blocks[b].height > 0)
    requires Detected(pool, blocks, Some(key), filter, d)
    ensures Recorded(pool, blocks, trees, activation, key.nullifier, records, d)
    ensures records.Keys == before.Keys + {OutputId(d.txid, d.outputNum)}
    ensures forall id :: id in before && id != OutputId(d.txid, d.outputNum) ==> records[id] == before[id]
  {
    hide TxsCount, DetectedAt, Detected, Contiguous, HasOutput;
    DetectionBlock(pool, blocks, Some(key), filter, d);
    var position := WitnessedPosition(pool, blocks, trees, activation, d.height, d.txNum, d.outputNum);
    records := before[OutputId(d.txid, d.outputNum) := NoteRecord(d.note, position, key.nullifier(d.note, position))];
  }

  lemma RecordedKept(
      pool: Pool, blocks: seq<CompactBlock>, trees: nat -> seq<nat>, activation: nat,
      nullifier: (Note, nat) -> Nullifier, before: map<OutputId, NoteRecord>, after: map<OutputId, NoteRecord>,
      d: Detection)
    requires Recorded(pool, blocks, trees, activation, nullifier, before, d)
    requires var id := OutputId(d.txid, d.outputNum); id in before ==> id in after && after[id] == before[id]
    ensures Recorded(pool, blocks, trees, activation, nullifier, after, d)
  {
    hide TxsCount;
  }

  /** The workers, finishing in any order, each record their note. */
  method RunWorkers(
      pool: Pool, blocks: seq<CompactBlock>, key: ViewingKey, ghost filter: Option<nat>, trees: nat -> seq<nat>,
      activation: nat, workers: set<Detection>, before: map<OutputId, NoteRecord>)
    returns (records: map<OutputId, NoteRecord>)
    requires UniqueTxids(blocks) && Contiguous(blocks) && (forall b :: 0 <= b < |blocks| ==> blocks[b].height > 0)
    requires forall d :: d in workers ==> Detected(pool, blocks, Some(key), filter, d)
    ensures forall d :: d in workers ==> Recorded(pool, blocks, trees, activation, key.nullifier, records, d)
    ensures OnlyDetected(before, records, workers)
  {
    hide Contiguous, UniqueTxids, Detected, Recorded;
    records := before;
    var pending := workers;
    while pending != {}
      invariant pending <= workers
      invariant forall d :: d in workers && d !in pending ==>
                  Recorded(pool, blocks, trees, activation, key.nullifier, records, d)
      invariant OnlyDetected(before, records, workers)
      decreases |pending|
    {
      var d :| d in pending;
      var more := RunWorker(pool, blocks, key, filter, trees, activation, d, records);
      forall e | e in workers && e !in pending
        ensures Recorded(pool, blocks, trees, activation, key.nullifier, more, e)
      {
        if e.txid == d.txid && e.outputNum == d.outputNum {
          DistinctDetections(pool, blocks, Some(key), filter, d, e);
        }
        RecordedKept(pool, blocks, trees, activation, key.nullifier, records, more, e);
      }
      records := more;
      pending := pending - {d};
    }
  }

  lemma AllRecorded(
      pool: Pool, blocks: seq<CompactBlock>, key: Option<ViewingKey>, filter: Option<nat>, trees: nat -> seq<nat>,
      activation: nat, nullifier: (Note, nat) -> Nullifier, records: map<OutputId, NoteRecord>)
    requires Contiguous(blocks)
    requires forall d :: Detected(pool, blocks, key, filter, d) ==>
               Recorded(pool, blocks, trees, activation, nullifier, records, d)
    ensures WorkersRecorded(pool, blocks, key, filter, trees, activation, nullifier, records)
  {
    hide Recorded, Contiguous, WitnessPosition;
    forall b, d | 0 <= b < |blocks| && DetectedAt(pool, blocks[b], key, filter, d) && blocks[b].height > 0
      ensures RecordedAt(pool, trees, activation, nullifier, records, blocks[b], d)
    {
      assert Detected(pool, blocks, key, filter, d);
      RecordedAtBlock(pool, blocks, trees, activation, nullifier, records, d, b);
    }
  }

  lemma RecordedAtBlock(
      pool: Pool, blocks: seq<CompactBlock>, trees: nat -> seq<nat>, activation: nat,
      nullifier: (Note, nat) -> Nullifier, records: map<OutputId, NoteRecord>, d: Detection, b: nat)
    requires Recorded(pool, blocks, trees, activation, nullifier, records, d)
    requires b < |blocks| && blocks[b].height == d.height && HasOutput(pool, blocks[b], d.txNum, d.outputNum)
    ensures RecordedAt(pool, trees, activation, nullifier, records, blocks[b], d)
  {
    hide TxsCount;
    assert blocks[0].height - d.height == b;
  }

  function NullifierOf(key: Option<ViewingKey>): (Note, nat) -> Nullifier {
    if key.Some? then key.value.nullifier else (note, position) => 0
  }

  /** One pool's share of a batch: collect leaves, let the workers record what was detected, then feed the tree.
      From an aligned tree the records end as the workers left them. */
  method TrialDecryptBatch(
      pool: Pool, blocks: seq<CompactBlock>, key: Option<ViewingKey>, filter: Option<nat>, trees: nat -> seq<nat>,
      activation: nat, txMap: TxMap)
    returns (ghost recorded: map<OutputId, NoteRecord>, ghost workers: set<Detection>)
    requires UniqueTxids(blocks) && Contiguous(blocks) && (forall b :: 0 <= b < |blocks| ==> blocks[b].height > 0)
    modifies txMap
    ensures forall d :: d in workers <==> Detected(pool, blocks, key, filter, d)
    ensures WorkersRecorded(pool, blocks, key, filter, trees, activation, NullifierOf(key), recorded)
    ensures OnlyDetected(old(txMap.records), recorded, workers)
    ensures txMap.State() == Updated(old(txMap.State()).(records := recorded), AllLeavesOf(pool, blocks, key, filter),
                                     |blocks|, NullifierOf(key))
    ensures (ServerFollows(pool, trees, activation, Ascending(blocks))
             && Aligned(trees, activation, Ascending(blocks), old(txMap.State()))) ==> txMap.records == recorded
  {
    hide UniqueTxids, Contiguous, Detected, Recorded, OnlyDetected, WorkersRecorded, Updated, ServerFollows,
        AllLeavesOf;
    var leaves, queued := CollectBatch(pool, blocks, key, filter);
    workers := queued;
    if key.Some? {
      txMap.records := RunWorkers(pool, blocks, key.value, filter, trees, activation, queued, txMap.records);
    } else {
      NothingDetected(pool, blocks, filter, queued, txMap.records);
    }
    recorded := txMap.records;
    AllRecorded(pool, blocks, key, filter, trees, activation, NullifierOf(key), recorded);
    ghost var state := txMap.State();
    assert state == old(txMap.State()).(records := recorded);
    txMap.UpdateWitnesses(leaves, NullifierOf(key));
    if
      && ServerFollows(pool, trees, activation, Ascending(blocks))
      && Aligned(trees, activation, Ascending(blocks), state)
    {
      AlignedUpdateChangesNoRecord(pool, blocks, key, filter, trees, activation, NullifierOf(key), state);
    }
  }

  lemma NothingDetected(
      pool: Pool, blocks: seq<CompactBlock>, filter: Option<nat>, workers: set<Detection>,
      records: map<OutputId, NoteRecord>)
    requires forall d :: d in workers <==> Detected(pool, blocks, None, filter, d)
    ensures forall d :: !Detected(pool, blocks, None, filter, d)
    ensures OnlyDetected(records, records, workers)
  {
  }
}
