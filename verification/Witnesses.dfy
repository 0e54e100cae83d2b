/** How a batch's note commitments enter the witness trees, and which positions its notes get. Blocks arrive tallest
    first; the trees take them in chain order. */
module Witnesses {
  import opened Wrappers
  import opened CompactBlocks
  import opened TrialDecryption

  /** An external incoming viewing key of one pool, with the nullifier its full viewing key gives a note at a
      position. */
  datatype ViewingKey = ViewingKey(decrypts: Output -> Option<Note>, nullifier: (Note, nat) -> Nullifier)

  /** An output on its way into the tree: `marked` is Retention::Marked, otherwise Ephemeral. */
  datatype NoteLeaf = NoteLeaf(outputIndex: nat, txid: nat, node: nat, marked: bool)

  datatype BlockLeaves = BlockLeaves(leaves: seq<NoteLeaf>, height: nat)

  /** A decrypted output waiting for its worker. */
  datatype Detection = Detection(height: nat, txNum: nat, outputNum: nat, txid: nat, note: Note)

  datatype TreeLeaf = TreeLeaf(node: nat, marked: bool)

  datatype Checkpoint = Checkpoint(height: nat, size: nat)

  datatype NoteRecord = NoteRecord(note: Note, position: nat, nullifier: Nullifier)

  /** One pool's share of the wallet's transaction map. `tree` is None in a wallet without witness trees. */
  datatype PoolState = PoolState(
    tree: Option<seq<TreeLeaf>>, checkpoints: seq<Checkpoint>, records: map<OutputId, NoteRecord>)

  // ---- Collecting leaves

  predicate TooLarge(tx: CompactTx, filter: Option<nat>) {
    filter.Some? && |tx.outputs| + |tx.actions| > filter.value
  }

  /** What trial decryption of an output yields: nothing without a key or in a transaction above the size filter. */
  function Detect(tx: CompactTx, key: Option<ViewingKey>, filter: Option<nat>, output: Output): Option<Note> {
    if key.None? || TooLarge(tx, filter) then None else key.value.decrypts(output)
  }

  /** One leaf per output, in order, marked iff the output was detected. */
  function TxLeaves(pool: Pool, tx: CompactTx, key: Option<ViewingKey>, filter: Option<nat>): (r: seq<NoteLeaf>)
    ensures |r| == |tx.Outputs(pool)|
    ensures forall i {:trigger r[i]} :: 0 <= i < |r| ==>
              r[i] == NoteLeaf(i, tx.txid, tx.Outputs(pool)[i].commitment,
                               Detect(tx, key, filter, tx.Outputs(pool)[i]).Some?)
  {
    var outputs := tx.Outputs(pool);
    seq(|outputs|, i requires 0 <= i < |outputs| =>
      NoteLeaf(i, tx.txid, outputs[i].commitment, Detect(tx, key, filter, outputs[i]).Some?))
  }

  function TxsLeaves(
      pool: Pool, block: CompactBlock, n: nat, key: Option<ViewingKey>, filter: Option<nat>): seq<NoteLeaf>
    requires n <= |block.vtx|
  {
    if n == 0 then []
    else TxsLeaves(pool, block, n - 1, key, filter) + TxLeaves(pool, block.vtx[n - 1], key, filter)
  }

  function LeavesOf(pool: Pool, block: CompactBlock, key: Option<ViewingKey>, filter: Option<nat>): BlockLeaves {
    BlockLeaves(TxsLeaves(pool, block, |block.vtx|, key, filter), block.height)
  }

  function AllLeavesOf(pool: Pool, blocks: seq<CompactBlock>, key: Option<ViewingKey>, filter: Option<nat>)
    : (r: seq<BlockLeaves>)
    ensures |r| == |blocks|
    ensures forall i {:trigger r[i]} :: 0 <= i < |r| ==> r[i] == LeavesOf(pool, blocks[i], key, filter)
  {
    seq(|blocks|, i requires 0 <= i < |blocks| => LeavesOf(pool, blocks[i], key, filter))
  }

  /** Output `o` of transaction `t` of `block` was decrypted to `d.note`. */
  predicate DetectedAt(pool: Pool, block: CompactBlock, key: Option<ViewingKey>, filter: Option<nat>, d: Detection) {
    && d.height == block.height && d.txNum < |block.vtx| && d.txid == block.vtx[d.txNum].txid
    && d.outputNum < |block.vtx[d.txNum].Outputs(pool)|
    && Detect(block.vtx[d.txNum], key, filter, block.vtx[d.txNum].Outputs(pool)[d.outputNum]) == Some(d.note)
  }

  predicate Detected(
      pool: Pool, blocks: seq<CompactBlock>, key: Option<ViewingKey>, filter: Option<nat>, d: Detection)
  {
    exists b :: 0 <= b < |blocks| && DetectedAt(pool, blocks[b], key, filter, d)
  }

  function ZipOutputs(pool: Pool, tx: CompactTx): (r: seq<NoteLeaf>)
    ensures r == TxLeaves(pool, tx, None, None)
  {
    var outputs := tx.Outputs(pool);
    seq(|outputs|, i requires 0 <= i < |outputs| => NoteLeaf(i, tx.txid, outputs[i].commitment, false))
  }

  /** Tries every output with the key, marking the leaves of those that decrypt and queueing a worker for each. */
  method DecryptOutputs(
      pool: Pool, block: CompactBlock, txNum: nat, key: ViewingKey, ghost filter: Option<nat>,
      leaves: seq<NoteLeaf>, workers: set<Detection>)
    returns (marked: seq<NoteLeaf>, queued: set<Detection>)
    requires txNum < |block.vtx| && leaves == ZipOutputs(pool, block.vtx[txNum]) && !TooLarge(block.vtx[txNum], filter)
    ensures marked == TxLeaves(pool, block.vtx[txNum], Some(key), filter)
    ensures forall d :: d in queued <==>
              d in workers || (d.txNum == txNum && DetectedAt(pool, block, Some(key), filter, d))
  {
    var tx := block.vtx[txNum];
    var outputs := tx.Outputs(pool);
    marked, queued := leaves, workers;
    for i := 0 to |outputs|
      invariant |marked| == |outputs|
      invariant forall k {:trigger marked[k]} :: 0 <= k < |outputs| ==>
                  marked[k] == leaves[k].(marked := k < i && key.decrypts(outputs[k]).Some?)
      invariant forall d :: d in queued <==>
                  d in workers || (d.txNum == txNum && d.outputNum < i && DetectedAt(pool, block, Some(key), filter, d))
    {
      match key.decrypts(outputs[i])
      case Some(note) =>
        queued := queued + {Detection(block.height, txNum, i, tx.txid, note)};
        marked := marked[i := marked[i].(marked := true)];
      case None =>
    }
  }

  /** One pool of one transaction: leaves are taken whatever the filter says, decryption is attempted only below it. */
  method CollectTx(
      pool: Pool, block: CompactBlock, txNum: nat, key: Option<ViewingKey>, filter: Option<nat>,
      workers: set<Detection>)
    returns (leaves: seq<NoteLeaf>, queued: set<Detection>)
    requires txNum < |block.vtx|
    ensures leaves == TxLeaves(pool, block.vtx[txNum], key, filter)
    ensures forall d :: d in queued <==> d in workers || (d.txNum == txNum && DetectedAt(pool, block, key, filter, d))
    ensures var tx := block.vtx[txNum];
            var tried := key.Some? && (filter.Some? ==> |tx.outputs| + |tx.actions| <= filter.value);
            && |leaves| == |tx.Outputs(pool)|
            && (forall i :: 0 <= i < |leaves| ==>
                  && leaves[i].outputIndex == i && leaves[i].txid == tx.txid
                  && leaves[i].node == tx.Outputs(pool)[i].commitment
                  && (leaves[i].marked <==> tried && key.value.decrypts(tx.Outputs(pool)[i]).Some?))
            && (forall d :: d in queued && d !in workers ==>
                  && tried && d.height == block.height && d.txNum == txNum && d.txid == tx.txid
                  && d.outputNum < |tx.Outputs(pool)|
                  && key.value.decrypts(tx.Outputs(pool)[d.outputNum]) == Some(d.note))
  {
    leaves, queued := ZipOutputs(pool, block.vtx[txNum]), workers;
    if !TooLarge(block.vtx[txNum], filter) && key.Some? {
      leaves, queued := DecryptOutputs(pool, block, txNum, key.value, filter, leaves, workers);
    }
  }

  method CollectBlock(
      pool: Pool, block: CompactBlock, key: Option<ViewingKey>, filter: Option<nat>, workers: set<Detection>)
    returns (leaves: seq<NoteLeaf>, queued: set<Detection>)
    ensures leaves == LeavesOf(pool, block, key, filter).leaves
    ensures forall d :: d in queued <==> d in workers || DetectedAt(pool, block, key, filter, d)
  {
    leaves, queued := [], workers;
    for t := 0 to |block.vtx|
      invariant leaves == TxsLeaves(pool, block, t, key, filter)
      invariant forall d :: d in queued <==> d in workers || (d.txNum < t && DetectedAt(pool, block, key, filter, d))
    {
      var txLeaves, more := CollectTx(pool, block, t, key, filter, queued);
      leaves, queued := leaves + txLeaves, more;
    }
  }

  method CollectBatch(pool: Pool, blocks: seq<CompactBlock>, key: Option<ViewingKey>, filter: Option<nat>)
    returns (leaves: seq<BlockLeaves>, workers: set<Detection>)
    ensures leaves == AllLeavesOf(pool, blocks, key, filter)
    ensures forall d :: d in workers <==> Detected(pool, blocks, key, filter, d)
  {
    hide LeavesOf, DetectedAt;
    leaves, workers := [], {};
    for b := 0 to |blocks|
      invariant |leaves| == b && forall i :: 0 <= i < b ==> leaves[i] == LeavesOf(pool, blocks[i], key, filter)
      invariant forall d :: d in workers <==> exists i :: 0 <= i < b && DetectedAt(pool, blocks[i], key, filter, d)
    {
      var blockLeaves, queued := CollectBlock(pool, blocks[b], key, filter, workers);
      leaves := leaves + [BlockLeaves(blockLeaves, blocks[b].height)];
      assert leaves[b] == LeavesOf(pool, blocks[b], key, filter) by { HeightOfLeaves(pool, blocks[b], key, filter); }
      workers := queued;
    }
  }

  lemma HeightOfLeaves(pool: Pool, block: CompactBlock, key: Option<ViewingKey>, filter: Option<nat>)
    ensures LeavesOf(pool, block, key, filter).height == block.height
  {
  }

  // ---- Feeding the tree

  function IdOf(leaf: NoteLeaf): OutputId {
    OutputId(leaf.txid, leaf.outputIndex)
  }

  /** What recording a position does: a note that is not on record is left alone. */
  function Positioned(
      records: map<OutputId, NoteRecord>, id: OutputId, position: nat, nullifier: (Note, nat) -> Nullifier)
    : map<OutputId, NoteRecord>
  {
    if id in records then records[id := NoteRecord(records[id].note, position, nullifier(records[id].note, position))]
    else records
  }

  /** The records once the first `n` leaves, sitting from `position` on, have been gone through. */
  function MarkLeaves(
      records: map<OutputId, NoteRecord>, leaves: seq<NoteLeaf>, position: nat, n: nat,
      nullifier: (Note, nat) -> Nullifier)
    : map<OutputId, NoteRecord>
    requires n <= |leaves|
  {
    if n == 0 then records
    else
      var before := MarkLeaves(records, leaves, position, n - 1, nullifier);
      if leaves[n - 1].marked then Positioned(before, IdOf(leaves[n - 1]), position + n - 1, nullifier) else before
  }

  function TreeLeaves(leaves: seq<NoteLeaf>): (r: seq<TreeLeaf>)
    ensures |r| == |leaves|
    ensures forall i {:trigger r[i]} :: 0 <= i < |r| ==> r[i] == TreeLeaf(leaves[i].node, leaves[i].marked)
  {
    seq(|leaves|, i requires 0 <= i < |leaves| => TreeLeaf(leaves[i].node, leaves[i].marked))
  }

  /** A checkpoint is refused unless it is above all earlier ones. */
  function Checkpointed(checkpoints: seq<Checkpoint>, height: nat, size: nat): seq<Checkpoint> {
    if checkpoints != [] && checkpoints[|checkpoints| - 1].height >= height then checkpoints
    else checkpoints + [Checkpoint(height, size)]
  }

  function InsertBlock(state: PoolState, block: BlockLeaves, nullifier: (Note, nat) -> Nullifier): PoolState {
    match state.tree
    case None => state
    case Some(tree) =>
      PoolState(
        Some(tree + TreeLeaves(block.leaves)),
        Checkpointed(state.checkpoints, block.height, |tree| + |block.leaves|),
        MarkLeaves(state.records, block.leaves, |tree|, |block.leaves|, nullifier))
  }

  /** After the last `n` blocks of the list, last first. */
  function Updated(state: PoolState, blocks: seq<BlockLeaves>, n: nat, nullifier: (Note, nat) -> Nullifier): PoolState
    requires n <= |blocks|
  {
    if n == 0 then state else InsertBlock(Updated(state, blocks, n - 1, nullifier), blocks[|blocks| - n], nullifier)
  }

  /** One pool of the wallet's transaction map. */
  class TxMap {
    var tree: Option<seq<TreeLeaf>>
    var checkpoints: seq<Checkpoint>
    var records: map<OutputId, NoteRecord>

    constructor (state: PoolState)
      ensures State() == state
    {
      tree, checkpoints, records := state.tree, state.checkpoints, state.records;
    }

    function State(): PoolState
      reads this
    {
      PoolState(tree, checkpoints, records)
    }

    method MarkNotePosition(txid: nat, outputIndex: nat, position: nat, nullifier: (Note, nat) -> Nullifier)
      modifies this`records
      ensures records == Positioned(old(records), OutputId(txid, outputIndex), position, nullifier)
    {
      var id := OutputId(txid, outputIndex);
      if id in records {
        var note := records[id].note;
        records := records[id := NoteRecord(note, position, nullifier(note, position))];
      }
    }

    method UpdateWitnesses(blocks: seq<BlockLeaves>, nullifier: (Note, nat) -> Nullifier)
      modifies this
      ensures State() == Updated(old(State()), blocks, |blocks|, nullifier)
    {
      for n := 0 to |blocks|
        invariant State() == Updated(old(State()), blocks, n, nullifier)
      {
        var block := blocks[|blocks| - 1 - n];
        if tree.Some? {
          InsertOneBlock(block, nullifier);
        }
      }
    }

    method InsertOneBlock(block: BlockLeaves, nullifier: (Note, nat) -> Nullifier)
      requires tree.Some?
      modifies this
      ensures State() == InsertBlock(old(State()), block, nullifier)
    {
      var position := |tree.value|;
      var nodesRetention: seq<TreeLeaf> := [];
      for i := 0 to |block.leaves|
        invariant tree == old(tree) && checkpoints == old(checkpoints)
        invariant records == MarkLeaves(old(records), block.leaves, position, i, nullifier)
        invariant nodesRetention == TreeLeaves(block.leaves)[..i]
      {
        var leaf := block.leaves[i];
        if leaf.marked {
          MarkNotePosition(leaf.txid, leaf.outputIndex, position + i, nullifier);
        }
        nodesRetention := nodesRetention + [TreeLeaf(leaf.node, leaf.marked)];
      }
      assert TreeLeaves(block.leaves)[..|block.leaves|] == TreeLeaves(block.leaves);
      tree := Some(tree.value + nodesRetention);
      if checkpoints == [] || checkpoints[|checkpoints| - 1].height < block.height {
        checkpoints := checkpoints + [Checkpoint(block.height, |tree.value|)];
      }
    }
  }
}
