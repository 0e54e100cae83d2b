/** The shielded outputs of a list of blocks in chain order: the reference against which note positions,
    tree leaves and tree sizes are stated. */
module ChainSlots {
  import opened CompactBlocks

  /** An output in its place: `last` says it is the last output of the block's last transaction. */
  datatype Slot = Slot(height: nat, txid: nat, index: nat, output: Output, last: bool)

  function TxSlots(pool: Pool, block: CompactBlock, t: nat): (r: seq<Slot>)
    requires t < |block.vtx|
    ensures |r| == |block.vtx[t].Outputs(pool)|
    ensures forall i {:trigger r[i]} :: 0 <= i < |r| ==>
              r[i] == Slot(block.height, block.vtx[t].txid, i, block.vtx[t].Outputs(pool)[i],
                           t == |block.vtx| - 1 && i == |r| - 1)
  {
    var tx := block.vtx[t];
    var outputs := tx.Outputs(pool);
    seq(|outputs|, i requires 0 <= i < |outputs| =>
      Slot(block.height, tx.txid, i, outputs[i], t == |block.vtx| - 1 && i == |outputs| - 1))
  }

  /** The slots of a block's first `n` transactions. */
  function TxsSlots(pool: Pool, block: CompactBlock, n: nat): seq<Slot>
    requires n <= |block.vtx|
  {
    if n == 0 then [] else TxsSlots(pool, block, n - 1) + TxSlots(pool, block, n - 1)
  }

  function BlockSlots(pool: Pool, block: CompactBlock): seq<Slot> {
    TxsSlots(pool, block, |block.vtx|)
  }

  /** The slots of the first `n` blocks. */
  function Slots(pool: Pool, blocks: seq<CompactBlock>, n: nat): seq<Slot>
    requires n <= |blocks|
  {
    if n == 0 then [] else Slots(pool, blocks, n - 1) + BlockSlots(pool, blocks[n - 1])
  }

  /** How many outputs a block's first `n` transactions have. */
  function TxsCount(pool: Pool, block: CompactBlock, n: nat): nat
    requires n <= |block.vtx|
  {
    if n == 0 then 0 else TxsCount(pool, block, n - 1) + |block.vtx[n - 1].Outputs(pool)|
  }

  function BlockCount(pool: Pool, block: CompactBlock): nat {
    TxsCount(pool, block, |block.vtx|)
  }

  /** How many outputs come before block `b`. */
  function Offset(pool: Pool, blocks: seq<CompactBlock>, b: nat): nat
    requires b <= |blocks|
  {
    if b == 0 then 0 else Offset(pool, blocks, b - 1) + BlockCount(pool, blocks[b - 1])
  }

  /** How many outputs all the blocks have. */
  function Total(pool: Pool, blocks: seq<CompactBlock>): nat {
    Offset(pool, blocks, |blocks|)
  }

  lemma {:induction false} TxsCountIsSlots(pool: Pool, block: CompactBlock, n: nat)
    requires n <= |block.vtx|
    ensures |TxsSlots(pool, block, n)| == TxsCount(pool, block, n)
  {
    if n > 0 {
      TxsCountIsSlots(pool, block, n - 1);
    }
  }

  lemma {:induction false} OffsetIsSlots(pool: Pool, blocks: seq<CompactBlock>, b: nat)
    requires b <= |blocks|
    ensures |Slots(pool, blocks, b)| == Offset(pool, blocks, b)
  {
    if b > 0 {
      OffsetIsSlots(pool, blocks, b - 1);
      TxsCountIsSlots(pool, blocks[b - 1], |blocks[b - 1].vtx|);
    }
  }

  lemma {:induction false} OffsetConcat(pool: Pool, a: seq<CompactBlock>, b: seq<CompactBlock>, n: nat)
    requires n <= |a| + |b|
    ensures Offset(pool, a + b, n) == if n <= |a| then Offset(pool, a, n) else Total(pool, a) + Offset(pool, b, n - |a|)
  {
    hide BlockCount;
    if n > 0 {
      OffsetConcat(pool, a, b, n - 1);
    }
  }

  lemma {:induction false} OffsetsRise(pool: Pool, blocks: seq<CompactBlock>, a: nat, b: nat)
    requires a <= b <= |blocks|
    ensures Offset(pool, blocks, a) <= Offset(pool, blocks, b)
  {
    if a < b {
      OffsetsRise(pool, blocks, a, b - 1);
    }
  }

  function AllSlots(pool: Pool, blocks: seq<CompactBlock>): seq<Slot> {
    Slots(pool, blocks, |blocks|)
  }

  lemma {:induction false} SlotsConcat(pool: Pool, a: seq<CompactBlock>, b: seq<CompactBlock>, n: nat)
    requires n <= |a| + |b|
    ensures Slots(pool, a + b, n) ==
            if n <= |a| then Slots(pool, a, n) else Slots(pool, a, |a|) + Slots(pool, b, n - |a|)
  {
    hide BlockSlots;
    if n > 0 {
      SlotsConcat(pool, a, b, n - 1);
    }
  }

  lemma AllSlotsConcat(pool: Pool, a: seq<CompactBlock>, b: seq<CompactBlock>)
    ensures AllSlots(pool, a + b) == AllSlots(pool, a) + AllSlots(pool, b)
    ensures |AllSlots(pool, a)| == Total(pool, a)
  {
    hide BlockSlots, BlockCount;
    SlotsConcat(pool, a, b, |a| + |b|);
    OffsetIsSlots(pool, a, |a|);
  }

  lemma {:induction false} SlotsGrow(pool: Pool, blocks: seq<CompactBlock>, a: nat, b: nat)
    requires a <= b <= |blocks|
    ensures Slots(pool, blocks, a) <= Slots(pool, blocks, b)
  {
    if a < b {
      SlotsGrow(pool, blocks, a, b - 1);
    }
  }

  /** Block `b`'s outputs are the slots from Offset(b) up to Offset(b + 1). */
  lemma BlockSegment(pool: Pool, blocks: seq<CompactBlock>, b: nat)
    requires b < |blocks|
    ensures |AllSlots(pool, blocks)| == Total(pool, blocks)
    ensures Offset(pool, blocks, b) <= Offset(pool, blocks, b + 1) <= Total(pool, blocks)
    ensures AllSlots(pool, blocks)[Offset(pool, blocks, b)..Offset(pool, blocks, b + 1)] == BlockSlots(pool, blocks[b])
  {
    hide BlockSlots, BlockCount;
    OffsetIsSlots(pool, blocks, b);
    OffsetIsSlots(pool, blocks, b + 1);
    OffsetIsSlots(pool, blocks, |blocks|);
    SlotsGrow(pool, blocks, b + 1, |blocks|);
  }

  /** Every slot lies in some block's segment. */
  lemma {:induction false} LocateBlock(pool: Pool, blocks: seq<CompactBlock>, n: nat, j: nat) returns (b: nat)
    requires n <= |blocks| && j < Offset(pool, blocks, n)
    ensures b < n && Offset(pool, blocks, b) <= j < Offset(pool, blocks, b + 1)
  {
    if j >= Offset(pool, blocks, n - 1) {
      b := n - 1;
    } else {
      b := LocateBlock(pool, blocks, n - 1, j);
    }
  }

  predicate LastTxHasOutputs(pool: Pool, block: CompactBlock) {
    block.vtx != [] && block.vtx[|block.vtx| - 1].Outputs(pool) != []
  }

  /** A block's slots carry its height; only the very last can be `last`, and it is iff the block's last
      transaction has outputs in the pool. */
  lemma {:induction false} TxsSlotsShape(pool: Pool, block: CompactBlock, n: nat, j: nat)
    requires n <= |block.vtx| && j < |TxsSlots(pool, block, n)|
    ensures var slots := TxsSlots(pool, block, n);
            && slots[j].height == block.height
            && (slots[j].last <==> n == |block.vtx| && LastTxHasOutputs(pool, block) && j == |slots| - 1)
  {
    if j < |TxsSlots(pool, block, n - 1)| {
      TxsSlotsShape(pool, block, n - 1, j);
    }
  }

  // ---- Where each output sits

  predicate HasOutput(pool: Pool, block: CompactBlock, txNum: nat, outputNum: nat) {
    txNum < |block.vtx| && outputNum < |block.vtx[txNum].Outputs(pool)|
  }

  /** How many of the pool's outputs come before output `o` of transaction `t` of the `b`th block in chain order. */
  function Place(pool: Pool, asc: seq<CompactBlock>, b: nat, t: nat, o: nat): nat
    requires b < |asc| && t <= |asc[b].vtx|
  {
    Offset(pool, asc, b) + TxsCount(pool, asc[b], t) + o
  }

  lemma {:induction false} LocateTx(pool: Pool, block: CompactBlock, n: nat, j: nat) returns (t: nat, o: nat)
    requires n <= |block.vtx| && j < TxsCount(pool, block, n)
    ensures t < n && HasOutput(pool, block, t, o) && j == TxsCount(pool, block, t) + o
  {
    if j >= TxsCount(pool, block, n - 1) {
      t, o := n - 1, j - TxsCount(pool, block, n - 1);
    } else {
      t, o := LocateTx(pool, block, n - 1, j);
    }
  }

  /** Every place belongs to one output. */
  lemma Locate(pool: Pool, asc: seq<CompactBlock>, j: nat) returns (b: nat, t: nat, o: nat)
    requires j < Total(pool, asc)
    ensures b < |asc| && HasOutput(pool, asc[b], t, o) && j == Place(pool, asc, b, t, o)
  {
    b := LocateBlock(pool, asc, |asc|, j);
    t, o := LocateTx(pool, asc[b], |asc[b].vtx|, j - Offset(pool, asc, b));
  }

  lemma TxsSlotsStep(pool: Pool, block: CompactBlock, n: nat)
    requires 0 < n <= |block.vtx|
    ensures TxsSlots(pool, block, n) == TxsSlots(pool, block, n - 1) + TxSlots(pool, block, n - 1)
  {
  }

  lemma {:induction false} TxsSlotAt(pool: Pool, block: CompactBlock, n: nat, t: nat, o: nat)
    requires t < n <= |block.vtx| && o < |block.vtx[t].Outputs(pool)|
    ensures TxsCount(pool, block, t) + o < |TxsSlots(pool, block, n)|
    ensures TxsSlots(pool, block, n)[TxsCount(pool, block, t) + o] == TxSlots(pool, block, t)[o]
  {
    hide TxsSlots, TxSlots, TxsCount;
    TxsSlotsStep(pool, block, n);
    if t < n - 1 {
      TxsSlotAt(pool, block, n - 1, t, o);
    } else {
      TxsCountIsSlots(pool, block, n - 1);
    }
  }

  lemma SlotAt(pool: Pool, asc: seq<CompactBlock>, b: nat, t: nat, o: nat)
    requires b < |asc| && HasOutput(pool, asc[b], t, o)
    ensures Place(pool, asc, b, t, o) < |AllSlots(pool, asc)| == Total(pool, asc)
    ensures AllSlots(pool, asc)[Place(pool, asc, b, t, o)] == TxSlots(pool, asc[b], t)[o]
  {
    hide Slots, TxsSlots, TxsCount, Offset;
    BlockSegment(pool, asc, b);
    TxsSlotAt(pool, asc[b], |asc[b].vtx|, t, o);
  }

  /** Output `o` of transaction `t` of block `b` comes before `p` of transaction `u` of block `c`. */
  predicate Earlier(b: nat, t: nat, o: nat, c: nat, u: nat, p: nat) {
    b < c || (b == c && (t < u || (t == u && o < p)))
  }

  lemma {:induction false} TxsCountsRise(pool: Pool, block: CompactBlock, t: nat, u: nat)
    requires t <= u <= |block.vtx|
    ensures TxsCount(pool, block, t) <= TxsCount(pool, block, u)
  {
    if t < u {
      TxsCountsRise(pool, block, t, u - 1);
    }
  }

  /** Places follow the chain: blocks in their order, in a block the transactions, in a transaction the outputs. As
      every place below the total is some output's (`Locate`), an output's place is the number of those before it. */
  lemma PlacesInChainOrder(pool: Pool, asc: seq<CompactBlock>, b: nat, t: nat, o: nat, c: nat, u: nat, p: nat)
    requires b < |asc| && HasOutput(pool, asc[b], t, o) && c < |asc| && HasOutput(pool, asc[c], u, p)
    ensures Place(pool, asc, b, t, o) < Place(pool, asc, c, u, p) <==> Earlier(b, t, o, c, u, p)
  {
    if Earlier(b, t, o, c, u, p) {
      EarlierIsLower(pool, asc, b, t, o, c, u, p);
    } else if Earlier(c, u, p, b, t, o) {
      EarlierIsLower(pool, asc, c, u, p, b, t, o);
    }
  }

  lemma EarlierIsLower(pool: Pool, asc: seq<CompactBlock>, b: nat, t: nat, o: nat, c: nat, u: nat, p: nat)
    requires b < |asc| && HasOutput(pool, asc[b], t, o) && c < |asc| && HasOutput(pool, asc[c], u, p)
    requires Earlier(b, t, o, c, u, p)
    ensures Place(pool, asc, b, t, o) < Place(pool, asc, c, u, p)
  {
    if b < c {
      TxsCountsRise(pool, asc[b], t + 1, |asc[b].vtx|);
      OffsetsRise(pool, asc, b + 1, c);
    } else if t < u {
      TxsCountsRise(pool, asc[b], t + 1, u);
    }
  }

  // ---- Commitments in chain order

  function Nodes(slots: seq<Slot>): (r: seq<nat>)
    ensures |r| == |slots|
    ensures forall i {:trigger r[i]} :: 0 <= i < |r| ==> r[i] == slots[i].output.commitment
  {
    seq(|slots|, i requires 0 <= i < |slots| => slots[i].output.commitment)
  }

  lemma NodesAppend(a: seq<Slot>, b: seq<Slot>)
    ensures Nodes(a + b) == Nodes(a) + Nodes(b)
  {
  }

  /** The tree once the block's first `n` transactions are appended. */
  function TreeWithTxs(pool: Pool, before: seq<nat>, block: CompactBlock, n: nat): seq<nat>
    requires n <= |block.vtx|
  {
    before + Nodes(TxsSlots(pool, block, n))
  }

  lemma NoTxsNodes(pool: Pool, before: seq<nat>, block: CompactBlock)
    ensures TreeWithTxs(pool, before, block, 0) == before
  {
  }

  lemma TxsNodesStep(pool: Pool, before: seq<nat>, block: CompactBlock, t: nat)
    requires t < |block.vtx|
    ensures TreeWithTxs(pool, before, block, t + 1)
              == TreeWithTxs(pool, before, block, t) + Commitments(block.vtx[t].Outputs(pool))
  {
    hide TxSlots;
    NodesAppend(TxsSlots(pool, block, t), TxSlots(pool, block, t));
    TxNodes(pool, block, t);
  }

  lemma TxNodes(pool: Pool, block: CompactBlock, t: nat)
    requires t < |block.vtx|
    ensures Nodes(TxSlots(pool, block, t)) == Commitments(block.vtx[t].Outputs(pool))
  {
  }

  /** `after` is `before` followed by a leaf for each of the block's outputs and no other, each in its place. */
  ghost predicate GrowsBy(pool: Pool, block: CompactBlock, before: seq<nat>, after: seq<nat>) {
    && before <= after && |after| == |before| + BlockCount(pool, block)
    && forall t: nat, o: nat :: HasOutput(pool, block, t, o) ==>
         && TxsCount(pool, block, t) + o < BlockCount(pool, block)
         && after[|before| + TxsCount(pool, block, t) + o] == block.vtx[t].Outputs(pool)[o].commitment
  }

  /** With all its transactions, a block's outputs follow, each at its place in the block. */
  lemma TreeWithBlock(pool: Pool, before: seq<nat>, block: CompactBlock)
    ensures var after := TreeWithTxs(pool, before, block, |block.vtx|);
            && after == before + Nodes(BlockSlots(pool, block)) && |after| == |before| + BlockCount(pool, block)
            && GrowsBy(pool, block, before, after)
  {
    hide TxsSlots, TxsCount;
    TxsCountIsSlots(pool, block, |block.vtx|);
    forall t: nat, o: nat | HasOutput(pool, block, t, o)
      ensures TxsCount(pool, block, t) + o < BlockCount(pool, block)
      ensures BlockSlots(pool, block)[TxsCount(pool, block, t) + o].output == block.vtx[t].Outputs(pool)[o]
    {
      TxsSlotAt(pool, block, |block.vtx|, t, o);
    }
  }

  lemma OneBlockSlots(pool: Pool, block: CompactBlock)
    ensures AllSlots(pool, [block]) == BlockSlots(pool, block)
  {
    assert Slots(pool, [block], 0) + BlockSlots(pool, block) == BlockSlots(pool, block);
  }

  /** `tree` has a leaf for each of the pool's outputs in `blocks` and no other, each at its output's place. */
  ghost predicate HoldsEvery(pool: Pool, blocks: seq<CompactBlock>, tree: seq<nat>) {
    && |tree| == Total(pool, blocks)
    && forall b: nat, t: nat, o: nat :: b < |blocks| && HasOutput(pool, blocks[b], t, o) ==>
         && Place(pool, blocks, b, t, o) < |tree|
         && tree[Place(pool, blocks, b, t, o)] == blocks[b].vtx[t].Outputs(pool)[o].commitment
  }

  lemma NodesHoldEvery(pool: Pool, blocks: seq<CompactBlock>, tree: seq<nat>)
    ensures tree == Nodes(AllSlots(pool, blocks)) <==> HoldsEvery(pool, blocks, tree)
  {
    hide Place, Slots, Offset;
    var nodes := Nodes(AllSlots(pool, blocks));
    AllSlotsConcat(pool, blocks, []);
    forall b: nat, t: nat, o: nat | b < |blocks| && HasOutput(pool, blocks[b], t, o)
      ensures Place(pool, blocks, b, t, o) < |nodes|
      ensures nodes[Place(pool, blocks, b, t, o)] == blocks[b].vtx[t].Outputs(pool)[o].commitment
    {
      SlotAt(pool, blocks, b, t, o);
    }
    if HoldsEvery(pool, blocks, tree) {
      forall j | 0 <= j < |tree| ensures tree[j] == nodes[j] {
        var b, t, o := Locate(pool, blocks, j);
        assert HasOutput(pool, blocks[b], t, o);
      }
    }
  }
}
