/** The scanner's loops over blocks and transactions, proved to compute `Scan.Scan` with its decryption
    results coming from the asynchronous batch runners. */
module Scanner {
  import opened Wrappers
  import opened Sequences
  import opened CompactBlocks
  import opened TrialDecryption
  import opened ChainSlots
  import opened BatchRunners
  import opened Scan

  method CheckContinuity(blocks: seq<CompactBlock>, previous: Option<WalletBlock>) returns (ok: bool)
    ensures ok <==> Continuous(blocks, previous)
  {
    hide Continuous;
    ContinuousNone(blocks, previous);
    var prevHeight: Option<nat>, prevHash: Option<nat> := None, None;
    if previous.Some? {
      prevHeight, prevHash := Some(previous.value.height), Some(previous.value.hash);
    }
    for i := 0 to |blocks|
      invariant Continuous(blocks[..i], previous) && EndsAt(blocks[..i], previous, prevHeight, prevHash)
    {
      ContinuousNext(blocks, previous, i, prevHeight, prevHash);
      if prevHeight.Some? && blocks[i].height != prevHeight.value + 1 {
        return false;
      }
      if prevHash.Some? && blocks[i].prevHash != prevHash.value {
        return false;
      }
      prevHeight, prevHash := Some(blocks[i].height), Some(blocks[i].hash);
    }
    assert blocks[..|blocks|] == blocks;
    ok := true;
  }

  lemma ContinuousNone(blocks: seq<CompactBlock>, previous: Option<WalletBlock>)
    ensures Continuous(blocks[..0], previous)
  {
  }

  /** The height and hash the next block has to follow. */
  predicate EndsAt(
      blocks: seq<CompactBlock>, previous: Option<WalletBlock>, height: Option<nat>, hash: Option<nat>)
  {
    if blocks != [] then
      height == Some(blocks[|blocks| - 1].height) && hash == Some(blocks[|blocks| - 1].hash)
    else if previous.Some? then height == Some(previous.value.height) && hash == Some(previous.value.hash)
    else height == None && hash == None
  }

  lemma ContinuousNext(
      blocks: seq<CompactBlock>, previous: Option<WalletBlock>, i: nat, height: Option<nat>, hash: Option<nat>)
    requires i < |blocks| && Continuous(blocks[..i], previous) && EndsAt(blocks[..i], previous, height, hash)
    ensures Continuous(blocks, previous) ==> Continuous(blocks[..i + 1], previous)
    ensures Continuous(blocks[..i + 1], previous) <==>
              && (height.Some? ==> blocks[i].height == height.value + 1)
              && (hash.Some? ==> blocks[i].prevHash == hash.value)
    ensures EndsAt(blocks[..i + 1], previous, Some(blocks[i].height), Some(blocks[i].hash))
  {
    var earlier, longer := blocks[..i], blocks[..i + 1];
    assert longer == earlier + [blocks[i]];
  }

  // ---- One transaction

  /** The leaves of one transaction's outputs, marked where the decryption results say so. */
  function CalculateLeavesAndRetentions(
      outputs: seq<Output>, height: nat, lastOutputsInBlock: bool, incoming: map<OutputId, DecryptedOutput>): seq<Leaf>
  {
    var incomingIndices := set id | id in incoming :: id.outputIndex;
    if outputs == [] then []
    else
      var lastOutputIndex := |outputs| - 1;
      seq(|outputs|, i requires 0 <= i < |outputs| =>
        var lastOutputInBlock := lastOutputsInBlock && i == lastOutputIndex;
        var decrypted := i in incomingIndices;
        Leaf(outputs[i].commitment,
             match (decrypted, lastOutputInBlock)
             case (isMarked, true) => Checkpoint(height, isMarked)
             case (true, false) => Marked
             case (false, false) => Ephemeral))
  }

  lemma IncomingIndex(keys: PoolKeys, txid: nat, outputs: seq<Output>, i: nat)
    requires i < |outputs|
    ensures (exists id :: id in DirectDecryption(keys, txid, outputs) && id.outputIndex == i) <==>
            Decrypt(keys, outputs[i]).Some?
  {
    hide Decrypt;
    if Decrypt(keys, outputs[i]).Some? {
      assert OutputId(txid, i) in DirectDecryption(keys, txid, outputs);
    }
  }

  lemma CalculatedLeaves(keys: PoolKeys, pool: Pool, block: CompactBlock, t: nat)
    requires t < |block.vtx|
    ensures CalculateLeavesAndRetentions(
              block.vtx[t].Outputs(pool), block.height, t == |block.vtx| - 1,
              DirectDecryption(keys, block.vtx[t].txid, block.vtx[t].Outputs(pool)))
         == Leaves(keys, TxSlots(pool, block, t))
  {
    hide Decrypt, DirectDecryption;
    var tx := block.vtx[t];
    var incoming := DirectDecryption(keys, tx.txid, tx.Outputs(pool));
    forall i | 0 <= i < |tx.Outputs(pool)|
      ensures (exists id :: id in incoming && id.outputIndex == i) <==> Decrypt(keys, tx.Outputs(pool)[i]).Some?
    {
      IncomingIndex(keys, tx.txid, tx.Outputs(pool), i);
    }
  }

  /** A decrypted output's nullifier and position, `treeSize` being the tree size before its transaction. */
  function NoteOf(keys: PoolKeys, treeSize: nat, outputIndex: nat, d: DecryptedOutput): (Nullifier, nat) {
    (keys.nullifier(d.ivkTag, d.note, treeSize + outputIndex), treeSize + outputIndex)
  }

  /** The decrypted outputs of one transaction with their nullifiers and positions. */
  function TxNotes(keys: PoolKeys, treeSize: nat, incoming: map<OutputId, DecryptedOutput>)
    : map<OutputId, (Nullifier, nat)>
  {
    map id | id in incoming :: NoteOf(keys, treeSize, id.outputIndex, incoming[id])
  }

  /** Visits the results in any order. */
  method CalculateNullifiersAndPositions(
      keys: PoolKeys, treeSize: nat, incoming: map<OutputId, DecryptedOutput>, notes: map<OutputId, (Nullifier, nat)>)
    returns (r: map<OutputId, (Nullifier, nat)>)
    ensures r == notes + TxNotes(keys, treeSize, incoming)
  {
    hide NoteOf;
    r := notes;
    var rest := incoming.Keys;
    while rest != {}
      invariant rest <= incoming.Keys
      invariant r.Keys == notes.Keys + (incoming.Keys - rest)
      invariant forall id :: id in r ==>
                  r[id] ==
                  if id in incoming && id !in rest then NoteOf(keys, treeSize, id.outputIndex, incoming[id])
                  else notes[id]
    {
      var id :| id in rest;
      r := r[id := NoteOf(keys, treeSize, id.outputIndex, incoming[id])];
      rest := rest - {id};
    }
  }

  lemma {:induction false} TxNotesPrefix(
      keys: PoolKeys, pool: Pool, block: CompactBlock, t: nat, n: nat, start: nat, id: OutputId)
    requires t < |block.vtx| && n <= |block.vtx[t].Outputs(pool)|
    ensures id in Notes(keys, TxSlots(pool, block, t), n, start) <==>
            && id.txid == block.vtx[t].txid && id.outputIndex < n
            && Decrypt(keys, block.vtx[t].Outputs(pool)[id.outputIndex]).Some?
    ensures id in Notes(keys, TxSlots(pool, block, t), n, start) ==>
              Notes(keys, TxSlots(pool, block, t), n, start)[id] ==
              NoteAt(keys, block.vtx[t].Outputs(pool)[id.outputIndex], start + id.outputIndex)
  {
    hide Decrypt, NoteAt;
    if n > 0 {
      TxNotesPrefix(keys, pool, block, t, n - 1, start, id);
      assert TxSlots(pool, block, t)[n - 1].output == block.vtx[t].Outputs(pool)[n - 1];
    }
  }

  lemma TxNotesAreNotes(keys: PoolKeys, pool: Pool, block: CompactBlock, t: nat, start: nat)
    requires t < |block.vtx|
    ensures TxNotes(keys, start, DirectDecryption(keys, block.vtx[t].txid, block.vtx[t].Outputs(pool)))
         == Notes(keys, TxSlots(pool, block, t), |TxSlots(pool, block, t)|, start)
  {
    hide Decrypt, Notes, TxSlots;
    var slots, outputs := TxSlots(pool, block, t), block.vtx[t].Outputs(pool);
    var direct := DirectDecryption(keys, block.vtx[t].txid, outputs);
    var computed, spec := TxNotes(keys, start, direct), Notes(keys, slots, |slots|, start);
    forall id ensures id in computed <==> id in spec {
      TxNotesPrefix(keys, pool, block, t, |slots|, start, id);
    }
    forall id | id in computed ensures computed[id] == spec[id] {
      TxNotesPrefix(keys, pool, block, t, |slots|, start, id);
    }
  }

  method CollectNullifiers(pool: Pool, block: CompactBlock, t: nat, nullifiers: map<nat, (nat, nat)>)
    returns (r: map<nat, (nat, nat)>)
    requires t < |block.vtx|
    ensures var spends := TxSpends(pool, block, t); r == nullifiers + NullifierMap(spends, |spends|)
  {
    r := nullifiers;
    var revealed := block.vtx[t].Nullifiers(pool);
    for i := 0 to |revealed|
      invariant r == nullifiers + NullifierMap(TxSpends(pool, block, t), i)
    {
      r := r[revealed[i] := (block.height, block.vtx[t].txid)];
    }
  }

  /** What is collected about one pool extends by one transaction. */
  lemma ExtendByTx(
      keys: PoolKeys, pool: Pool, block: CompactBlock, t: nat, slots: seq<Slot>, spends: seq<Spend>, start: nat)
    requires t < |block.vtx|
    ensures var tx, txSlots, txSpends := block.vtx[t], TxSlots(pool, block, t), TxSpends(pool, block, t);
            var incoming := DirectDecryption(keys, tx.txid, tx.Outputs(pool));
            var before := PoolScan(keys, slots, spends, start);
            && PoolScan(keys, slots + txSlots, spends + txSpends, start) ==
               PoolData(start,
                        before.leaves
                          + CalculateLeavesAndRetentions(
                              tx.Outputs(pool), block.height, t == |block.vtx| - 1, incoming),
                        before.notes + TxNotes(keys, start + |slots|, incoming),
                        before.nullifiers + NullifierMap(txSpends, |txSpends|))
            && Relevant(keys, slots + txSlots) == Relevant(keys, slots) + (set id | id in incoming :: id.txid)
  {
    hide CalculateLeavesAndRetentions, TxNotes, NullifierMap, Notes;
    var tx, txSlots, txSpends := block.vtx[t], TxSlots(pool, block, t), TxSpends(pool, block, t);
    PoolScanAppend(keys, slots, txSlots, spends, txSpends, start);
    CalculatedLeaves(keys, pool, block, t);
    TxNotesAreNotes(keys, pool, block, t, start + |slots|);
    RelevantConcat(keys, slots, txSlots);
    RelevantTx(keys, pool, block, t);
  }

  lemma RelevantTx(keys: PoolKeys, pool: Pool, block: CompactBlock, t: nat)
    requires t < |block.vtx|
    ensures Relevant(keys, TxSlots(pool, block, t))
         == set id | id in DirectDecryption(keys, block.vtx[t].txid, block.vtx[t].Outputs(pool)) :: id.txid
  {
    hide Decrypt;
    var tx, slots := block.vtx[t], TxSlots(pool, block, t);
    var direct := DirectDecryption(keys, tx.txid, tx.Outputs(pool));
    forall txid | txid in Relevant(keys, slots) ensures exists id :: id in direct && id.txid == txid {
      var i :| 0 <= i < |slots| && IsMine(keys, slots[i]) && slots[i].txid == txid;
      assert OutputId(tx.txid, i) in direct;
    }
    forall id | id in direct ensures id.txid in Relevant(keys, slots) {
      assert IsMine(keys, slots[id.outputIndex]);
    }
  }

  // ---- The batch runners' book of keys

  function Key(blocks: seq<CompactBlock>, b: nat, t: nat): ResultKey
    requires b < |blocks| && t < |blocks[b].vtx|
  {
    ResultKey(blocks[b].hash, blocks[b].vtx[t].txid)
  }

  predicate Before(b: nat, t: nat, b': nat, t': nat) {
    b < b' || (b == b' && t < t')
  }

  /** No two transactions of the batch share block hash and txid. */
  predicate DistinctKeys(blocks: seq<CompactBlock>) {
    forall b, t, b', t' |
      && 0 <= b < |blocks| && 0 <= t < |blocks[b].vtx| && 0 <= b' < |blocks| && 0 <= t' < |blocks[b'].vtx|
      && Key(blocks, b, t) == Key(blocks, b', t') :: b == b' && t == t'
  }

  /** The runner holds exactly the transactions before (`b`, `t`). */
  predicate AddedUpTo(added: map<ResultKey, seq<Output>>, pool: Pool, blocks: seq<CompactBlock>, b: nat, t: nat) {
    && (forall b', t' :: 0 <= b' < |blocks| && 0 <= t' < |blocks[b'].vtx| ==>
          && (Key(blocks, b', t') in added <==> Before(b', t', b, t))
          && (Key(blocks, b', t') in added ==> added[Key(blocks, b', t')] == blocks[b'].vtx[t'].Outputs(pool)))
  }

  /** The runner still holds exactly the transactions from (`b`, `t`) on. */
  predicate RemainingFrom(added: map<ResultKey, seq<Output>>, pool: Pool, blocks: seq<CompactBlock>, b: nat, t: nat) {
    && (forall b', t' :: 0 <= b' < |blocks| && 0 <= t' < |blocks[b'].vtx| ==>
          && (Key(blocks, b', t') in added <==> !Before(b', t', b, t))
          && (Key(blocks, b', t') in added ==> added[Key(blocks, b', t')] == blocks[b'].vtx[t'].Outputs(pool)))
  }

  lemma AddNext(added: map<ResultKey, seq<Output>>, pool: Pool, blocks: seq<CompactBlock>, b: nat, t: nat)
    requires DistinctKeys(blocks) && b < |blocks| && t < |blocks[b].vtx| && AddedUpTo(added, pool, blocks, b, t)
    ensures Key(blocks, b, t) !in added
    ensures AddedUpTo(added[Key(blocks, b, t) := blocks[b].vtx[t].Outputs(pool)], pool, blocks, b, t + 1)
  {
  }

  lemma RemoveNext(added: map<ResultKey, seq<Output>>, pool: Pool, blocks: seq<CompactBlock>, b: nat, t: nat)
    requires DistinctKeys(blocks) && b < |blocks| && t < |blocks[b].vtx| && RemainingFrom(added, pool, blocks, b, t)
    ensures Key(blocks, b, t) in added && added[Key(blocks, b, t)] == blocks[b].vtx[t].Outputs(pool)
    ensures RemainingFrom(added - {Key(blocks, b, t)}, pool, blocks, b, t + 1)
  {
  }

  /** Nothing is added at the start; a block's end is the next one's start; and what was all added all remains. */
  lemma AddedNothing(pool: Pool, blocks: seq<CompactBlock>)
    ensures AddedUpTo(map[], pool, blocks, 0, 0)
  {
  }

  lemma AddedBlock(added: map<ResultKey, seq<Output>>, pool: Pool, blocks: seq<CompactBlock>, b: nat)
    requires b < |blocks|
    ensures AddedUpTo(added, pool, blocks, b, |blocks[b].vtx|) ==> AddedUpTo(added, pool, blocks, b + 1, 0)
  {
  }

  lemma AddedAll(added: map<ResultKey, seq<Output>>, pool: Pool, blocks: seq<CompactBlock>)
    ensures AddedUpTo(added, pool, blocks, |blocks|, 0) ==> RemainingFrom(added, pool, blocks, 0, 0)
  {
  }

  // ---- All blocks

  /** Both runners are flushed and, unless a key was repeated, still hold exactly the transactions from (`b`, `t`)
      on. */
  ghost predicate RunnersAt(
      sapling: BatchRunner, orchard: BatchRunner, keys: ScanningKeys, blocks: seq<CompactBlock>, b: nat, t: nat)
    reads sapling, orchard
  {
    && sapling != orchard
    && RunnerAt(sapling, keys.sapling, Sapling, blocks, b, t) && RunnerAt(orchard, keys.orchard, Orchard, blocks, b, t)
  }

  ghost predicate RunnerAt(
      runner: BatchRunner, keys: PoolKeys, pool: Pool, blocks: seq<CompactBlock>, b: nat, t: nat)
    reads runner
  {
    && runner.Valid() && runner.keys == keys && runner.acc == []
    && (DistinctKeys(blocks) ==> runner.intact && RemainingFrom(runner.added, pool, blocks, b, t))
  }

  /** The runner is intact and holds exactly the transactions before (`b`, `t`). */
  ghost predicate HoldsUpTo(runner: BatchRunner, pool: Pool, blocks: seq<CompactBlock>, b: nat, t: nat)
    reads runner
  {
    && runner.intact && runner.added.Keys == runner.pendingResults.Keys
    && AddedUpTo(runner.added, pool, blocks, b, t)
  }

  method AddTransaction(runner: BatchRunner, pool: Pool, blocks: seq<CompactBlock>, b: nat, t: nat)
    requires b < |blocks| && t < |blocks[b].vtx| && runner.Valid()
    requires DistinctKeys(blocks) ==> HoldsUpTo(runner, pool, blocks, b, t)
    modifies runner
    ensures runner.Valid()
    ensures DistinctKeys(blocks) ==> HoldsUpTo(runner, pool, blocks, b, t + 1)
  {
    if DistinctKeys(blocks) {
      AddNext(runner.added, pool, blocks, b, t);
    }
    runner.AddOutputs(blocks[b].hash, blocks[b].vtx[t].txid, blocks[b].vtx[t].Outputs(pool));
  }

  /** Adds every transaction's outputs to the two runners and flushes them. */
  method TrialDecrypt(blocks: seq<CompactBlock>, keys: ScanningKeys)
    returns (sapling: BatchRunner, orchard: BatchRunner)
    ensures fresh(sapling) && fresh(orchard) && RunnersAt(sapling, orchard, keys, blocks, 0, 0)
  {
    hide AddedUpTo, RemainingFrom, DistinctKeys, BatchRunner.Valid;
    sapling := new BatchRunner(100, keys.sapling);
    orchard := new BatchRunner(100, keys.orchard);
    AddedNothing(Sapling, blocks);
    AddedNothing(Orchard, blocks);
    for b := 0 to |blocks|
      invariant fresh(sapling) && fresh(orchard) && sapling != orchard
      invariant sapling.Valid() && orchard.Valid() && sapling.keys == keys.sapling && orchard.keys == keys.orchard
      invariant DistinctKeys(blocks) ==>
                  HoldsUpTo(sapling, Sapling, blocks, b, 0) && HoldsUpTo(orchard, Orchard, blocks, b, 0)
    {
      var block := blocks[b];
      for t := 0 to |block.vtx|
        invariant fresh(sapling) && fresh(orchard) && sapling != orchard
        invariant sapling.Valid() && orchard.Valid() && sapling.keys == keys.sapling && orchard.keys == keys.orchard
        invariant DistinctKeys(blocks) ==>
                    HoldsUpTo(sapling, Sapling, blocks, b, t) && HoldsUpTo(orchard, Orchard, blocks, b, t)
      {
        AddTransaction(sapling, Sapling, blocks, b, t);
        AddTransaction(orchard, Orchard, blocks, b, t);
      }
      AddedBlock(sapling.added, Sapling, blocks, b);
      AddedBlock(orchard.added, Orchard, blocks, b);
    }
    AddedAll(sapling.added, Sapling, blocks);
    AddedAll(orchard.added, Orchard, blocks);
    sapling.Flush();
    orchard.Flush();
  }

  /** The decryption results of one transaction, off its runner. */
  method CollectTransaction(
      runner: BatchRunner, keys: PoolKeys, pool: Pool, blocks: seq<CompactBlock>, b: nat, t: nat)
    returns (incoming: map<OutputId, DecryptedOutput>)
    requires b < |blocks| && t < |blocks[b].vtx| && RunnerAt(runner, keys, pool, blocks, b, t)
    modifies runner
    ensures RunnerAt(runner, keys, pool, blocks, b, t + 1)
    ensures DistinctKeys(blocks) ==>
              incoming == DirectDecryption(keys, blocks[b].vtx[t].txid, blocks[b].vtx[t].Outputs(pool))
  {
    if DistinctKeys(blocks) {
      RemoveNext(runner.added, pool, blocks, b, t);
    }
    var collected := runner.CollectResults(blocks[b].hash, blocks[b].vtx[t].txid);
    incoming := collected.results;
  }

  /** One pool's share of the loop body, given the transaction's decryption results. */
  method ExtendPool(
      keys: PoolKeys, pool: Pool, block: CompactBlock, t: nat, incoming: map<OutputId, DecryptedOutput>,
      data: PoolData, treeSize: nat, ghost sound: bool, ghost slots: seq<Slot>, ghost spends: seq<Spend>,
      ghost start: nat)
    returns (r: PoolData, txids: set<nat>)
    requires t < |block.vtx| && treeSize == start + |slots|
    requires sound ==>
               && incoming == DirectDecryption(keys, block.vtx[t].txid, block.vtx[t].Outputs(pool))
               && data == PoolScan(keys, slots, spends, start)
    ensures sound ==>
              && r == PoolScan(keys, slots + TxSlots(pool, block, t), spends + TxSpends(pool, block, t), start)
              && Relevant(keys, slots + TxSlots(pool, block, t)) == Relevant(keys, slots) + txids
  {
    hide Relevant, Leaves, Notes, NullifierMap, TxNotes, CalculateLeavesAndRetentions, TxSlots, TxSpends,
        DirectDecryption;
    if sound {
      ExtendByTx(keys, pool, block, t, slots, spends, start);
    }
    txids := set id | id in incoming :: id.txid;
    var nullifiers := CollectNullifiers(pool, block, t, data.nullifiers);
    var leaves := data.leaves
      + CalculateLeavesAndRetentions(block.vtx[t].Outputs(pool), block.height, t == |block.vtx| - 1, incoming);
    var notes := CalculateNullifiersAndPositions(keys, treeSize, incoming, data.notes);
    r := PoolData(data.initialPosition, leaves, notes, nullifiers);
  }

  /** The loop's accumulators: both pools' data and tree sizes, and the relevant transactions. */
  datatype Progress = Progress(
    sapling: PoolData, orchard: PoolData, saplingSize: nat, orchardSize: nat, txids: set<nat>)

  /** The accumulators once these slots and spends were gone through. Sizes count outputs whether or not they were
      decrypted; `sound` says that the decryption results were the direct ones. */
  ghost predicate ScannedTo(
      p: Progress, sound: bool, keys: ScanningKeys, init: InitialScanData, saplingSlots: seq<Slot>,
      orchardSlots: seq<Slot>, saplingSpends: seq<Spend>, orchardSpends: seq<Spend>)
  {
    && p.saplingSize == init.saplingTreeSize + |saplingSlots|
    && p.orchardSize == init.orchardTreeSize + |orchardSlots|
    && (sound ==>
          && p.sapling == PoolScan(keys.sapling, saplingSlots, saplingSpends, init.saplingTreeSize)
          && p.orchard == PoolScan(keys.orchard, orchardSlots, orchardSpends, init.orchardTreeSize)
          && p.txids == Relevant(keys.sapling, saplingSlots) + Relevant(keys.orchard, orchardSlots))
  }

  /** The body of the transaction loop. */
  method ScanTransaction(
      sapling: BatchRunner, orchard: BatchRunner, keys: ScanningKeys, blocks: seq<CompactBlock>, b: nat, t: nat,
      p: Progress, ghost init: InitialScanData, ghost saplingSlots: seq<Slot>, ghost orchardSlots: seq<Slot>,
      ghost saplingSpends: seq<Spend>, ghost orchardSpends: seq<Spend>)
    returns (r: Progress)
    requires b < |blocks| && t < |blocks[b].vtx|
    requires RunnersAt(sapling, orchard, keys, blocks, b, t)
    requires ScannedTo(p, DistinctKeys(blocks), keys, init, saplingSlots, orchardSlots, saplingSpends, orchardSpends)
    modifies sapling, orchard
    ensures RunnersAt(sapling, orchard, keys, blocks, b, t + 1)
    ensures ScannedTo(
              r, DistinctKeys(blocks), keys, init,
              saplingSlots + TxSlots(Sapling, blocks[b], t), orchardSlots + TxSlots(Orchard, blocks[b], t),
              saplingSpends + TxSpends(Sapling, blocks[b], t), orchardSpends + TxSpends(Orchard, blocks[b], t))
  {
    hide Relevant, PoolScan, TxSpends, RemainingFrom, DirectDecryption, ValidLedger;
    var block := blocks[b];
    var tx := block.vtx[t];
    var incomingSapling := CollectTransaction(sapling, keys.sapling, Sapling, blocks, b, t);
    var incomingOrchard := CollectTransaction(orchard, keys.orchard, Orchard, blocks, b, t);
    var saplingData, saplingTxids := ExtendPool(
      keys.sapling, Sapling, block, t, incomingSapling, p.sapling, p.saplingSize,
      DistinctKeys(blocks), saplingSlots, saplingSpends, init.saplingTreeSize);
    var orchardData, orchardTxids := ExtendPool(
      keys.orchard, Orchard, block, t, incomingOrchard, p.orchard, p.orchardSize,
      DistinctKeys(blocks), orchardSlots, orchardSpends, init.orchardTreeSize);
    r := Progress(saplingData, orchardData, p.saplingSize + |tx.outputs|, p.orchardSize + |tx.actions|,
                  p.txids + saplingTxids + orchardTxids);
  }

  /** The transaction loop of block `b`. */
  method ScanBlock(
      sapling: BatchRunner, orchard: BatchRunner, keys: ScanningKeys, blocks: seq<CompactBlock>, b: nat,
      p: Progress, ghost init: InitialScanData)
    returns (r: Progress)
    requires b < |blocks|
    requires RunnersAt(sapling, orchard, keys, blocks, b, 0)
    requires ScannedTo(p, DistinctKeys(blocks), keys, init, Slots(Sapling, blocks, b), Slots(Orchard, blocks, b),
                       Spends(Sapling, blocks, b), Spends(Orchard, blocks, b))
    modifies sapling, orchard
    ensures RunnersAt(sapling, orchard, keys, blocks, b + 1, 0)
    ensures ScannedTo(r, DistinctKeys(blocks), keys, init, Slots(Sapling, blocks, b + 1), Slots(Orchard, blocks, b + 1),
                      Spends(Sapling, blocks, b + 1), Spends(Orchard, blocks, b + 1))
  {
    hide ScannedTo, Slots, Spends, TxSlots, TxSpends, ValidLedger;
    r := p;
    var block := blocks[b];
    ghost var s, o := Slots(Sapling, blocks, b), Slots(Orchard, blocks, b);
    ghost var c, d := Spends(Sapling, blocks, b), Spends(Orchard, blocks, b);
    assert s + [] == s && o + [] == o && c + [] == c && d + [] == d;
    for t := 0 to |block.vtx|
      invariant RunnersAt(sapling, orchard, keys, blocks, b, t)
      invariant ScannedTo(r, DistinctKeys(blocks), keys, init,
                          s + TxsSlots(Sapling, block, t), o + TxsSlots(Orchard, block, t),
                          c + TxsSpends(Sapling, block, t), d + TxsSpends(Orchard, block, t))
    {
      r := ScanTransaction(
        sapling, orchard, keys, blocks, b, t, r, init, s + TxsSlots(Sapling, block, t), o + TxsSlots(Orchard, block, t),
        c + TxsSpends(Sapling, block, t), d + TxsSpends(Orchard, block, t));
      Regroup(s, TxsSlots(Sapling, block, t), TxSlots(Sapling, block, t));
      Regroup(o, TxsSlots(Orchard, block, t), TxSlots(Orchard, block, t));
      Regroup(c, TxsSpends(Sapling, block, t), TxSpends(Sapling, block, t));
      Regroup(d, TxsSpends(Orchard, block, t), TxSpends(Orchard, block, t));
    }
    BlockDone(Sapling, blocks, b);
    BlockDone(Orchard, blocks, b);
  }

  lemma BlockDone(pool: Pool, blocks: seq<CompactBlock>, b: nat)
    requires b < |blocks|
    ensures Slots(pool, blocks, b + 1) == Slots(pool, blocks, b) + TxsSlots(pool, blocks[b], |blocks[b].vtx|)
    ensures Spends(pool, blocks, b + 1) == Spends(pool, blocks, b) + TxsSpends(pool, blocks[b], |blocks[b].vtx|)
  {
  }

  /** Scanning a batch of compact blocks: whatever order the batch runners finish in, the outcome is the one `Scan`
      gives, decryption included, if no transaction occurs twice. Whether it fails, and how, and the wallet blocks
      never depend on decryption. */
  method ScanCompactBlocks(blocks: seq<CompactBlock>, keys: ScanningKeys, init: InitialScanData)
    returns (r: Result<ScanData, ScanError>)
    ensures DistinctKeys(blocks) ==> r == Scan.Scan(blocks, keys, init)
    ensures r.Err? || Scan.Scan(blocks, keys, init).Err? ==> r == Scan.Scan(blocks, keys, init)
    ensures r.Ok? ==> r.value.walletBlocks == Scan.Scan(blocks, keys, init).value.walletBlocks
  {
    hide ScannedTo, Slots, Spends, Continuous, PoolScan, Relevant, ValidLedger, TreeSizeMatches, Offset, WalletBlockOf;
    var continuous := CheckContinuity(blocks, init.previousBlock);
    if !continuous {
      return Err(Discontinuity);
    }
    var sapling, orchard := TrialDecrypt(blocks, keys);
    var p := StartProgress(blocks, keys, init);
    var walletBlocks: map<nat, WalletBlock> := map[];
    for b := 0 to |blocks|
      invariant fresh(sapling) && fresh(orchard)
      invariant RunnersAt(sapling, orchard, keys, blocks, b, 0)
      invariant ScannedTo(p, DistinctKeys(blocks), keys, init, Slots(Sapling, blocks, b), Slots(Orchard, blocks, b),
                          Spends(Sapling, blocks, b), Spends(Orchard, blocks, b))
      invariant walletBlocks == WalletBlocks(blocks, b, init.saplingTreeSize, init.orchardTreeSize)
      invariant TreeSizesMatch(blocks, b, init.saplingTreeSize, init.orchardTreeSize)
    {
      p := ScanBlock(sapling, orchard, keys, blocks, b, p, init);
      var walletBlock := WalletBlockOf(blocks[b], p.saplingSize, p.orchardSize);
      SizesAre(p, keys, blocks, b + 1, init);
      assert walletBlock == WalletBlockAt(blocks, b, init.saplingTreeSize, init.orchardTreeSize);
      if !TreeSizeMatches(blocks[b], walletBlock) {
        assert !TreeSizeMatchesAt(blocks, b, init.saplingTreeSize, init.orchardTreeSize);
        return Err(IncorrectTreeSize);
      }
      walletBlocks := walletBlocks[walletBlock.height := walletBlock];
      assert walletBlock.height == blocks[b].height by { HeightOf(blocks[b], p.saplingSize, p.orchardSize); }
    }
    ScannedAll(p, keys, blocks, init);
    r := Ok(ScanData(p.sapling, p.orchard, walletBlocks, p.txids));
  }

  lemma HeightOf(block: CompactBlock, s: nat, o: nat)
    ensures WalletBlockOf(block, s, o).height == block.height
  {
  }

  method StartProgress(ghost blocks: seq<CompactBlock>, keys: ScanningKeys, init: InitialScanData) returns (p: Progress)
    ensures ScannedTo(p, DistinctKeys(blocks), keys, init, Slots(Sapling, blocks, 0), Slots(Orchard, blocks, 0),
                      Spends(Sapling, blocks, 0), Spends(Orchard, blocks, 0))
  {
    p := Progress(PoolData(init.saplingTreeSize, [], map[], map[]), PoolData(init.orchardTreeSize, [], map[], map[]),
                  init.saplingTreeSize, init.orchardTreeSize, {});
  }

  lemma SizesAre(p: Progress, keys: ScanningKeys, blocks: seq<CompactBlock>, b: nat, init: InitialScanData)
    requires b <= |blocks|
    requires ScannedTo(p, DistinctKeys(blocks), keys, init, Slots(Sapling, blocks, b), Slots(Orchard, blocks, b),
                       Spends(Sapling, blocks, b), Spends(Orchard, blocks, b))
    ensures p.saplingSize == init.saplingTreeSize + Offset(Sapling, blocks, b)
    ensures p.orchardSize == init.orchardTreeSize + Offset(Orchard, blocks, b)
  {
    hide Slots, Spends, PoolScan, Relevant, Offset;
    OffsetIsSlots(Sapling, blocks, b);
    OffsetIsSlots(Orchard, blocks, b);
  }

  lemma ScannedAll(p: Progress, keys: ScanningKeys, blocks: seq<CompactBlock>, init: InitialScanData)
    requires ScannedTo(p, DistinctKeys(blocks), keys, init, AllSlots(Sapling, blocks), AllSlots(Orchard, blocks),
                       Spends(Sapling, blocks, |blocks|), Spends(Orchard, blocks, |blocks|))
    ensures DistinctKeys(blocks) ==>
              Collected(blocks, keys, init.saplingTreeSize, init.orchardTreeSize) ==
              ScanData(p.sapling, p.orchard,
                     WalletBlocks(blocks, |blocks|, init.saplingTreeSize, init.orchardTreeSize), p.txids)
  {
    hide Slots, Spends, PoolScan, Relevant, WalletBlocks;
  }
}
