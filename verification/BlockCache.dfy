/** Lookups in the block list of the current batch, which is kept tallest first and indexed by `top - height`. */
module BlockCache {
  import opened Wrappers
  import opened CompactBlocks

  /** One block per height, tallest first. */
  predicate Contiguous(blocks: seq<CompactBlock>) {
    forall i :: 0 <= i < |blocks| ==> blocks[i].height + i == blocks[0].height
  }

  /** The condition a caller waits for, with the height no taller than the top block. */
  predicate Holds(blocks: seq<CompactBlock>, height: nat) {
    blocks != [] && blocks[|blocks| - 1].height <= height <= blocks[0].height
  }

  predicate TxSpends(tx: CompactTx, pool: Pool, nf: nat) {
    nf in tx.Nullifiers(pool)
  }

  predicate BlockSpends(block: CompactBlock, pool: Pool, nf: nat) {
    exists t :: 0 <= t < |block.vtx| && TxSpends(block.vtx[t], pool, nf)
  }

  /** Some block at height `h` spends the nullifier. */
  predicate SpentAt(blocks: seq<CompactBlock>, pool: Pool, nf: nat, h: nat) {
    exists i :: 0 <= i < |blocks| && blocks[i].height == h && BlockSpends(blocks[i], pool, nf)
  }

  /** The least height at or above `afterHeight` at which the nullifier is spent, None iff there is none. */
  predicate LeastSpend(blocks: seq<CompactBlock>, pool: Pool, nf: nat, afterHeight: nat, r: Option<nat>) {
    match r
    case Some(h) =>
      && h >= afterHeight && SpentAt(blocks, pool, nf, h)
      && forall h' :: afterHeight <= h' < h ==> !SpentAt(blocks, pool, nf, h')
    case None =>
      forall i :: 0 <= i < |blocks| && blocks[i].height >= afterHeight ==> !BlockSpends(blocks[i], pool, nf)
  }

  method IsNfSpent(blocks: seq<CompactBlock>, pool: Pool, nf: nat, afterHeight: nat) returns (r: Option<nat>)
    requires Contiguous(blocks) && Holds(blocks, afterHeight)
    ensures LeastSpend(blocks, pool, nf, afterHeight, r)
    ensures forall i, t :: 0 <= i < |blocks| && 0 <= t < |blocks[i].vtx| && nf in blocks[i].vtx[t].Nullifiers(pool) ==>
              blocks[i].height >= afterHeight ==> (r.Some? && r.value <= blocks[i].height)
    ensures r.Some? ==>
              exists i, t ::
                && 0 <= i < |blocks| && blocks[i].height == r.value >= afterHeight
                && 0 <= t < |blocks[i].vtx| && nf in blocks[i].vtx[t].Nullifiers(pool)
  {
    var pos := blocks[0].height - afterHeight;
    // (0..pos + 1).rev()
    var i := pos + 1;
    while i > 0
      invariant 0 <= i <= pos + 1 <= |blocks|
      invariant forall k :: i <= k <= pos ==> !BlockSpends(blocks[k], pool, nf)
    {
      i := i - 1;
      var block := blocks[i];
      for t := 0 to |block.vtx|
        invariant forall u :: 0 <= u < t ==> !TxSpends(block.vtx[u], pool, nf)
      {
        var nullifiers := block.vtx[t].Nullifiers(pool);
        for n := 0 to |nullifiers|
          invariant nf !in nullifiers[..n]
        {
          if nullifiers[n] == nf {
            assert TxSpends(block.vtx[t], pool, nf);
            return Some(block.height);
          }
        }
        assert nullifiers[..|nullifiers|] == nullifiers;
      }
    }
    r := None;
  }

  /** The first transaction spending the nullifier in the block at `height`; None is the "Tx not found" panic. */
  method GetCompactTransactionForNullifierAtHeight(blocks: seq<CompactBlock>, pool: Pool, nf: nat, height: nat)
    returns (r: Option<(CompactTx, nat)>)
    requires Contiguous(blocks) && Holds(blocks, height)
    ensures r.Some? <==> SpentAt(blocks, pool, nf, height)
    ensures r.Some? ==>
              exists i, t ::
                && 0 <= i < |blocks| && blocks[i].height == height && 0 <= t < |blocks[i].vtx|
                && r.value == (blocks[i].vtx[t], blocks[i].time) && nf in blocks[i].vtx[t].Nullifiers(pool)
                && forall u :: 0 <= u < t ==> nf !in blocks[i].vtx[u].Nullifiers(pool)
    ensures r.None? ==>
              forall i, t :: 0 <= i < |blocks| && 0 <= t < |blocks[i].vtx| && blocks[i].height == height ==>
                nf !in blocks[i].vtx[t].Nullifiers(pool)
  {
    var pos := blocks[0].height - height;
    var block := blocks[pos];
    for t := 0 to |block.vtx|
      invariant forall u :: 0 <= u < t ==> !TxSpends(block.vtx[u], pool, nf)
    {
      var nullifiers := block.vtx[t].Nullifiers(pool);
      for n := 0 to |nullifiers|
        invariant nf !in nullifiers[..n]
      {
        if nullifiers[n] == nf {
          assert BlockSpends(block, pool, nf);
          return Some((block.vtx[t], block.time));
        }
      }
      assert nullifiers[..|nullifiers|] == nullifiers;
    }
    r := None;
  }

  /** Lower blocks arriving later change no answer about heights already held. */
  lemma AppendingKeepsAnswers(
      blocks: seq<CompactBlock>, more: seq<CompactBlock>, pool: Pool, nf: nat, afterHeight: nat, r: Option<nat>)
    requires Contiguous(blocks + more) && Holds(blocks, afterHeight)
    ensures Contiguous(blocks) && Holds(blocks + more, afterHeight)
    ensures LeastSpend(blocks, pool, nf, afterHeight, r) <==> LeastSpend(blocks + more, pool, nf, afterHeight, r)
  {
    var all := blocks + more;
    assert all[0] == blocks[0];
    forall i | 0 <= i < |blocks| ensures blocks[i] == all[i] && blocks[i].height + i == blocks[0].height {
    }
    assert forall i :: |blocks| <= i < |all| ==> all[i].height + i == all[0].height;
    forall h | h >= afterHeight ensures SpentAt(blocks, pool, nf, h) <==> SpentAt(all, pool, nf, h) {
      if SpentAt(blocks, pool, nf, h) {
        var i :| 0 <= i < |blocks| && blocks[i].height == h && BlockSpends(blocks[i], pool, nf);
        assert all[i] == blocks[i];
      }
    }
    if r.None? && LeastSpend(all, pool, nf, afterHeight, r) {
      forall i | 0 <= i < |blocks| && blocks[i].height >= afterHeight ensures !BlockSpends(blocks[i], pool, nf) {
        assert all[i] == blocks[i];
      }
    }
  }

  /** The note updater's sequence: find the spending height, then, possibly after more blocks arrived,
      fetch the transaction. The second lookup never panics. */
  method FindSpendingTransaction(
      blocks: seq<CompactBlock>, more: seq<CompactBlock>, pool: Pool, nf: nat, atHeight: nat)
    returns (r: Option<(CompactTx, nat, nat)>)
    requires Contiguous(blocks + more) && Holds(blocks, atHeight)
    ensures r.None? <==> forall h :: h >= atHeight ==> !SpentAt(blocks + more, pool, nf, h)
    ensures r.Some? ==>
              && TxSpends(r.value.0, pool, nf)
              && LeastSpend(blocks + more, pool, nf, atHeight, Some(r.value.2))
  {
    AppendingKeepsAnswers(blocks, more, pool, nf, atHeight, None);
    var spentHeight := IsNfSpent(blocks, pool, nf, atHeight);
    AppendingKeepsAnswers(blocks, more, pool, nf, atHeight, spentHeight);
    if spentHeight.None? {
      return None;
    }
    var h := spentHeight.value;
    assert SpentAt(blocks + more, pool, nf, h);
    var found := GetCompactTransactionForNullifierAtHeight(blocks + more, pool, nf, h);
    r := Some((found.value.0, found.value.1, h));
  }
}
