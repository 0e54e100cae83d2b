/** How a sync divides the chain: the tip is approached in batches, and a batch is fetched in chunks, both covering
    every height exactly once. */
module SyncBatches {
  import opened Wrappers
  import opened Sequences
  import opened CompactBlocks

  const BATCH_SIZE: nat := 100
  const STEP: nat := 10_000
  const MAX_REORG: nat := 100

  lemma HeightsJoin(hi: int, mid: int, lo: nat)
    requires lo <= mid + 1 && mid <= hi
    ensures Heights(hi, mid + 1) + Heights(mid, lo) == Heights(hi, lo)
  {
  }

  // ---- Batch targets

  function Min(a: int, b: int): int {
    if a <= b then a else b
  }

  /** Multiples of the batch size above `last`, then the tip; a single target when level with it. */
  predicate AreTargets(targets: seq<nat>, last: nat, tip: nat) {
    && |targets| == (if last == tip then 1 else (tip - last + BATCH_SIZE - 1) / BATCH_SIZE)
    && forall i :: 0 <= i < |targets| ==> targets[i] == Min(tip, last + BATCH_SIZE * (i + 1))
  }

  /** The heights at which the batches end. */
  method BatchTargets(last: nat, tip: nat) returns (targets: seq<nat>)
    requires last <= tip
    ensures AreTargets(targets, last, tip)
    ensures targets != [] && targets[|targets| - 1] == tip
  {
    targets := [];
    var prev := last;
    while targets == [] || prev != tip
      invariant forall i :: 0 <= i < |targets| ==> targets[i] == Min(tip, last + BATCH_SIZE * (i + 1))
      invariant prev == Min(tip, last + BATCH_SIZE * |targets|)
      invariant targets != [] ==>
                  && targets[|targets| - 1] == prev
                  && (|targets| == 1 || last + BATCH_SIZE * (|targets| - 1) < tip)
      decreases tip - prev, if targets == [] then 1 else 0
    {
      var batch := Min(tip, prev + BATCH_SIZE);
      prev := batch;
      targets := targets + [batch];
    }
  }

  /** Behind the tip, the targets climb strictly, by a batch size at most and by exactly one until the last. */
  lemma TargetsClimb(last: nat, tip: nat, targets: seq<nat>, i: nat)
    requires last < tip && AreTargets(targets, last, tip) && i < |targets|
    ensures var from := if i == 0 then last else targets[i - 1];
            && from < targets[i] <= from + BATCH_SIZE && targets[i] <= tip
            && (i < |targets| - 1 ==> targets[i] == from + BATCH_SIZE)
  {
  }

  lemma OneTarget(last: nat, tip: nat, targets: seq<nat>)
    requires last == tip && AreTargets(targets, last, tip)
    ensures targets == [tip]
  {
  }

  // ---- The batch loop

  type Positive = n: nat | n > 0 witness 1

  /** How one batch ends: its blocks replace the wallet's top, or it is interrupted before the first block, or it
      fails. */
  datatype Outcome = Synced | Interrupted | Failed

  datatype SyncResult = SyncResult(success: bool, latestBlock: nat, totalBlocksSynced: nat)

  /** A batch that synced, from `lo` up to `hi`. */
  datatype Batch = Batch(lo: nat, hi: nat)

  /** The synced batches follow each other from `last` up to `top` without gap or overlap. */
  predicate BatchesTile(batches: seq<Batch>, last: nat, top: nat) {
    if batches == [] then last == top
    else
      var b := batches[|batches| - 1];
      0 < b.lo <= b.hi && b.hi == top && BatchesTile(batches[..|batches| - 1], last, b.lo - 1)
  }

  class Wallet {
    /** Heights of the blocks kept for reorganisations, tallest first. */
    var blocks: seq<nat>
    const activation: Positive

    constructor (activation: Positive)
      ensures blocks == [] && this.activation == activation && Valid()
    {
      this.activation := activation;
      blocks := [];
    }

    predicate Valid()
      reads this
    {
      && |blocks| <= MAX_REORG
      && (blocks != [] ==> blocks[0] + 1 >= |blocks|)
      && blocks == (if blocks == [] then [] else Heights(blocks[0], blocks[0] + 1 - |blocks|))
    }

    function LastSyncedHeight(): nat
      reads this
    {
      if blocks == [] then activation - 1 else blocks[0]
    }

    /** One batch; a successful one leaves the wallet with the highest blocks of the batch and below. */
    method SyncNthBatch(startBlock: nat, outcome: Outcome) returns (r: Result<SyncResult, string>)
      requires Valid() && LastSyncedHeight() <= startBlock
      modifies this`blocks
      ensures Valid()
      ensures old(LastSyncedHeight()) == startBlock ==>
                blocks == old(blocks) && r == Ok(SyncResult(true, startBlock, 0))
      ensures old(LastSyncedHeight()) < startBlock ==>
                match outcome
                case Synced =>
                  && LastSyncedHeight() == startBlock
                  && |blocks| == Min(MAX_REORG, |old(blocks)| + startBlock - old(LastSyncedHeight()))
                  && r == Ok(SyncResult(true, startBlock, startBlock - old(LastSyncedHeight())))
                case Interrupted => blocks == old(blocks) && r == Ok(SyncResult(false, old(LastSyncedHeight()), 0))
                case Failed => blocks == old(blocks) && r.Err?
    {
      var lastSyncedHeight := LastSyncedHeight();
      if lastSyncedHeight == startBlock {
        return Ok(SyncResult(true, lastSyncedHeight, 0));
      }
      var endBlock := lastSyncedHeight + 1;
      match outcome
      case Interrupted => return Ok(SyncResult(false, lastSyncedHeight, 0));
      case Failed => return Err("batch failed");
      case Synced =>
        SetBlocks(startBlock, endBlock);
        return Ok(SyncResult(true, startBlock, startBlock - endBlock + 1));
    }

    method SetBlocks(startBlock: nat, endBlock: nat)
      requires Valid() && endBlock == LastSyncedHeight() + 1 <= startBlock
      modifies this`blocks
      ensures Valid() && blocks != [] && blocks[0] == startBlock
      ensures |blocks| == Min(MAX_REORG, |old(blocks)| + startBlock + 1 - endBlock)
    {
      var batch := Heights(startBlock, endBlock);
      if blocks != [] {
        HeightsJoin(startBlock, endBlock - 1, blocks[0] + 1 - |blocks|);
      }
      var all := batch + blocks;
      blocks := if |all| > MAX_REORG then all[..MAX_REORG] else all;
    }

    /** Drops the block at `height` and anything above it. */
    method InvalidateBlock(height: nat)
      requires Valid() && height == LastSyncedHeight()
      modifies this`blocks
      ensures Valid()
      ensures blocks == if old(blocks) == [] then [] else old(blocks)[1..]
      ensures LastSyncedHeight() == if |old(blocks)| <= 1 then activation - 1 else height - 1
    {
      if blocks != [] {
        blocks := blocks[1..];
      }
    }

    /** One pass of the batch loop: a failed batch costs the wallet its top block. */
    method RunBatch(startBlock: nat, outcome: Outcome) returns (r: Result<SyncResult, string>)
      requires Valid() && LastSyncedHeight() <= startBlock
      modifies this`blocks
      ensures Valid()
      ensures r.Ok? ==>
                && old(LastSyncedHeight()) <= LastSyncedHeight() <= startBlock
                && (outcome.Synced? ==> LastSyncedHeight() == startBlock)
                && |blocks| == Min(MAX_REORG, |old(blocks)| + LastSyncedHeight() - old(LastSyncedHeight()))
      ensures r.Err? ==>
                && outcome.Failed?
                && LastSyncedHeight() == if |old(blocks)| <= 1 then activation - 1 else old(LastSyncedHeight()) - 1
    {
      r := SyncNthBatch(startBlock, outcome);
      if r.Err? {
        InvalidateBlock(LastSyncedHeight());
      }
    }

    /** start_sync from its batch list on. `outcomes` and `interrupts` are what happens in and after each batch. The
        batches that synced tile the heights from the old top to the new one; if all did and no interrupt was asked
        for, the new top is the tip. A failure ends the sync and costs the wallet its top block; a wallet left without
        blocks is back below the activation, whatever height its only block had. */
    method StartSync(tip: nat, outcomes: nat -> Outcome, interrupts: nat -> bool)
      returns (r: Result<SyncResult, string>, ghost synced: seq<Batch>, ghost top: nat)
      requires Valid() && LastSyncedHeight() <= tip
      modifies this`blocks
      ensures Valid() && old(LastSyncedHeight()) <= top <= tip
      ensures BatchesTile(synced, old(LastSyncedHeight()), top)
      ensures r.Ok? ==> LastSyncedHeight() == top
      ensures r.Err? ==>
                LastSyncedHeight() ==
                if |old(blocks)| + top - old(LastSyncedHeight()) <= 1 then activation - 1 else top - 1
      ensures AllSynced(outcomes) && Uninterrupted(interrupts) ==> r.Ok? && top == tip
      ensures AllSynced(outcomes) ==> ShortBatches(synced)
    {
      ghost var last, had := LastSyncedHeight(), |blocks|;
      assert had <= MAX_REORG;
      hide Heights, Wallet.Valid, AreTargets, AllSynced, Advanced, ShortBatches, Reached, BatchesTile, Min;
      var targets := BatchTargets(LastSyncedHeight(), tip);
      synced, top := [], last;
      NotAdvanced(last, had);
      r := Err("No batches were run!");
      for n := 0 to |targets|
        invariant Valid() && LastSyncedHeight() == top && top <= tip && Advanced(synced, last, top, had, |blocks|)
        invariant top <= Reached(last, targets, n)
        invariant n > 0 ==> r.Ok?
        invariant AllSynced(outcomes) ==> top == Reached(last, targets, n) && ShortBatches(synced)
      {
        NextTarget(last, tip, targets, n);
        EachSynced(outcomes, n);
        ghost var before := |blocks|;
        r := RunBatch(targets[n], outcomes(n));
        if r.Err? {
          FailedAfter(synced, last, top, had, before);
          return;
        }
        synced := AdvancedBy(synced, last, top, LastSyncedHeight(), had, before, |blocks|);
        top := LastSyncedHeight();
        if interrupts(n) {
          break;
        }
      }
      LastTarget(last, targets);
      TilesOf(synced, last, top, had, |blocks|);
    }
  }

  /** Where the first `n` targets lead. */
  function Reached(last: nat, targets: seq<nat>, n: nat): nat
    requires n <= |targets|
  {
    if n == 0 then last else targets[n - 1]
  }

  lemma NextTarget(last: nat, tip: nat, targets: seq<nat>, n: nat)
    requires last <= tip && AreTargets(targets, last, tip) && n < |targets|
    ensures Reached(last, targets, n + 1) == targets[n]
    ensures Reached(last, targets, n) <= targets[n] <= tip && targets[n] <= Reached(last, targets, n) + BATCH_SIZE
    ensures n == 0 ==> Reached(last, targets, n) == last
  {
    hide AreTargets;
    if last < tip {
      TargetsClimb(last, tip, targets, n);
    } else {
      OneTarget(last, tip, targets);
    }
  }

  lemma LastTarget(last: nat, targets: seq<nat>)
    ensures targets != [] ==> Reached(last, targets, |targets|) == targets[|targets| - 1]
  {
  }

  /** `synced` leads from `last` to `top`, and the wallet that held `had` blocks holds `kept` of them and the new
      ones. */
  predicate Advanced(synced: seq<Batch>, last: nat, top: nat, had: nat, kept: nat) {
    last <= top && BatchesTile(synced, last, top) && had <= MAX_REORG && kept == Min(MAX_REORG, had + top - last)
  }

  lemma NotAdvanced(last: nat, had: nat)
    requires had <= MAX_REORG
    ensures Advanced([], last, last, had, had) && ShortBatches([])
  {
  }

  /** The batches once one from above `before` up to `top` is added, if there is anything between. */
  lemma AdvancedBy(synced: seq<Batch>, last: nat, before: nat, top: nat, had: nat, keptBefore: nat, kept: nat)
    returns (longer: seq<Batch>)
    requires Advanced(synced, last, before, had, keptBefore) && before <= top
    requires kept == Min(MAX_REORG, keptBefore + top - before)
    ensures Advanced(longer, last, top, had, kept)
    ensures ShortBatches(synced) && top <= before + BATCH_SIZE ==> ShortBatches(longer)
  {
    longer := synced;
    if before < top {
      longer := synced + [Batch(before + 1, top)];
      assert longer[..|synced|] == synced;
    }
  }

  lemma FailedAfter(synced: seq<Batch>, last: nat, top: nat, had: nat, kept: nat)
    requires Advanced(synced, last, top, had, kept)
    ensures kept <= 1 <==> had + top - last <= 1
    ensures last <= top && BatchesTile(synced, last, top)
  {
  }

  lemma TilesOf(synced: seq<Batch>, last: nat, top: nat, had: nat, kept: nat)
    requires Advanced(synced, last, top, had, kept)
    ensures last <= top && BatchesTile(synced, last, top)
  {
  }

  ghost predicate AllSynced(outcomes: nat -> Outcome) {
    forall n :: outcomes(n) == Synced
  }

  ghost predicate Uninterrupted(interrupts: nat -> bool) {
    forall n :: !interrupts(n)
  }

  lemma EachSynced(outcomes: nat -> Outcome, n: nat)
    ensures AllSynced(outcomes) ==> outcomes(n) == Synced
  {
  }

  predicate ShortBatches(batches: seq<Batch>) {
    forall i :: 0 <= i < |batches| ==> batches[i].hi < batches[i].lo + BATCH_SIZE
  }

  lemma EachShort(batches: seq<Batch>, i: nat)
    requires ShortBatches(batches) && i < |batches|
    ensures batches[i].hi < batches[i].lo + 100
  {
  }

  // ---- Fetching a batch

  datatype Chunk = Chunk(start: nat, end: nat)

  /** The heights the first `n` chunks ask for, each chunk from its start down to its end. */
  function HeightsTo(chunks: seq<Chunk>, n: nat): seq<nat>
    requires n <= |chunks|
  {
    if n == 0 then [] else HeightsTo(chunks, n - 1) + Heights(chunks[n - 1].start, chunks[n - 1].end)
  }

  function ChunkHeights(chunks: seq<Chunk>): seq<nat> {
    HeightsTo(chunks, |chunks|)
  }

  lemma {:induction false} HeightsToConcat(a: seq<Chunk>, b: seq<Chunk>, n: nat)
    requires n <= |a| + |b|
    ensures HeightsTo(a + b, n) == if n <= |a| then HeightsTo(a, n) else HeightsTo(a, |a|) + HeightsTo(b, n - |a|)
  {
    hide Heights, HeightsTo;
    HeightsToStep(a + b, n);
    if n <= |a| {
      HeightsToStep(a, n);
      if n > 0 {
        HeightsToConcat(a, b, n - 1);
      }
    } else {
      HeightsToConcat(a, b, n - 1);
      HeightsToStep(b, n - |a|);
      NoHeights(b);
      var c := b[n - |a| - 1];
      Regroup(HeightsTo(a, |a|), HeightsTo(b, n - |a| - 1), Heights(c.start, c.end));
    }
  }

  lemma HeightsToStep(chunks: seq<Chunk>, n: nat)
    requires n <= |chunks|
    ensures HeightsTo(chunks, n) ==
            if n == 0 then []
            else HeightsTo(chunks, n - 1) + Heights(chunks[n - 1].start, chunks[n - 1].end)
  {
  }

  lemma ChunkHeightsStep(chunks: seq<Chunk>, c: Chunk)
    ensures ChunkHeights(chunks + [c]) == ChunkHeights(chunks) + Heights(c.start, c.end)
  {
    HeightsToConcat(chunks, [c], |chunks|);
  }

  lemma ChunkHeightsConcat(a: seq<Chunk>, b: seq<Chunk>)
    ensures ChunkHeights(a + b) == ChunkHeights(a) + ChunkHeights(b)
  {
    hide HeightsTo;
    HeightsToConcat(a, b, |a| + |b|);
    if b == [] {
      NoHeights(b);
    }
  }

  lemma NoHeights(chunks: seq<Chunk>)
    ensures HeightsTo(chunks, 0) == []
  {
  }

  /** A chunk reaches down a full step, or to the end of the range. */
  predicate ChunkOf(c: Chunk, endBlock: nat) {
    endBlock <= c.end <= c.start < c.end + STEP && (c.end == endBlock || c.start == c.end + STEP - 1)
  }

  /** The chunks ask for every height once, tallest first, and "Wrong block order" is never reported. */
  method FetchBlocksRange(startBlock: nat, endBlock: nat) returns (r: Result<seq<Chunk>, string>)
    ensures r.Ok? && ChunkHeights(r.value) == Heights(startBlock, endBlock)
    ensures forall i :: 0 <= i < |r.value| ==>
              ChunkOf(r.value[i], endBlock) && r.value[i].start < r.value[i].end + 10_000
  {
    hide Heights;
    var chunks: seq<Chunk> := [];
    // (endBlock..startBlock + 1).rev().step_by(STEP)
    var b: int := startBlock;
    ghost var next: nat := startBlock + 1;
    EmptyAbove(startBlock, endBlock);
    while b >= endBlock
      invariant next <= startBlock + 1 && ChunkHeights(chunks) == Heights(startBlock, next)
      invariant next ==
                if b >= endBlock then b + 1 else if startBlock < endBlock then startBlock + 1 else endBlock
      invariant forall i :: 0 <= i < |chunks| ==> ChunkOf(chunks[i], endBlock)
    {
      var start := b;
      var end := if b - STEP + 1 >= endBlock then b - STEP + 1 else endBlock;
      if start < end {
        return Err("Wrong block order");
      }
      HeightsJoin(startBlock, start, end);
      ChunkHeightsStep(chunks, Chunk(start, end));
      chunks := chunks + [Chunk(start, end)];
      next := end;
      b := b - STEP;
    }
    return Ok(chunks);
  }

  lemma EmptyAbove(startBlock: nat, endBlock: nat)
    ensures Heights(startBlock, startBlock + 1) == []
    ensures startBlock < endBlock ==> Heights(startBlock, endBlock) == []
  {
  }

  /** The messages answered: those before the first that says the chains have joined. */
  function Answered(messages: seq<Option<nat>>, n: nat): seq<nat>
    requires n <= |messages|
  {
    if n == 0 then []
    else if messages[n - 1].None? || |Answered(messages, n - 1)| < n - 1 then Answered(messages, n - 1)
    else Answered(messages, n - 1) + [messages[n - 1].value]
  }

  /** The fetcher: the batch top down, then one block per reorg message until told to stop. */
  method Fetch(startBlock: nat, endBlock: nat, messages: seq<Option<nat>>) returns (r: Result<seq<Chunk>, string>)
    ensures r.Err? <==> startBlock < endBlock
    ensures r.Ok? ==> ChunkHeights(r.value) == Heights(startBlock, endBlock) + Answered(messages, |messages|)
  {
    if startBlock < endBlock {
      return Err("Expected blocks in reverse order");
    }
    hide ChunkHeights, Heights, Answered, ChunkOf;
    r := FetchBlocksRange(startBlock, endBlock);
    NoneAnswered(messages, Heights(startBlock, endBlock));
    for n := 0 to |messages|
      invariant r.Ok? && ChunkHeights(r.value) == Heights(startBlock, endBlock) + Answered(messages, n)
      invariant |Answered(messages, n)| == n
    {
      if messages[n].None? {
        AnsweredEnds(messages, n, |messages|);
        break;
      }
      var one := FetchBlocksRange(messages[n].value, messages[n].value);
      ChunkHeightsConcat(r.value, one.value);
      AnsweredStep(messages, n, Heights(startBlock, endBlock));
      r := Ok(r.value + one.value);
    }
  }

  /** The messages before the first None, all of them if there is none. */
  lemma {:induction false} AnsweredUntilNone(messages: seq<Option<nat>>, n: nat)
    requires n <= |messages|
    ensures var answered := Answered(messages, n);
            && |answered| <= n && (forall i :: 0 <= i < |answered| ==> messages[i] == Some(answered[i]))
            && (|answered| < n ==> messages[|answered|] == None)
  {
    if n > 0 {
      AnsweredUntilNone(messages, n - 1);
    }
  }

  lemma NoneAnswered(messages: seq<Option<nat>>, before: seq<nat>)
    ensures Answered(messages, 0) == [] && before + Answered(messages, 0) == before
  {
  }

  lemma AnsweredStep(messages: seq<Option<nat>>, n: nat, before: seq<nat>)
    requires n < |messages| && messages[n].Some? && |Answered(messages, n)| == n
    ensures |Answered(messages, n + 1)| == n + 1
    ensures before + Answered(messages, n) + Heights(messages[n].value, messages[n].value)
              == before + Answered(messages, n + 1)
  {
    assert Heights(messages[n].value, messages[n].value) == [messages[n].value];
  }

  lemma {:induction false} AnsweredEnds(messages: seq<Option<nat>>, n: nat, m: nat)
    requires n < m <= |messages| && messages[n].None? && |Answered(messages, n)| == n
    ensures Answered(messages, m) == Answered(messages, n)
  {
    if m > n + 1 {
      AnsweredEnds(messages, n, m - 1);
    }
  }
}
