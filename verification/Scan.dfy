/** The compact block scanner: from a batch of blocks to wallet blocks, nullifiers, note positions and the leaves of
    both note commitment trees. */
module Scan {
  import opened Wrappers
  import opened Sequences
  import opened CompactBlocks
  import opened TrialDecryption
  import opened ChainSlots
  import opened BatchRunners

  datatype Retention = Ephemeral | Marked | Checkpoint(id: nat, marked: bool)

  datatype Leaf = Leaf(node: nat, retention: Retention)

  datatype WalletBlock = WalletBlock(
    height: nat, hash: nat, prevHash: nat, time: nat, txids: seq<nat>, saplingTreeSize: nat, orchardTreeSize: nat)
  {
    function TreeSize(pool: Pool): nat {
      if pool.Sapling? then saplingTreeSize else orchardTreeSize
    }
  }

  datatype ScanningKeys = ScanningKeys(sapling: PoolKeys, orchard: PoolKeys)

  datatype InitialScanData = InitialScanData(
    previousBlock: Option<WalletBlock>, saplingTreeSize: nat, orchardTreeSize: nat)
  {
    function TreeSize(pool: Pool): nat {
      if pool.Sapling? then saplingTreeSize else orchardTreeSize
    }
  }

  /** One pool's part of a scan: the tree position of the first leaf, the leaves, the decrypted notes' nullifiers and
      positions, and the height and transaction revealing each nullifier. */
  datatype PoolData = PoolData(
    initialPosition: nat, leaves: seq<Leaf>, notes: map<OutputId, (Nullifier, nat)>,
    nullifiers: map<nat, (nat, nat)>)

  datatype ScanData = ScanData(
    sapling: PoolData, orchard: PoolData, walletBlocks: map<nat, WalletBlock>, relevantTxids: set<nat>)

  datatype ScanError = Discontinuity | IncorrectTreeSize

  datatype InitError = TreeSizeUnderflow | PreSapling

  // ---- What a scan is meant to compute

  predicate IsMine(keys: PoolKeys, slot: Slot) {
    Decrypt(keys, slot.output).Some?
  }

  function RetentionOf(mine: bool, last: bool, height: nat): Retention {
    if last then Checkpoint(height, mine) else if mine then Marked else Ephemeral
  }

  function LeafOf(keys: PoolKeys, slot: Slot): Leaf {
    Leaf(slot.output.commitment, RetentionOf(IsMine(keys, slot), slot.last, slot.height))
  }

  function Leaves(keys: PoolKeys, slots: seq<Slot>): (r: seq<Leaf>)
    ensures |r| == |slots|
    ensures forall i {:trigger r[i]} :: 0 <= i < |r| ==> r[i] == LeafOf(keys, slots[i])
  {
    seq(|slots|, i requires 0 <= i < |slots| => LeafOf(keys, slots[i]))
  }

  function NoteAt(keys: PoolKeys, output: Output, position: nat): (Nullifier, nat)
    requires Decrypt(keys, output).Some?
  {
    var d := Decrypt(keys, output).value;
    (keys.nullifier(d.ivkTag, d.note, position), position)
  }

  /** The decrypted notes of the first `n` slots, slot 0 being at tree position `start`; a repeated id keeps the
      last. */
  function Notes(keys: PoolKeys, slots: seq<Slot>, n: nat, start: nat): map<OutputId, (Nullifier, nat)>
    requires n <= |slots|
  {
    if n == 0 then map[]
    else
      var slot, before := slots[n - 1], Notes(keys, slots, n - 1, start);
      if IsMine(keys, slot) then before[OutputId(slot.txid, slot.index) := NoteAt(keys, slot.output, start + n - 1)]
      else before
  }

  datatype Spend = Spend(nullifier: nat, height: nat, txid: nat)

  function TxSpends(pool: Pool, block: CompactBlock, t: nat): seq<Spend>
    requires t < |block.vtx|
  {
    var nullifiers := block.vtx[t].Nullifiers(pool);
    seq(|nullifiers|, i requires 0 <= i < |nullifiers| => Spend(nullifiers[i], block.height, block.vtx[t].txid))
  }

  /** The nullifiers revealed by a block's first `n` transactions. */
  function TxsSpends(pool: Pool, block: CompactBlock, n: nat): seq<Spend>
    requires n <= |block.vtx|
  {
    if n == 0 then [] else TxsSpends(pool, block, n - 1) + TxSpends(pool, block, n - 1)
  }

  function Spends(pool: Pool, blocks: seq<CompactBlock>, n: nat): seq<Spend>
    requires n <= |blocks|
  {
    if n == 0 then [] else Spends(pool, blocks, n - 1) + TxsSpends(pool, blocks[n - 1], |blocks[n - 1].vtx|)
  }

  /** Where the first `n` nullifiers are revealed; a repeated nullifier keeps the last place. */
  function NullifierMap(spends: seq<Spend>, n: nat): map<nat, (nat, nat)>
    requires n <= |spends|
  {
    if n == 0 then map[]
    else NullifierMap(spends, n - 1)[spends[n - 1].nullifier := (spends[n - 1].height, spends[n - 1].txid)]
  }

  function PoolScan(keys: PoolKeys, slots: seq<Slot>, spends: seq<Spend>, start: nat): PoolData {
    PoolData(start, Leaves(keys, slots), Notes(keys, slots, |slots|, start), NullifierMap(spends, |spends|))
  }

  function Relevant(keys: PoolKeys, slots: seq<Slot>): set<nat> {
    set i | 0 <= i < |slots| && IsMine(keys, slots[i]) :: slots[i].txid
  }

  function Txids(block: CompactBlock): seq<nat> {
    seq(|block.vtx|, t requires 0 <= t < |block.vtx| => block.vtx[t].txid)
  }

  function WalletBlockOf(block: CompactBlock, saplingTreeSize: nat, orchardTreeSize: nat): WalletBlock {
    WalletBlock(block.height, block.hash, block.prevHash, block.time, Txids(block), saplingTreeSize, orchardTreeSize)
  }

  /** The wallet block of block `b`, sized by all outputs up to it. */
  function WalletBlockAt(blocks: seq<CompactBlock>, b: nat, saplingStart: nat, orchardStart: nat): WalletBlock
    requires b < |blocks|
  {
    WalletBlockOf(
      blocks[b], saplingStart + Offset(Sapling, blocks, b + 1), orchardStart + Offset(Orchard, blocks, b + 1))
  }

  /** The wallet blocks of the first `n` blocks, by height. */
  function WalletBlocks(blocks: seq<CompactBlock>, n: nat, saplingStart: nat, orchardStart: nat): map<nat, WalletBlock>
    requires n <= |blocks|
  {
    if n == 0 then map[]
    else
      WalletBlocks(blocks, n - 1, saplingStart, orchardStart)
        [blocks[n - 1].height := WalletBlockAt(blocks, n - 1, saplingStart, orchardStart)]
  }

  /** Heights rise by one and every block names the hash of the one before, `previous` included if there is one. */
  predicate Continuous(blocks: seq<CompactBlock>, previous: Option<WalletBlock>) {
    && (forall i :: 0 < i < |blocks| ==>
          blocks[i].height == blocks[i - 1].height + 1 && blocks[i].prevHash == blocks[i - 1].hash)
    && (previous.Some? && blocks != [] ==>
          blocks[0].height == previous.value.height + 1 && blocks[0].prevHash == previous.value.hash)
  }

  /** A block's declared tree sizes, if any, match its wallet block. */
  predicate TreeSizeMatches(block: CompactBlock, walletBlock: WalletBlock) {
    block.chainMetadata.Some? ==>
      && block.chainMetadata.value.saplingTreeSize == walletBlock.saplingTreeSize
      && block.chainMetadata.value.orchardTreeSize == walletBlock.orchardTreeSize
  }

  predicate TreeSizeMatchesAt(blocks: seq<CompactBlock>, b: nat, saplingStart: nat, orchardStart: nat)
    requires b < |blocks|
  {
    TreeSizeMatches(blocks[b], WalletBlockAt(blocks, b, saplingStart, orchardStart))
  }

  predicate TreeSizesMatch(blocks: seq<CompactBlock>, n: nat, saplingStart: nat, orchardStart: nat)
    requires n <= |blocks|
  {
    forall b :: 0 <= b < n ==> TreeSizeMatchesAt(blocks, b, saplingStart, orchardStart)
  }

  /** What is collected about the blocks when the two trees held `saplingStart` and `orchardStart` leaves before
      them. */
  function Collected(blocks: seq<CompactBlock>, keys: ScanningKeys, saplingStart: nat, orchardStart: nat): ScanData {
    ScanData(
      PoolScan(keys.sapling, AllSlots(Sapling, blocks), Spends(Sapling, blocks, |blocks|), saplingStart),
      PoolScan(keys.orchard, AllSlots(Orchard, blocks), Spends(Orchard, blocks, |blocks|), orchardStart),
      WalletBlocks(blocks, |blocks|, saplingStart, orchardStart),
      Relevant(keys.sapling, AllSlots(Sapling, blocks)) + Relevant(keys.orchard, AllSlots(Orchard, blocks)))
  }

  /** The outcome of scanning; the errors stand for the source's panics. */
  function Scan(blocks: seq<CompactBlock>, keys: ScanningKeys, init: InitialScanData): Result<ScanData, ScanError> {
    if !Continuous(blocks, init.previousBlock) then Err(Discontinuity)
    else if !TreeSizesMatch(blocks, |blocks|, init.saplingTreeSize, init.orchardTreeSize) then Err(IncorrectTreeSize)
    else Ok(Collected(blocks, keys, init.saplingTreeSize, init.orchardTreeSize))
  }

  /** Where a scan's tree sizes start from: the previous wallet block, else the first block's declared sizes less its
      own outputs, else the server's frontiers below the first block. */
  function InitialData(
      first: CompactBlock, previous: Option<WalletBlock>, saplingActivation: nat, frontierSizes: nat -> (nat, nat))
    : Result<InitialScanData, InitError>
  {
    match previous
    case Some(prev) => Ok(InitialScanData(previous, prev.saplingTreeSize, prev.orchardTreeSize))
    case None =>
      match first.chainMetadata
      case Some(metadata) =>
        var saplingOutputs := BlockCount(Sapling, first);
        var orchardOutputs := BlockCount(Orchard, first);
        if metadata.saplingTreeSize < saplingOutputs || metadata.orchardTreeSize < orchardOutputs then
          Err(TreeSizeUnderflow)
        else
          Ok(InitialScanData(
               None, metadata.saplingTreeSize - saplingOutputs, metadata.orchardTreeSize - orchardOutputs))
      case None =>
        if first.height > saplingActivation then
          var sizes := frontierSizes(first.height - 1);
          Ok(InitialScanData(None, sizes.0, sizes.1))
        else if first.height == saplingActivation then
          Ok(InitialScanData(None, 0, 0))
        else
          Err(PreSapling)
  }

  /** Which of the three decides, and what it gives: with a wallet block below the first, its sizes, pool by pool; else
      the first block's declared sizes less its own outputs, which must not exceed them; else the frontiers of the block
      below, nothing at the Sapling activation, and no start before it. */
  lemma InitialDataCases(
      first: CompactBlock, previous: Option<WalletBlock>, saplingActivation: nat, frontierSizes: nat -> (nat, nat))
    ensures var r := InitialData(first, previous, saplingActivation, frontierSizes);
            && (r.Ok? ==> r.value.previousBlock == previous)
            && (previous.Some? ==>
                  r.Ok? && forall pool: Pool :: r.value.TreeSize(pool) == previous.value.TreeSize(pool))
            && (previous.None? && first.chainMetadata.Some? ==>
                  && (r.Ok? <==>
                        forall pool: Pool ::
                          first.chainMetadata.value.TreeSize(pool) >= |BlockSlots(pool, first)|)
                  && (r.Ok? ==>
                        forall pool: Pool ::
                          r.value.TreeSize(pool) + |BlockSlots(pool, first)|
                            == first.chainMetadata.value.TreeSize(pool)))
            && (previous.None? && first.chainMetadata.None? ==>
                  && (r.Err? <==> first.height < saplingActivation)
                  && (first.height == saplingActivation ==>
                        forall pool: Pool :: r.value.TreeSize(pool) == 0)
                  && (first.height > saplingActivation ==>
                        r.value.saplingTreeSize == frontierSizes(first.height - 1).0
                        && r.value.orchardTreeSize == frontierSizes(first.height - 1).1))
  {
    hide TxsSlots, TxsCount;
    TxsCountIsSlots(Sapling, first, |first.vtx|);
    TxsCountIsSlots(Orchard, first, |first.vtx|);
    if previous.None? && first.chainMetadata.Some? {
      var metadata := first.chainMetadata.value;
      assert metadata.TreeSize(Sapling) == metadata.saplingTreeSize;
      assert metadata.TreeSize(Orchard) == metadata.orchardTreeSize;
    }
  }

  // ---- Scanning in parts

  function MergePool(a: PoolData, b: PoolData): PoolData {
    PoolData(a.initialPosition, a.leaves + b.leaves, a.notes + b.notes, a.nullifiers + b.nullifiers)
  }

  function Merge(a: ScanData, b: ScanData): ScanData {
    ScanData(MergePool(a.sapling, b.sapling), MergePool(a.orchard, b.orchard),
             a.walletBlocks + b.walletBlocks, a.relevantTxids + b.relevantTxids)
  }

  lemma {:induction false} NotesConcat(keys: PoolKeys, a: seq<Slot>, b: seq<Slot>, n: nat, start: nat)
    requires n <= |a| + |b|
    ensures Notes(keys, a + b, n, start) ==
            if n <= |a| then Notes(keys, a, n, start)
            else Notes(keys, a, |a|, start) + Notes(keys, b, n - |a|, start + |a|)
  {
    if n > 0 {
      NotesConcat(keys, a, b, n - 1, start);
    }
  }

  lemma {:induction false} NullifiersConcat(a: seq<Spend>, b: seq<Spend>, n: nat)
    requires n <= |a| + |b|
    ensures NullifierMap(a + b, n) ==
            if n <= |a| then NullifierMap(a, n) else NullifierMap(a, |a|) + NullifierMap(b, n - |a|)
  {
    if n > 0 {
      NullifiersConcat(a, b, n - 1);
    }
  }

  lemma {:induction false} SpendsConcat(pool: Pool, a: seq<CompactBlock>, b: seq<CompactBlock>, n: nat)
    requires n <= |a| + |b|
    ensures Spends(pool, a + b, n) ==
            if n <= |a| then Spends(pool, a, n) else Spends(pool, a, |a|) + Spends(pool, b, n - |a|)
  {
    hide TxsSpends;
    if n > 0 {
      SpendsConcat(pool, a, b, n - 1);
    }
  }

  lemma RelevantConcat(keys: PoolKeys, a: seq<Slot>, b: seq<Slot>)
    ensures Relevant(keys, a + b) == Relevant(keys, a) + Relevant(keys, b)
  {
    forall txid | txid in Relevant(keys, a) + Relevant(keys, b) ensures txid in Relevant(keys, a + b) {
      if txid in Relevant(keys, a) {
        var i :| 0 <= i < |a| && IsMine(keys, a[i]) && a[i].txid == txid;
        assert (a + b)[i] == a[i];
      } else {
        var i :| 0 <= i < |b| && IsMine(keys, b[i]) && b[i].txid == txid;
        assert (a + b)[|a| + i] == b[i];
      }
    }
  }

  lemma PoolScanAppend(keys: PoolKeys, a: seq<Slot>, b: seq<Slot>, c: seq<Spend>, d: seq<Spend>, start: nat)
    ensures PoolScan(keys, a + b, c + d, start)
         == MergePool(PoolScan(keys, a, c, start), PoolScan(keys, b, d, start + |a|))
  {
    NotesConcat(keys, a, b, |a| + |b|, start);
    NullifiersConcat(c, d, |c| + |d|);
    assert Leaves(keys, a + b) == Leaves(keys, a) + Leaves(keys, b);
    if b == [] {
      assert a + b == a;
    }
    if d == [] {
      assert c + d == c;
    }
  }

  lemma WalletBlockConcat(a: seq<CompactBlock>, b: seq<CompactBlock>, i: nat, s: nat, o: nat)
    requires i < |a| + |b|
    ensures WalletBlockAt(a + b, i, s, o) ==
            if i < |a| then WalletBlockAt(a, i, s, o)
            else WalletBlockAt(b, i - |a|, s + Total(Sapling, a), o + Total(Orchard, a))
  {
    OffsetConcat(Sapling, a, b, i + 1);
    OffsetConcat(Orchard, a, b, i + 1);
  }

  lemma {:induction false} WalletBlocksConcat(a: seq<CompactBlock>, b: seq<CompactBlock>, n: nat, s: nat, o: nat)
    requires n <= |a| + |b|
    ensures WalletBlocks(a + b, n, s, o) ==
            if n <= |a| then WalletBlocks(a, n, s, o)
            else WalletBlocks(a, |a|, s, o)
                 + WalletBlocks(b, n - |a|, s + Total(Sapling, a), o + Total(Orchard, a))
  {
    hide Offset, WalletBlockAt;
    if n > 0 {
      WalletBlocksConcat(a, b, n - 1, s, o);
      WalletBlockConcat(a, b, n - 1, s, o);
    }
  }

  lemma AllSpendsConcat(pool: Pool, a: seq<CompactBlock>, b: seq<CompactBlock>)
    ensures Spends(pool, a + b, |a + b|) == Spends(pool, a, |a|) + Spends(pool, b, |b|)
  {
    hide TxsSpends;
    SpendsConcat(pool, a, b, |a| + |b|);
  }

  lemma AllWalletBlocksConcat(a: seq<CompactBlock>, b: seq<CompactBlock>, s: nat, o: nat)
    ensures WalletBlocks(a + b, |a + b|, s, o)
         == WalletBlocks(a, |a|, s, o) + WalletBlocks(b, |b|, s + Total(Sapling, a), o + Total(Orchard, a))
  {
    hide Offset, WalletBlockAt;
    WalletBlocksConcat(a, b, |a| + |b|, s, o);
  }

  lemma CollectedConcat(a: seq<CompactBlock>, b: seq<CompactBlock>, keys: ScanningKeys, s: nat, o: nat)
    ensures Collected(a + b, keys, s, o)
         == Merge(Collected(a, keys, s, o), Collected(b, keys, s + Total(Sapling, a), o + Total(Orchard, a)))
  {
    hide AllSlots, Spends, WalletBlocks, Offset, PoolScan, Relevant;
    AllWalletBlocksConcat(a, b, s, o);
    AllSlotsConcat(Sapling, a, b);
    AllSlotsConcat(Orchard, a, b);
    AllSpendsConcat(Sapling, a, b);
    AllSpendsConcat(Orchard, a, b);
    PoolScanAppend(
      keys.sapling, AllSlots(Sapling, a), AllSlots(Sapling, b), Spends(Sapling, a, |a|), Spends(Sapling, b, |b|), s);
    PoolScanAppend(
      keys.orchard, AllSlots(Orchard, a), AllSlots(Orchard, b), Spends(Orchard, a, |a|), Spends(Orchard, b, |b|), o);
    RelevantConcat(keys.sapling, AllSlots(Sapling, a), AllSlots(Sapling, b));
    RelevantConcat(keys.orchard, AllSlots(Orchard, a), AllSlots(Orchard, b));
  }

  lemma TreeSizesConcat(a: seq<CompactBlock>, b: seq<CompactBlock>, s: nat, o: nat, s': nat, o': nat)
    requires s' == s + Total(Sapling, a) && o' == o + Total(Orchard, a)
    ensures TreeSizesMatch(a + b, |a| + |b|, s, o) <==> TreeSizesMatch(a, |a|, s, o) && TreeSizesMatch(b, |b|, s', o')
  {
    hide Offset, TreeSizeMatches, WalletBlockAt;
    forall i | 0 <= i < |a| + |b|
      ensures TreeSizeMatchesAt(a + b, i, s, o) <==>
              if i < |a| then TreeSizeMatchesAt(a, i, s, o) else TreeSizeMatchesAt(b, i - |a|, s', o')
    {
      WalletBlockConcat(a, b, i, s, o);
    }
    if TreeSizesMatch(a + b, |a| + |b|, s, o) {
      forall i | 0 <= i < |b| ensures TreeSizeMatchesAt(b, i, s', o') {
        assert TreeSizeMatchesAt(a + b, |a| + i, s, o);
      }
    }
  }

  lemma ContinuousConcat(a: seq<CompactBlock>, b: seq<CompactBlock>, previous: Option<WalletBlock>, last: WalletBlock)
    requires a != [] && last.height == a[|a| - 1].height && last.hash == a[|a| - 1].hash
    ensures Continuous(a + b, previous) <==> Continuous(a, previous) && Continuous(b, Some(last))
  {
    var all := a + b;
    if Continuous(all, previous) {
      forall i: nat | 0 < i < |b|
        ensures b[i].height == b[i - 1].height + 1 && b[i].prevHash == b[i - 1].hash
      {
        assert all[|a| + i] == b[i] && all[|a| + i - 1] == b[i - 1];
      }
      if b != [] {
        assert all[|a|] == b[0] && all[|a| - 1] == a[|a| - 1];
      }
      forall i: nat | 0 < i < |a|
        ensures a[i].height == a[i - 1].height + 1 && a[i].prevHash == a[i - 1].hash
      {
        assert all[i] == a[i] && all[i - 1] == a[i - 1];
      }
      assert all[0] == a[0];
    }
  }

  /** What the wallet passes on to the next range: the scan of `blocks` ended in this wallet block. */
  function Resume(blocks: seq<CompactBlock>, init: InitialScanData): InitialScanData
    requires blocks != []
  {
    var last := WalletBlockAt(blocks, |blocks| - 1, init.saplingTreeSize, init.orchardTreeSize);
    InitialScanData(Some(last), last.saplingTreeSize, last.orchardTreeSize)
  }

  /** Scanning `a + b` succeeds iff scanning `a` and then, from `a`'s last wallet block, `b` does; and then the two
      results merge into the one: same wallet blocks, nullifiers and positions, leaves one after the other. */
  lemma ScanInParts(a: seq<CompactBlock>, b: seq<CompactBlock>, keys: ScanningKeys, init: InitialScanData)
    requires a != []
    ensures Scan(a + b, keys, init).Ok? <==> Scan(a, keys, init).Ok? && Scan(b, keys, Resume(a, init)).Ok?
    ensures Scan(a + b, keys, init).Ok? ==>
              Scan(a + b, keys, init).value == Merge(Scan(a, keys, init).value, Scan(b, keys, Resume(a, init)).value)
  {
    hide Continuous, TreeSizesMatch, Collected, Merge, Offset;
    ContinuousConcat(a, b, init.previousBlock, Resume(a, init).previousBlock.value);
    TreeSizesConcat(a, b, init.saplingTreeSize, init.orchardTreeSize,
                    Resume(a, init).saplingTreeSize, Resume(a, init).orchardTreeSize);
    CollectedConcat(a, b, keys, init.saplingTreeSize, init.orchardTreeSize);
  }

  /** The wallet block the second part resumes from is the one the first part stored at its top height. */
  lemma ResumeIsStored(blocks: seq<CompactBlock>, keys: ScanningKeys, init: InitialScanData)
    requires blocks != [] && Scan(blocks, keys, init).Ok?
    ensures var stored, top := Scan(blocks, keys, init).value.walletBlocks, blocks[|blocks| - 1].height;
            top in stored && Resume(blocks, init).previousBlock == Some(stored[top])
  {
  }

  /** When the joint scan passes its tree size checks, the range above can also start from its own first block's
      declared sizes, without the wallet block below it: the initial sizes and the result are the same. */
  lemma MetadataStartAgrees(
      a: seq<CompactBlock>, b: seq<CompactBlock>, keys: ScanningKeys, init: InitialScanData,
      saplingActivation: nat, frontierSizes: nat -> (nat, nat))
    requires a != [] && b != [] && b[0].chainMetadata.Some?
    requires Scan(a + b, keys, init).Ok?
    ensures var start := InitialData(b[0], None, saplingActivation, frontierSizes);
            && start == Ok(Resume(a, init).(previousBlock := None))
            && Scan(b, keys, start.value) == Scan(b, keys, Resume(a, init))
  {
    hide TreeSizesMatch, Collected, Merge, Offset, TxsCount;
    ScanInParts(a, b, keys, init);
    FirstBlockSizes(b, Resume(a, init).saplingTreeSize, Resume(a, init).orchardTreeSize);
  }

  lemma FirstBlockSizes(b: seq<CompactBlock>, s: nat, o: nat)
    requires b != [] && b[0].chainMetadata.Some? && TreeSizesMatch(b, |b|, s, o)
    ensures b[0].chainMetadata.value == ChainMetadata(s + BlockCount(Sapling, b[0]), o + BlockCount(Orchard, b[0]))
  {
    assert TreeSizeMatchesAt(b, 0, s, o);
    assert Offset(Sapling, b, 1) == BlockCount(Sapling, b[0]);
    assert Offset(Orchard, b, 1) == BlockCount(Orchard, b[0]);
  }

  // ---- Positions, marks and checkpoints

  function Ids(slots: seq<Slot>): (r: seq<OutputId>)
    ensures |r| == |slots|
    ensures forall i {:trigger r[i]} :: 0 <= i < |r| ==> r[i] == OutputId(slots[i].txid, slots[i].index)
  {
    seq(|slots|, i requires 0 <= i < |slots| => OutputId(slots[i].txid, slots[i].index))
  }

  predicate IsMarked(leaf: Leaf) {
    leaf.retention == Marked || (leaf.retention.Checkpoint? && leaf.retention.marked)
  }

  lemma {:induction false} NotesFrom(keys: PoolKeys, slots: seq<Slot>, n: nat, start: nat, id: OutputId)
    returns (j: nat)
    requires n <= |slots| && id in Notes(keys, slots, n, start)
    ensures j < n && id == OutputId(slots[j].txid, slots[j].index) && IsMine(keys, slots[j])
    ensures Notes(keys, slots, n, start)[id] == NoteAt(keys, slots[j].output, start + j)
  {
    if IsMine(keys, slots[n - 1]) && id == OutputId(slots[n - 1].txid, slots[n - 1].index) {
      j := n - 1;
    } else {
      j := NotesFrom(keys, slots, n - 1, start, id);
    }
  }

  lemma {:induction false} NotesHave(keys: PoolKeys, slots: seq<Slot>, n: nat, start: nat, j: nat)
    requires j < n <= |slots| && IsMine(keys, slots[j])
    ensures OutputId(slots[j].txid, slots[j].index) in Notes(keys, slots, n, start)
  {
    if j < n - 1 {
      NotesHave(keys, slots, n - 1, start, j);
    }
  }

  /** Leaf by leaf: the output's commitment, marked iff one of the keys decrypts the output. */
  lemma LeavesShowOutputs(keys: PoolKeys, slots: seq<Slot>, j: nat)
    requires j < |slots|
    ensures Leaves(keys, slots)[j].node == slots[j].output.commitment
    ensures IsMarked(Leaves(keys, slots)[j]) <==>
              exists tag :: tag in keys.tags && keys.decrypts(tag, slots[j].output).Some?
  {
    AllKeysAreTried(keys, slots[j].output);
  }

  /** Every recorded position, less the initial position, indexes the leaf list at exactly that note's leaf, which is
      marked; and the nullifier is the one the first key to decrypt the note gives it at that position. */
  lemma PositionsIndexLeaves(keys: PoolKeys, slots: seq<Slot>, start: nat, id: OutputId)
    requires id in Notes(keys, slots, |slots|, start)
    ensures var j := Notes(keys, slots, |slots|, start)[id].1 - start;
            && 0 <= j < |slots|
            && id == OutputId(slots[j].txid, slots[j].index)
            && Leaves(keys, slots)[j].node == slots[j].output.commitment
            && IsMarked(Leaves(keys, slots)[j])
            && exists k: nat, d ::
                 && FirstToDecrypt(keys.tags, keys.decrypts, slots[j].output, k, d)
                 && Notes(keys, slots, |slots|, start)[id].0 == keys.nullifier(d.ivkTag, d.note, start + j)
  {
    var j := NotesFrom(keys, slots, |slots|, start, id);
    AllKeysAreTried(keys, slots[j].output);
  }

  /** Conversely, when output ids are distinct every marked leaf has its own recorded note at its own position. */
  lemma MarkedLeavesAreNotes(keys: PoolKeys, slots: seq<Slot>, start: nat, j: nat)
    requires Distinct(Ids(slots)) && j < |slots| && IsMarked(Leaves(keys, slots)[j])
    ensures var id := OutputId(slots[j].txid, slots[j].index);
            id in Notes(keys, slots, |slots|, start) && Notes(keys, slots, |slots|, start)[id].1 == start + j
  {
    var id := OutputId(slots[j].txid, slots[j].index);
    NotesHave(keys, slots, |slots|, start, j);
    var k := NotesFrom(keys, slots, |slots|, start, id);
    assert Ids(slots)[k] == Ids(slots)[j];
  }

  /** In each pool a block gets at most one checkpoint, named by its height and on the block's last leaf, and it gets
      one iff its last transaction has outputs in that pool (a block whose outputs all sit in earlier transactions
      gets none). */
  lemma BlockCheckpoint(pool: Pool, keys: PoolKeys, blocks: seq<CompactBlock>, b: nat, j: nat)
    requires b < |blocks|
    ensures var from, to := Offset(pool, blocks, b), Offset(pool, blocks, b + 1);
            && from <= to <= Total(pool, blocks) == |AllSlots(pool, blocks)|
            && (LastTxHasOutputs(pool, blocks[b]) ==> from < to)
            && (from <= j < to ==>
                  var retention := Leaves(keys, AllSlots(pool, blocks))[j].retention;
                  && (retention.Checkpoint? <==> LastTxHasOutputs(pool, blocks[b]) && j == to - 1)
                  && (retention.Checkpoint? ==> retention.id == blocks[b].height))
  {
    hide Offset, Slots;
    var from, to := Offset(pool, blocks, b), Offset(pool, blocks, b + 1);
    BlockSegment(pool, blocks, b);
    if from <= j < to {
      TxsSlotsShape(pool, blocks[b], |blocks[b].vtx|, j - from);
      SegmentLeaf(keys, AllSlots(pool, blocks), from, to, BlockSlots(pool, blocks[b]), j);
    }
  }

  lemma SegmentLeaf(keys: PoolKeys, slots: seq<Slot>, from: nat, to: nat, segment: seq<Slot>, j: nat)
    requires from <= j < to <= |slots| && slots[from..to] == segment
    ensures |segment| == to - from && slots[j] == segment[j - from]
    ensures Leaves(keys, slots)[j] == LeafOf(keys, segment[j - from])
  {
    assert slots[j] == slots[from..to][j - from];
  }

  /** Along the leaves of a continuous scan, checkpoint ids strictly increase. */
  lemma CheckpointIdsIncrease(
      pool: Pool, keys: PoolKeys, blocks: seq<CompactBlock>, previous: Option<WalletBlock>, i: nat, j: nat)
    requires Continuous(blocks, previous)
    requires i < j < Total(pool, blocks) == |AllSlots(pool, blocks)|
    requires Leaves(keys, AllSlots(pool, blocks))[i].retention.Checkpoint?
    requires Leaves(keys, AllSlots(pool, blocks))[j].retention.Checkpoint?
    ensures Leaves(keys, AllSlots(pool, blocks))[i].retention.id < Leaves(keys, AllSlots(pool, blocks))[j].retention.id
  {
    hide Offset, AllSlots, Leaves, LastTxHasOutputs, Continuous;
    var a := LocateBlock(pool, blocks, |blocks|, i);
    var b := LocateBlock(pool, blocks, |blocks|, j);
    BlockCheckpoint(pool, keys, blocks, a, i);
    BlockCheckpoint(pool, keys, blocks, b, j);
    if a > b {
      OffsetsRise(pool, blocks, b + 1, a);
    }
    assert a < b;
    HeightsRise(blocks, previous, a, b);
  }

  lemma {:induction false} HeightsRise(blocks: seq<CompactBlock>, previous: Option<WalletBlock>, a: nat, b: nat)
    requires Continuous(blocks, previous) && a <= b < |blocks|
    ensures blocks[b].height == blocks[a].height + (b - a)
  {
    if a < b {
      HeightsRise(blocks, previous, a, b - 1);
    }
  }

  /** Each scanned block's wallet block is kept under its height: its own fields, its transactions' ids, and for the
      tree sizes the initial size plus the leaves so far. */
  lemma {:induction false} WalletBlockSizes(
      blocks: seq<CompactBlock>, previous: Option<WalletBlock>, n: nat, saplingStart: nat, orchardStart: nat, b: nat)
    requires Continuous(blocks, previous) && b < n <= |blocks|
    ensures var stored, block := WalletBlocks(blocks, n, saplingStart, orchardStart), blocks[b];
            && block.height in stored
            && var kept := stored[block.height];
               && kept.height == block.height && kept.hash == block.hash && kept.prevHash == block.prevHash
               && kept.time == block.time && |kept.txids| == |block.vtx|
               && (forall t :: 0 <= t < |block.vtx| ==> kept.txids[t] == block.vtx[t].txid)
               && kept.saplingTreeSize == saplingStart + Offset(Sapling, blocks, b + 1)
               && kept.orchardTreeSize == orchardStart + Offset(Orchard, blocks, b + 1)
  {
    hide Offset;
    if b < n - 1 {
      WalletBlockSizes(blocks, previous, n - 1, saplingStart, orchardStart, b);
      HeightsRise(blocks, previous, b, n - 1);
    }
  }

  // ---- What a scan gives, output by output

  /** Scanning fails exactly when heights or hashes do not follow each other, from the previous wallet block on, or a
      block declares a tree size that is not the initial one plus the outputs up to its end. */
  lemma ScanFailsIff(blocks: seq<CompactBlock>, keys: ScanningKeys, init: InitialScanData)
    ensures Scan(blocks, keys, init) == Err(Discontinuity) <==> !Continuous(blocks, init.previousBlock)
    ensures Scan(blocks, keys, init) == Err(IncorrectTreeSize) <==>
              && Continuous(blocks, init.previousBlock)
              && exists b: nat, pool: Pool ::
                   && b < |blocks| && blocks[b].chainMetadata.Some?
                   && blocks[b].chainMetadata.value.TreeSize(pool) != init.TreeSize(pool) + Offset(pool, blocks, b + 1)
  {
    hide Continuous, Collected, Offset;
    if !TreeSizesMatch(blocks, |blocks|, init.saplingTreeSize, init.orchardTreeSize) {
      var b :| 0 <= b < |blocks| && !TreeSizeMatchesAt(blocks, b, init.saplingTreeSize, init.orchardTreeSize);
      var metadata := blocks[b].chainMetadata.value;
      assert metadata.TreeSize(Sapling) != init.TreeSize(Sapling) + Offset(Sapling, blocks, b + 1)
          || metadata.TreeSize(Orchard) != init.TreeSize(Orchard) + Offset(Orchard, blocks, b + 1);
    }
    forall b: nat, pool: Pool | b < |blocks| && blocks[b].chainMetadata.Some?
      && TreeSizeMatchesAt(blocks, b, init.saplingTreeSize, init.orchardTreeSize)
      ensures blocks[b].chainMetadata.value.TreeSize(pool) == init.TreeSize(pool) + Offset(pool, blocks, b + 1)
    {
    }
  }

  /** In each pool, output `o` of transaction `t` of block `b` gives the leaf at its place: its commitment, marked iff
      one of the pool's keys decrypts it. If so its transaction is relevant and, as long as no output id is repeated,
      the note is recorded at its position in the tree, with the nullifier it has there. */
  lemma ScanByPlace(
      pool: Pool, blocks: seq<CompactBlock>, keys: ScanningKeys, init: InitialScanData, b: nat, t: nat, o: nat)
    requires Scan(blocks, keys, init).Ok? && b < |blocks| && HasOutput(pool, blocks[b], t, o)
    ensures var scanned := Scan(blocks, keys, init).value;
            var data := if pool.Sapling? then scanned.sapling else scanned.orchard;
            var own := if pool.Sapling? then keys.sapling else keys.orchard;
            var tx, place := blocks[b].vtx[t], Place(pool, blocks, b, t, o);
            var output, id := tx.Outputs(pool)[o], OutputId(tx.txid, o);
            && data.initialPosition == init.TreeSize(pool) && place < |data.leaves| == Total(pool, blocks)
            && data.leaves[place].node == output.commitment
            && (IsMarked(data.leaves[place]) <==> exists tag :: tag in own.tags && own.decrypts(tag, output).Some?)
            && (IsMarked(data.leaves[place]) ==> tx.txid in scanned.relevantTxids && id in data.notes)
            && (IsMarked(data.leaves[place]) && Distinct(Ids(AllSlots(pool, blocks))) ==>
                  && data.notes[id].1 == init.TreeSize(pool) + place
                  && exists k: nat, d ::
                       && FirstToDecrypt(own.tags, own.decrypts, output, k, d)
                       && data.notes[id].0 == own.nullifier(d.ivkTag, d.note, init.TreeSize(pool) + place))
  {
    hide Slots, Place, Notes, NoteAt, Spends, NullifierMap, WalletBlocks, Decrypt, Continuous, TreeSizesMatch,
        FirstToDecrypt, Distinct, Ids;
    var slots, place := AllSlots(pool, blocks), Place(pool, blocks, b, t, o);
    var own := if pool.Sapling? then keys.sapling else keys.orchard;
    SlotAt(pool, blocks, b, t, o);
    LeavesShowOutputs(own, slots, place);
    if IsMine(own, slots[place]) {
      NotesHave(own, slots, |slots|, init.TreeSize(pool), place);
      if Distinct(Ids(slots)) {
        MarkedLeavesAreNotes(own, slots, init.TreeSize(pool), place);
        PositionsIndexLeaves(own, slots, init.TreeSize(pool), OutputId(slots[place].txid, slots[place].index));
      }
    }
  }

  /** The relevant transactions are exactly those of which some output, in either pool, is decrypted by one of that
      pool's keys. */
  lemma RelevantAreDecrypted(blocks: seq<CompactBlock>, keys: ScanningKeys, init: InitialScanData, txid: nat)
    requires Scan(blocks, keys, init).Ok?
    ensures txid in Scan(blocks, keys, init).value.relevantTxids <==>
              exists pool: Pool, b: nat, t: nat, o: nat ::
                && b < |blocks| && HasOutput(pool, blocks[b], t, o) && blocks[b].vtx[t].txid == txid
                && var own := if pool.Sapling? then keys.sapling else keys.orchard;
                   exists tag :: tag in own.tags && own.decrypts(tag, blocks[b].vtx[t].Outputs(pool)[o]).Some?
  {
    hide Slots, Leaves, Notes, Spends, NullifierMap, WalletBlocks, Decrypt, Continuous, TreeSizesMatch, Place, Offset;
    forall pool: Pool, b: nat, t: nat, o: nat | b < |blocks| && HasOutput(pool, blocks[b], t, o)
      ensures var own := if pool.Sapling? then keys.sapling else keys.orchard;
              (exists tag :: tag in own.tags && own.decrypts(tag, blocks[b].vtx[t].Outputs(pool)[o]).Some?) ==>
                blocks[b].vtx[t].txid in Scan(blocks, keys, init).value.relevantTxids
    {
      ScanByPlace(pool, blocks, keys, init, b, t, o);
    }
    if txid in Relevant(keys.sapling, AllSlots(Sapling, blocks)) {
      RelevantOutput(Sapling, blocks, keys.sapling, txid);
    }
    if txid in Relevant(keys.orchard, AllSlots(Orchard, blocks)) {
      RelevantOutput(Orchard, blocks, keys.orchard, txid);
    }
  }

  lemma RelevantOutput(pool: Pool, blocks: seq<CompactBlock>, own: PoolKeys, txid: nat)
    requires txid in Relevant(own, AllSlots(pool, blocks))
    ensures exists b: nat, t: nat, o: nat ::
              && b < |blocks| && HasOutput(pool, blocks[b], t, o) && blocks[b].vtx[t].txid == txid
              && exists tag :: tag in own.tags && own.decrypts(tag, blocks[b].vtx[t].Outputs(pool)[o]).Some?
  {
    hide Slots, Place, Offset, Decrypt;
    var slots := AllSlots(pool, blocks);
    var j :| 0 <= j < |slots| && IsMine(own, slots[j]) && slots[j].txid == txid;
    AllSlotsConcat(pool, blocks, []);
    var b, t, o := Locate(pool, blocks, j);
    SlotAt(pool, blocks, b, t, o);
    AllKeysAreTried(own, slots[j].output);
  }

  predicate Reveals(pool: Pool, block: CompactBlock, t: nat, s: Spend) {
    && t < |block.vtx| && s.nullifier in block.vtx[t].Nullifiers(pool)
    && s.height == block.height && s.txid == block.vtx[t].txid
  }

  lemma TxReveals(pool: Pool, block: CompactBlock, t: nat, s: Spend)
    requires t < |block.vtx|
    ensures s in TxSpends(pool, block, t) <==> Reveals(pool, block, t, s)
  {
    if Reveals(pool, block, t, s) {
      var i :| 0 <= i < |block.vtx[t].Nullifiers(pool)| && block.vtx[t].Nullifiers(pool)[i] == s.nullifier;
      assert TxSpends(pool, block, t)[i] == s;
    }
  }

  lemma {:induction false} TxsReveal(pool: Pool, block: CompactBlock, n: nat, s: Spend)
    requires n <= |block.vtx|
    ensures s in TxsSpends(pool, block, n) <==> exists t: nat :: t < n && Reveals(pool, block, t, s)
  {
    hide Reveals, TxSpends;
    if n > 0 {
      TxsReveal(pool, block, n - 1, s);
      TxReveals(pool, block, n - 1, s);
    }
  }

  lemma {:induction false} BatchReveals(pool: Pool, blocks: seq<CompactBlock>, n: nat, s: Spend)
    requires n <= |blocks|
    ensures s in Spends(pool, blocks, n) <==>
              exists b: nat, t: nat :: b < n && t < |blocks[b].vtx| && Reveals(pool, blocks[b], t, s)
  {
    hide Reveals, TxsSpends;
    if n > 0 {
      BatchReveals(pool, blocks, n - 1, s);
      TxsReveal(pool, blocks[n - 1], |blocks[n - 1].vtx|, s);
    }
  }

  lemma {:induction false} NullifierMapHas(spends: seq<Spend>, n: nat, nf: nat)
    requires n <= |spends|
    ensures nf in NullifierMap(spends, n) <==> exists k :: 0 <= k < n && spends[k].nullifier == nf
    ensures nf in NullifierMap(spends, n) ==>
              Spend(nf, NullifierMap(spends, n)[nf].0, NullifierMap(spends, n)[nf].1) in spends
  {
    if n > 0 {
      NullifierMapHas(spends, n - 1, nf);
      assert spends[n - 1] in spends;
    }
  }

  /** The nullifiers on record are exactly those the batch reveals, each with the id of a transaction that reveals it
      and the height of its block. */
  lemma NullifiersAreRevealed(
      pool: Pool, blocks: seq<CompactBlock>, keys: ScanningKeys, init: InitialScanData, nf: nat)
    requires Scan(blocks, keys, init).Ok?
    ensures var scanned := Scan(blocks, keys, init).value;
            var found := if pool.Sapling? then scanned.sapling.nullifiers else scanned.orchard.nullifiers;
            && (nf in found <==>
                  exists b: nat, t: nat ::
                    b < |blocks| && t < |blocks[b].vtx| && nf in blocks[b].vtx[t].Nullifiers(pool))
            && (nf in found ==>
                  exists b: nat, t: nat ::
                    && b < |blocks| && t < |blocks[b].vtx| && nf in blocks[b].vtx[t].Nullifiers(pool)
                    && found[nf] == (blocks[b].height, blocks[b].vtx[t].txid))
  {
    hide NullifierMap, Spends, Leaves, Notes, Slots, WalletBlocks, Continuous, TreeSizesMatch, Relevant;
    var spends := Spends(pool, blocks, |blocks|);
    NullifierMapHas(spends, |spends|, nf);
    forall s: Spend ensures s in spends <==>
      exists b: nat, t: nat :: b < |blocks| && t < |blocks[b].vtx| && Reveals(pool, blocks[b], t, s)
    {
      BatchReveals(pool, blocks, |blocks|, s);
    }
    forall b: nat, t: nat | b < |blocks| && t < |blocks[b].vtx| && nf in blocks[b].vtx[t].Nullifiers(pool)
      ensures exists k :: 0 <= k < |spends| && spends[k].nullifier == nf
    {
      var s := Spend(nf, blocks[b].height, blocks[b].vtx[t].txid);
      assert Reveals(pool, blocks[b], t, s);
      assert s in spends;
    }
  }
}
