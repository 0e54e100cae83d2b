/** The scan-range list of the sync engine: how it is extended when the chain grows,
    cut into tasks for the scan workers, and marked when results come back. */
module ScanRanges {
  import opened Wrappers

  // Blocks per scan task.
  const BATCH_SIZE: nat := 10

  datatype Priority = Ignored | Scanned | Historic | OpenAdjacent | FoundNote | ChainTip | Verify

  /** Heights from `start` up to but not including `end`. */
  datatype BlockRange = BlockRange(start: nat, end: nat) {
    predicate Has(h: nat) {
      start <= h < end
    }
  }

  datatype ScanRange = ScanRange(blocks: BlockRange, priority: Priority) {

    /** Still waiting to be handed to a worker. */
    predicate Pending() {
      priority != Scanned && priority != Ignored
    }

    function SplitAt(p: nat): Option<(ScanRange, ScanRange)> {
      if blocks.start < p < blocks.end then
        Some((ScanRange(BlockRange(blocks.start, p), priority), ScanRange(BlockRange(p, blocks.end), priority)))
      else
        None
    }
  }

  /** `ranges` is a gap-free, disjoint, ascending list of non-empty ranges covering [lo, hi). */
  predicate Tiles(ranges: seq<ScanRange>, lo: nat, hi: nat) {
    if ranges == [] then
      lo == hi
    else
      && ranges[0].blocks.start == lo < ranges[0].blocks.end
      && Tiles(ranges[1..], ranges[0].blocks.end, hi)
  }

  /** The priority of the range holding height `h`, if there is one. */
  function PriorityAt(ranges: seq<ScanRange>, h: nat): Option<Priority> {
    if ranges == [] then None
    else if ranges[0].blocks.start <= h < ranges[0].blocks.end then Some(ranges[0].priority)
    else PriorityAt(ranges[1..], h)
  }

  predicate PendingAt(ranges: seq<ScanRange>, h: nat) {
    PriorityAt(ranges, h).Some? && PriorityAt(ranges, h).value !in {Scanned, Ignored}
  }

  // ---- The operations as functions on the list

  datatype UpdateError = WalletAheadOfServer

  /** The first height the new chain-tip range starts from. */
  function WalletHeight(ranges: seq<ScanRange>, birthday: nat, saplingActivation: nat): nat {
    if ranges == [] then
      if birthday >= saplingActivation then birthday else saplingActivation
    else
      ranges[|ranges| - 1].blocks.end
  }

  /** `h` is the greater of the two. */
  predicate IsGreater(h: nat, birthday: nat, saplingActivation: nat) {
    h >= birthday && h >= saplingActivation && (h == birthday || h == saplingActivation)
  }

  function Update(ranges: seq<ScanRange>, birthday: nat, saplingActivation: nat, chainHeight: nat)
    : Result<seq<ScanRange>, UpdateError>
  {
    var walletHeight := WalletHeight(ranges, birthday, saplingActivation);
    if walletHeight > chainHeight then Err(WalletAheadOfServer)
    else Ok(ranges + [ScanRange(BlockRange(walletHeight, chainHeight + 1), Historic)])
  }

  /** The next task, and the list in which exactly that task's blocks became Ignored. */
  function Prepare(ranges: seq<ScanRange>): (Option<ScanRange>, seq<ScanRange>) {
    if ranges == [] then
      (None, [])
    else if ranges[0].Pending() then
      match ranges[0].SplitAt(ranges[0].blocks.start + BATCH_SIZE)
      case Some((lower, higher)) => (Some(lower), [lower.(priority := Ignored), higher] + ranges[1..])
      case None => (Some(ranges[0]), [ranges[0].(priority := Ignored)] + ranges[1..])
    else
      var (task, rest) := Prepare(ranges[1..]);
      (task, [ranges[0]] + rest)
  }

  /** Marks the first range with exactly these blocks; None stands for the "scanned range not found" panic. */
  function Mark(ranges: seq<ScanRange>, blocks: BlockRange): Option<seq<ScanRange>> {
    if ranges == [] then
      None
    else if ranges[0].blocks == blocks then
      Some([ranges[0].(priority := Scanned)] + ranges[1..])
    else
      match Mark(ranges[1..], blocks)
      case Some(rest) => Some([ranges[0]] + rest)
      case None => None
  }

  // ---- The stateful form

  function FirstPending(ranges: seq<ScanRange>): (i: nat)
    ensures i <= |ranges|
    ensures i < |ranges| ==> ranges[i].Pending()
    ensures forall k :: 0 <= k < i ==> !ranges[k].Pending()
  {
    if ranges == [] || ranges[0].Pending() then 0 else 1 + FirstPending(ranges[1..])
  }

  function FirstWithBlocks(ranges: seq<ScanRange>, blocks: BlockRange): (i: nat)
    ensures i <= |ranges|
    ensures i < |ranges| ==> ranges[i].blocks == blocks
    ensures forall k :: 0 <= k < i ==> ranges[k].blocks != blocks
  {
    if ranges == [] || ranges[0].blocks == blocks then 0 else 1 + FirstWithBlocks(ranges[1..], blocks)
  }

  /** Replacing the range at `i` by `middle`. */
  function Splice(ranges: seq<ScanRange>, i: nat, middle: seq<ScanRange>): seq<ScanRange>
    requires i < |ranges|
  {
    ranges[..i] + middle + ranges[i + 1..]
  }

  class SyncState {
    var scanRanges: seq<ScanRange>

    constructor ()
      ensures scanRanges == []
    {
      scanRanges := [];
    }

    method UpdateScanRanges(birthday: nat, saplingActivation: nat, chainHeight: nat)
      returns (outcome: Result<(), UpdateError>)
      modifies this
      ensures outcome.Err? <==> WalletHeight(old(scanRanges), birthday, saplingActivation) > chainHeight
      ensures outcome.Err? ==> scanRanges == old(scanRanges)
      ensures outcome.Ok? ==> Update(old(scanRanges), birthday, saplingActivation, chainHeight) == Ok(scanRanges)
      ensures outcome.Ok? ==>
                && scanRanges != [] && scanRanges[..|scanRanges| - 1] == old(scanRanges)
                && var last := scanRanges[|scanRanges| - 1];
                   && last.priority == Historic && last.blocks.end == chainHeight + 1
                   && if old(scanRanges) == []
                      then IsGreater(last.blocks.start, birthday, saplingActivation)
                      else last.blocks.start == old(scanRanges)[|old(scanRanges)| - 1].blocks.end
    {
      var walletHeight := WalletHeight(scanRanges, birthday, saplingActivation);
      if walletHeight > chainHeight {
        return Err(WalletAheadOfServer);
      }
      scanRanges := scanRanges + [ScanRange(BlockRange(walletHeight, chainHeight + 1), Historic)];
      outcome := Ok(());
    }

    method PrepareNextScanRange() returns (task: Option<ScanRange>)
      modifies this
      ensures (task, scanRanges) == Prepare(old(scanRanges))
    {
      var index := FirstPending(scanRanges);
      PrepareByIndex(scanRanges);
      if index == |scanRanges| {
        return None;
      }
      var selected := scanRanges[index];
      var split := selected.SplitAt(selected.blocks.start + BATCH_SIZE);
      if split.Some? {
        var (lower, higher) := split.value;
        scanRanges := Splice(scanRanges, index, [lower.(priority := Ignored), higher]);
        task := Some(lower);
      } else {
        scanRanges := Splice(scanRanges, index, [selected.(priority := Ignored)]);
        task := Some(selected);
      }
    }

    method MarkScanned(range: ScanRange) returns (found: bool)
      modifies this
      ensures found <==> Mark(old(scanRanges), range.blocks).Some?
      ensures Some(scanRanges) == if found then Mark(old(scanRanges), range.blocks) else Some(old(scanRanges))
    {
      var index := FirstWithBlocks(scanRanges, range.blocks);
      MarkByIndex(scanRanges, range.blocks);
      found := index < |scanRanges|;
      if found {
        scanRanges := scanRanges[index := scanRanges[index].(priority := Scanned)];
      }
    }
  }

  lemma SpliceShift(ranges: seq<ScanRange>, i: nat, middle: seq<ScanRange>)
    requires i < |ranges|
    ensures Splice(ranges, i, middle) ==
            if i == 0 then middle + ranges[1..] else [ranges[0]] + Splice(ranges[1..], i - 1, middle)
  {
  }

  /** Selecting by index and splicing is the recursive walk. */
  lemma {:induction false} PrepareByIndex(ranges: seq<ScanRange>)
    ensures var i := FirstPending(ranges);
            Prepare(ranges) ==
            if i == |ranges| then (None, ranges)
            else match ranges[i].SplitAt(ranges[i].blocks.start + BATCH_SIZE)
                 case Some((lower, higher)) =>
                   (Some(lower), Splice(ranges, i, [lower.(priority := Ignored), higher]))
                 case None =>
                   (Some(ranges[i]), Splice(ranges, i, [ranges[i].(priority := Ignored)]))
  {
    var i := FirstPending(ranges);
    if i < |ranges| {
      var split := ranges[i].SplitAt(ranges[i].blocks.start + BATCH_SIZE);
      SpliceShift(ranges, i, if split.Some? then [split.value.0.(priority := Ignored), split.value.1]
                             else [ranges[i].(priority := Ignored)]);
    }
    if i > 0 {
      PrepareByIndex(ranges[1..]);
      assert [ranges[0]] + ranges[1..] == ranges;
    }
  }

  lemma {:induction false} MarkByIndex(ranges: seq<ScanRange>, blocks: BlockRange)
    ensures var i := FirstWithBlocks(ranges, blocks);
            Mark(ranges, blocks) ==
            if i == |ranges| then None else Some(ranges[i := ranges[i].(priority := Scanned)])
  {
    if ranges != [] {
      var i := FirstWithBlocks(ranges, blocks);
      if i == 0 {
        assert [ranges[0].(priority := Scanned)] + ranges[1..] == ranges[0 := ranges[0].(priority := Scanned)];
      } else {
        MarkByIndex(ranges[1..], blocks);
        if i < |ranges| {
          var marked := ranges[i].(priority := Scanned);
          assert [ranges[0]] + ranges[1..][i - 1 := marked] == ranges[i := marked];
        }
      }
    }
  }

  // ---- What tiling means

  lemma {:induction false} TilesBounds(ranges: seq<ScanRange>, lo: nat, hi: nat)
    requires Tiles(ranges, lo, hi)
    ensures lo <= hi
    ensures ranges != [] ==> lo < hi && ranges[|ranges| - 1].blocks.end == hi
    ensures forall h: nat :: PriorityAt(ranges, h).Some? <==> lo <= h < hi
  {
    if ranges != [] {
      TilesBounds(ranges[1..], ranges[0].blocks.end, hi);
    }
  }

  lemma {:induction false} TilesFrom(ranges: seq<ScanRange>, lo: nat, hi: nat, j: nat)
    requires Tiles(ranges, lo, hi) && j < |ranges|
    ensures lo <= ranges[j].blocks.start && Tiles(ranges[j..], ranges[j].blocks.start, hi)
  {
    if j > 0 {
      TilesFrom(ranges[1..], ranges[0].blocks.end, hi, j - 1);
      assert ranges[1..][j - 1..] == ranges[j..];
    }
  }

  /** A tiling is sorted, its ranges are non-empty and no two of them share a height. */
  lemma TilesOrdered(ranges: seq<ScanRange>, lo: nat, hi: nat, i: nat, j: nat)
    requires Tiles(ranges, lo, hi) && i < j < |ranges|
    ensures lo <= ranges[i].blocks.start < ranges[i].blocks.end
                <= ranges[j].blocks.start < ranges[j].blocks.end <= hi
  {
    TilesFrom(ranges, lo, hi, i);
    TilesFrom(ranges, lo, hi, j);
    var tail := ranges[i..];
    assert tail[1..][j - i - 1] == ranges[j];
    TilesFrom(tail[1..], tail[0].blocks.end, hi, j - i - 1);
    TilesBounds(ranges[j..][1..], ranges[j].blocks.end, hi);
  }

  // ---- What each operation does to a tiling

  /** Extending covers the new blocks as pending and leaves every other height's priority alone. */
  lemma {:induction false} UpdateExtends(
      ranges: seq<ScanRange>, lo: nat, hi: nat, birthday: nat, saplingActivation: nat, chainHeight: nat)
    requires Tiles(ranges, lo, hi)
    requires Update(ranges, birthday, saplingActivation, chainHeight).Ok?
    requires ranges == [] ==> lo == hi == WalletHeight([], birthday, saplingActivation)
    ensures var after := Update(ranges, birthday, saplingActivation, chainHeight).value;
            && hi <= chainHeight
            && Tiles(after, lo, chainHeight + 1)
            && forall h: nat :: PriorityAt(after, h) ==
                 if hi <= h <= chainHeight then Some(Historic) else PriorityAt(ranges, h)
  {
    TilesBounds(ranges, lo, hi);
    TilesSnoc(ranges, lo, hi, ScanRange(BlockRange(hi, chainHeight + 1), Historic));
  }

  lemma {:induction false} TilesSnoc(ranges: seq<ScanRange>, lo: nat, hi: nat, last: ScanRange)
    requires Tiles(ranges, lo, hi) && hi == last.blocks.start < last.blocks.end
    ensures Tiles(ranges + [last], lo, last.blocks.end)
    ensures forall h: nat :: PriorityAt(ranges + [last], h) ==
              if hi <= h < last.blocks.end then Some(last.priority) else PriorityAt(ranges, h)
  {
    TilesBounds(ranges, lo, hi);
    if ranges == [] {
      assert ranges + [last] == [last];
    } else {
      TilesSnoc(ranges[1..], ranges[0].blocks.end, hi, last);
      TilesBounds(ranges[1..], ranges[0].blocks.end, hi);
      assert (ranges + [last])[1..] == ranges[1..] + [last];
      assert (ranges + [last])[0] == ranges[0];
    }
  }

  /** A task is a non-empty pending piece of at most BATCH_SIZE blocks. Preparing it turns exactly its
      heights from pending to Ignored, and only a list without pending ranges yields no task. */
  lemma {:induction false} PrepareTakes(ranges: seq<ScanRange>, lo: nat, hi: nat)
    requires Tiles(ranges, lo, hi)
    ensures var (task, after) := Prepare(ranges);
            && Tiles(after, lo, hi)
            && (task.None? ==> after == ranges && forall h: nat :: !PendingAt(ranges, h))
            && (task.Some? ==>
                  && task.value.Pending()
                  && lo <= task.value.blocks.start < task.value.blocks.end <= hi
                  && task.value.blocks.end - task.value.blocks.start <= BATCH_SIZE
                  && forall h: nat ::
                       if task.value.blocks.start <= h < task.value.blocks.end
                       then PriorityAt(ranges, h) == Some(task.value.priority) && PriorityAt(after, h) == Some(Ignored)
                       else PriorityAt(after, h) == PriorityAt(ranges, h))
  {
    TilesBounds(ranges, lo, hi);
    if ranges != [] {
      var r := ranges[0];
      TilesBounds(ranges[1..], r.blocks.end, hi);
      if r.Pending() {
        var after := Prepare(ranges).1;
        match r.SplitAt(r.blocks.start + BATCH_SIZE)
        case Some((lower, higher)) =>
          assert after[1..] == [higher] + ranges[1..];
          assert after[1..][1..] == ranges[1..];
        case None =>
          assert after[1..] == ranges[1..];
      } else {
        PrepareTakes(ranges[1..], r.blocks.end, hi);
        assert forall h: nat :: PendingAt(ranges, h) ==> PendingAt(ranges[1..], h);
        var (task, after) := Prepare(ranges);
        assert after[0] == r && after[1..] == Prepare(ranges[1..]).1;
        assert forall h: nat ::
          PriorityAt(after, h) ==
          (if r.blocks.start <= h < r.blocks.end then Some(r.priority) else PriorityAt(after[1..], h));
        if task.None? {
          assert after == ranges;
        }
      }
    }
  }

  /** Marking succeeds iff some range has exactly these blocks, and then turns exactly them to Scanned. */
  lemma {:induction false} MarkCovers(ranges: seq<ScanRange>, lo: nat, hi: nat, blocks: BlockRange)
    requires Tiles(ranges, lo, hi)
    ensures Mark(ranges, blocks).Some? <==> exists r :: r in ranges && r.blocks == blocks
    ensures Mark(ranges, blocks).Some? ==>
              var after := Mark(ranges, blocks).value;
              && Tiles(after, lo, hi)
              && forall h: nat :: PriorityAt(after, h) ==
                   if blocks.start <= h < blocks.end then Some(Scanned) else PriorityAt(ranges, h)
  {
    TilesBounds(ranges, lo, hi);
    if ranges != [] && ranges[0].blocks != blocks {
      MarkCovers(ranges[1..], ranges[0].blocks.end, hi, blocks);
      if Mark(ranges[1..], blocks).Some? {
        TilesBounds(Mark(ranges[1..], blocks).value, ranges[0].blocks.end, hi);
        assert exists r :: r in ranges[1..] && r.blocks == blocks;
        var r :| r in ranges[1..] && r.blocks == blocks;
        assert r in ranges;
        var k :| 0 <= k < |ranges[1..]| && ranges[1..][k] == r;
        assert ranges[k + 1] == r;
        TilesOrdered(ranges, lo, hi, 0, k + 1);
      }
    }
  }

  // ---- Repeated syncs

  datatype Op = OpUpdate(chainHeight: nat) | OpPrepare | OpMark(blocks: BlockRange)

  /** One operation; None when the source would panic. */
  function Apply(ranges: seq<ScanRange>, op: Op, birthday: nat, saplingActivation: nat): Option<seq<ScanRange>> {
    match op
    case OpUpdate(chainHeight) =>
      (match Update(ranges, birthday, saplingActivation, chainHeight)
       case Ok(after) => Some(after)
       case Err(_) => None)
    case OpPrepare => Some(Prepare(ranges).1)
    case OpMark(blocks) => Mark(ranges, blocks)
  }

  /** The list after `ops`, starting from a new wallet. */
  function Run(ops: seq<Op>, birthday: nat, saplingActivation: nat): Option<seq<ScanRange>> {
    if ops == [] then Some([])
    else
      match Run(ops[..|ops| - 1], birthday, saplingActivation)
      case Some(ranges) => Apply(ranges, ops[|ops| - 1], birthday, saplingActivation)
      case None => None
  }

  /** One past the server height seen by the last update. */
  function CoveredTo(ops: seq<Op>, birthday: nat, saplingActivation: nat): nat {
    if ops == [] then WalletHeight([], birthday, saplingActivation)
    else
      match ops[|ops| - 1]
      case OpUpdate(chainHeight) => chainHeight + 1
      case _ => CoveredTo(ops[..|ops| - 1], birthday, saplingActivation)
  }

  predicate Updated(ops: seq<Op>) {
    exists i :: 0 <= i < |ops| && ops[i].OpUpdate?
  }

  /** Over any sequence of updates, preparations and marks that does not panic, the list is empty before the first
      update and from then on tiles exactly the heights from the greater of birthday and Sapling activation up to and
      including the tip of the last update. */
  lemma RunsTile(ops: seq<Op>, birthday: nat, saplingActivation: nat)
    requires Run(ops, birthday, saplingActivation).Some?
    ensures var ranges := Run(ops, birthday, saplingActivation).value;
            && (ranges == [] <==> !Updated(ops))
            && (Updated(ops) ==>
                  exists lo: nat, hi: nat ::
                    && Tiles(ranges, lo, hi) && hi > 0 && LastUpdate(ops, hi - 1)
                    && lo >= birthday && lo >= saplingActivation && (lo == birthday || lo == saplingActivation))
  {
    RunTiles(ops, birthday, saplingActivation);
    if Updated(ops) {
      var tip := CoveredIsLast(ops, birthday, saplingActivation);
      assert Tiles(Run(ops, birthday, saplingActivation).value, WalletHeight([], birthday, saplingActivation), tip + 1);
    }
  }

  /** The last update in `ops` saw the server at `tip`. */
  predicate LastUpdate(ops: seq<Op>, tip: nat) {
    exists i :: 0 <= i < |ops| && ops[i] == OpUpdate(tip) && forall k :: i < k < |ops| ==> !ops[k].OpUpdate?
  }

  lemma {:induction false} CoveredIsLast(ops: seq<Op>, birthday: nat, saplingActivation: nat) returns (tip: nat)
    requires Updated(ops)
    ensures CoveredTo(ops, birthday, saplingActivation) == tip + 1 && LastUpdate(ops, tip)
  {
    var last, before := |ops| - 1, ops[..|ops| - 1];
    if ops[last].OpUpdate? {
      tip := ops[last].chainHeight;
    } else {
      var i :| 0 <= i < |ops| && ops[i].OpUpdate?;
      assert before[i].OpUpdate?;
      tip := CoveredIsLast(before, birthday, saplingActivation);
      var k :| 0 <= k < |before| && before[k] == OpUpdate(tip) && forall j :: k < j < |before| ==> !before[j].OpUpdate?;
      assert ops[k] == OpUpdate(tip);
      forall j | k < j < |ops| ensures !ops[j].OpUpdate? {
        assert j < last ==> ops[j] == before[j];
      }
    }
  }

  lemma {:induction false} RunTiles(ops: seq<Op>, birthday: nat, saplingActivation: nat)
    requires Run(ops, birthday, saplingActivation).Some?
    ensures var ranges := Run(ops, birthday, saplingActivation).value;
            && Tiles(ranges, WalletHeight([], birthday, saplingActivation), CoveredTo(ops, birthday, saplingActivation))
            && (ranges == [] <==> !Updated(ops))
  {
    if ops != [] {
      var before := ops[..|ops| - 1];
      RunTiles(before, birthday, saplingActivation);
      var lo := WalletHeight([], birthday, saplingActivation);
      var hi := CoveredTo(before, birthday, saplingActivation);
      var ranges := Run(before, birthday, saplingActivation).value;
      assert Updated(before) ==> Updated(ops);
      assert Updated(ops) ==> Updated(before) || ops[|ops| - 1].OpUpdate?;
      match ops[|ops| - 1]
      case OpUpdate(chainHeight) => UpdateExtends(ranges, lo, hi, birthday, saplingActivation, chainHeight);
      case OpPrepare => PrepareTakes(ranges, lo, hi); TilesBounds(ranges, lo, hi);
      case OpMark(blocks) => MarkCovers(ranges, lo, hi, blocks);
    }
  }

  /** After a sync that saw the server at `tip` the next update panics exactly when the server is not above it; a wallet
      that never updated panics exactly when the server is below its birthday or the Sapling activation. */
  lemma UpdatePanicsIffTipNotAdvanced(
      ops: seq<Op>, birthday: nat, saplingActivation: nat, tip: Option<nat>, chainHeight: nat)
    requires Run(ops, birthday, saplingActivation).Some?
    requires if tip.Some? then LastUpdate(ops, tip.value) else !Updated(ops)
    ensures Run(ops + [OpUpdate(chainHeight)], birthday, saplingActivation).None? <==>
            if tip.Some? then chainHeight <= tip.value else chainHeight < birthday || chainHeight < saplingActivation
  {
    RunTiles(ops, birthday, saplingActivation);
    var ranges := Run(ops, birthday, saplingActivation).value;
    TilesBounds(ranges, WalletHeight([], birthday, saplingActivation), CoveredTo(ops, birthday, saplingActivation));
    assert (ops + [OpUpdate(chainHeight)])[..|ops|] == ops;
    if tip.Some? {
      var last := CoveredIsLast(ops, birthday, saplingActivation);
    }
  }

  // ---- Handing out everything

  /** Blocks still to be handed out. */
  function PendingBlocks(ranges: seq<ScanRange>): nat {
    if ranges == [] then 0
    else
      var r := ranges[0];
      (if r.Pending() && r.blocks.start < r.blocks.end then r.blocks.end - r.blocks.start else 0)
      + PendingBlocks(ranges[1..])
  }

  /** Tasks needed for what is pending: each range is cut into ceil(length / BATCH_SIZE) pieces. */
  function TaskCount(ranges: seq<ScanRange>): nat {
    if ranges == [] then 0
    else
      var r := ranges[0];
      (if r.Pending() && r.blocks.start < r.blocks.end
       then (r.blocks.end - r.blocks.start + BATCH_SIZE - 1) / BATCH_SIZE else 0)
      + TaskCount(ranges[1..])
  }

  lemma {:induction false} PrepareConsumes(ranges: seq<ScanRange>, lo: nat, hi: nat)
    requires Tiles(ranges, lo, hi)
    ensures var (task, after) := Prepare(ranges);
            && (task.None? ==> TaskCount(ranges) == 0)
            && (task.Some? ==>
                  && PendingBlocks(ranges) ==
                     PendingBlocks(after) + (task.value.blocks.end - task.value.blocks.start)
                  && task.value.blocks.start < task.value.blocks.end
                  && TaskCount(ranges) == TaskCount(after) + 1)
  {
    if ranges != [] {
      var r := ranges[0];
      if r.Pending() {
        var after := Prepare(ranges).1;
        match r.SplitAt(r.blocks.start + BATCH_SIZE)
        case Some((lower, higher)) =>
          assert after[1..] == [higher] + ranges[1..];
          assert after[1..][1..] == ranges[1..];
        case None =>
          assert after[1..] == ranges[1..];
      } else {
        PrepareConsumes(ranges[1..], r.blocks.end, hi);
      }
    }
  }

  /** Every task handed out by preparing until nothing is pending. */
  function AllTasks(ranges: seq<ScanRange>, lo: nat, hi: nat): seq<ScanRange>
    requires Tiles(ranges, lo, hi)
    decreases PendingBlocks(ranges)
  {
    PrepareTakes(ranges, lo, hi);
    PrepareConsumes(ranges, lo, hi);
    var (task, after) := Prepare(ranges);
    if task.None? then [] else [task.value] + AllTasks(after, lo, hi)
  }

  predicate InSome(tasks: seq<ScanRange>, h: nat) {
    exists k :: 0 <= k < |tasks| && tasks[k].blocks.start <= h < tasks[k].blocks.end
  }

  /** Preparing until nothing is left hands out, in ascending disjoint tasks of at most BATCH_SIZE blocks,
      exactly the heights that were pending, and takes ceil(length / BATCH_SIZE) tasks per range. */
  lemma {:induction false} AllTasksAreThePendingHeights(ranges: seq<ScanRange>, lo: nat, hi: nat)
    requires Tiles(ranges, lo, hi)
    ensures var tasks := AllTasks(ranges, lo, hi);
            && |tasks| == TaskCount(ranges)
            && (forall k :: 0 <= k < |tasks| ==>
                  0 < tasks[k].blocks.end - tasks[k].blocks.start <= BATCH_SIZE)
            && (forall j, k :: 0 <= j < k < |tasks| ==> tasks[j].blocks.end <= tasks[k].blocks.start)
            && (forall h: nat :: InSome(tasks, h) <==> PendingAt(ranges, h))
    decreases PendingBlocks(ranges)
  {
    PrepareTakes(ranges, lo, hi);
    PrepareConsumes(ranges, lo, hi);
    var (task, after) := Prepare(ranges);
    if task.Some? {
      AllTasksAreThePendingHeights(after, lo, hi);
      var later := AllTasks(after, lo, hi);
      var tasks := AllTasks(ranges, lo, hi);
      PrepareTakesLowest(ranges, lo, hi);
      forall k | 0 <= k < |later|
        ensures task.value.blocks.end <= later[k].blocks.start
      {
        assert InSome(later, later[k].blocks.start);
        assert PendingAt(after, later[k].blocks.start);
      }
      forall h: nat
        ensures InSome(tasks, h) <==> PendingAt(ranges, h)
      {
        InSomeCons(task.value, later, h);
      }
    }
  }

  lemma InSomeCons(task: ScanRange, later: seq<ScanRange>, h: nat)
    ensures InSome([task] + later, h) <==> task.blocks.start <= h < task.blocks.end || InSome(later, h)
  {
    var tasks := [task] + later;
    if task.blocks.start <= h < task.blocks.end {
      assert tasks[0] == task;
    } else if InSome(later, h) {
      var k :| 0 <= k < |later| && later[k].blocks.start <= h < later[k].blocks.end;
      assert tasks[k + 1] == later[k];
    }
  }

  /** The task is the lowest pending piece: what stays pending lies above it. */
  lemma {:induction false} PrepareTakesLowest(ranges: seq<ScanRange>, lo: nat, hi: nat)
    requires Tiles(ranges, lo, hi) && Prepare(ranges).0.Some?
    ensures var (task, after) := Prepare(ranges);
            forall h: nat :: PendingAt(after, h) ==> task.value.blocks.end <= h
  {
    TilesBounds(ranges, lo, hi);
    var r := ranges[0];
    TilesBounds(ranges[1..], r.blocks.end, hi);
    if r.Pending() {
      var after := Prepare(ranges).1;
      match r.SplitAt(r.blocks.start + BATCH_SIZE)
      case Some((lower, higher)) =>
        assert after[1..] == [higher] + ranges[1..];
        assert after[1..][1..] == ranges[1..];
        assert forall h: nat :: PendingAt(after, h) ==> PriorityAt(after[1..], h).Some?;
        assert forall h: nat :: PriorityAt(after[1..], h).Some? ==>
          PriorityAt(ranges[1..], h).Some? || higher.blocks.start <= h;
      case None =>
        assert after[1..] == ranges[1..];
        assert forall h: nat :: PendingAt(after, h) ==> PriorityAt(ranges[1..], h).Some?;
    } else {
      PrepareTakesLowest(ranges[1..], r.blocks.end, hi);
      var after := Prepare(ranges).1;
      assert after[1..] == Prepare(ranges[1..]).1;
      assert forall h: nat :: PendingAt(after, h) ==> PendingAt(after[1..], h);
    }
  }
}
