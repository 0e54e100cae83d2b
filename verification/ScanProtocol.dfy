/** The main sync loop and its scan workers as a step relation.

    The main loop and every worker run on their own threads; they share the per-worker task channels,
    the per-worker `is_scanning` flag, and one result channel. Each action below is one atomic read,
    write, send or receive, so a run is an arbitrary interleaving of actions. */
module ScanProtocol {
  import opened Wrappers
  import opened ScanRanges

  /** A range to scan, with the height of the stored block just below it if the wallet holds one. */
  datatype ScanTask = ScanTask(range: ScanRange, previousBlock: Option<nat>)

  datatype WorkerPhase =
    | Waiting                    // blocked on its task channel
    | Received(task: ScanTask)   // took a task, flag not yet set
    | Scanning(task: ScanTask)   // flag set
    | Reported                   // result sent, flag not yet cleared
    | Exited                     // task channel closed and empty

  datatype Worker = Worker(queue: seq<ScanTask>, phase: WorkerPhase) {

    /** The value of the shared flag. */
    predicate IsScanning() {
      phase.Scanning? || phase.Reported?
    }

    /** Blocked with nothing queued: only the main loop can change this worker. */
    predicate Quiescent() {
      phase.Waiting? && queue == []
    }
  }

  datatype MainPhase =
    | Checking(next: nat)                   // is_worker_idle, about to read the flag of worker `next`
    | Dispatching(task: ScanTask, to: nat)  // add_scan_task, about to read the flag of worker `to`
    | Polling                               // try_recv on the result channel
    | Draining                              // scanner dropped, receiving until the channel closes
    | Done
    | NoIdleWorkers(task: ScanTask)         // panicked in add_scan_task, still holding the task
    | RangeNotFound                         // panicked in mark_scanned

  /** `walletBlocks` holds the heights of the blocks stored in the wallet. */
  datatype State = State(
    ranges: seq<ScanRange>, workers: seq<Worker>, results: seq<ScanRange>, main: MainPhase, walletBlocks: set<nat>)

  datatype Action = MainStep | WorkerStep(i: nat)

  // ---- Steps

  function PreviousBlock(s: State, range: ScanRange): Option<nat> {
    if range.blocks.start > 0 && range.blocks.start - 1 in s.walletBlocks then Some(range.blocks.start - 1) else None
  }

  function HeightSet(blocks: BlockRange): set<nat> {
    set h: nat | blocks.start <= h < blocks.end && blocks.Has(h)
  }

  /** Storing a result's blocks, then dropping what remove_irrelevant_data does not retain. */
  function StoreBlocks(stored: set<nat>, range: ScanRange): set<nat> {
    var all := stored + HeightSet(range.blocks);
    if range.priority == Historic then set h | h in all && h >= range.blocks.end else all
  }

  /** Taking one result off the channel. */
  function TakeResult(s: State, next: MainPhase): State
    requires s.results != []
  {
    var range := s.results[0];
    var rest := s.(results := s.results[1..], walletBlocks := StoreBlocks(s.walletBlocks, range));
    match Mark(s.ranges, range.blocks)
    case Some(marked) => rest.(ranges := marked, main := next)
    case None => rest.(main := RangeNotFound)
  }

  /** None when the action is not enabled. */
  function MainNext(s: State): Option<State> {
    match s.main
    case Checking(i) =>
      if i >= |s.workers| then
        Some(s.(main := Polling))
      else if s.workers[i].IsScanning() then
        Some(s.(main := Checking(i + 1)))
      else
        var (task, ranges) := Prepare(s.ranges);
        (match task
         case Some(range) =>
           Some(s.(ranges := ranges, main := Dispatching(ScanTask(range, PreviousBlock(s, range)), 0)))
         case None => Some(s.(main := Draining)))
    case Dispatching(task, i) =>
      if i >= |s.workers| then
        Some(s.(main := NoIdleWorkers(task)))
      else if s.workers[i].IsScanning() then
        Some(s.(main := Dispatching(task, i + 1)))
      else
        Some(s.(workers := s.workers[i := s.workers[i].(queue := s.workers[i].queue + [task])], main := Polling))
    case Polling =>
      Some(if s.results == [] then s.(main := Checking(0)) else TakeResult(s, Checking(0)))
    case Draining =>
      if s.results != [] then Some(TakeResult(s, Draining))
      else if AllExited(s.workers) then Some(s.(main := Done))
      else None
    case _ => None
  }

  function WorkerNext(s: State, i: nat): Option<State> {
    if i >= |s.workers| || s.main.NoIdleWorkers? || s.main.RangeNotFound? then None
    else
      var w := s.workers[i];
      match w.phase
      case Waiting =>
        if w.queue != [] then
          Some(s.(workers := s.workers[i := Worker(w.queue[1..], Received(w.queue[0]))]))
        else if s.main.Draining? || s.main.Done? then
          Some(s.(workers := s.workers[i := w.(phase := Exited)]))
        else None
      case Received(task) => Some(s.(workers := s.workers[i := w.(phase := Scanning(task))]))
      case Scanning(task) =>
        Some(s.(workers := s.workers[i := w.(phase := Reported)], results := s.results + [task.range]))
      case Reported => Some(s.(workers := s.workers[i := w.(phase := Waiting)]))
      case Exited => None
  }

  function Next(s: State, a: Action): Option<State> {
    match a
    case MainStep => MainNext(s)
    case WorkerStep(i) => WorkerNext(s, i)
  }

  /** The main loop about to start: nothing is handed out yet. */
  predicate Init(s: State, lo: nat, hi: nat) {
    && Tiles(s.ranges, lo, hi)
    && (forall r :: r in s.ranges ==> r.priority != Ignored)
    && |s.workers| > 0
    && (forall i :: 0 <= i < |s.workers| ==> s.workers[i] == Worker([], Waiting))
    && s.results == []
    && s.main == Checking(0)
  }

  /** Only the priorities that update_scan_ranges and mark_scanned give. */
  predicate OnlyHistoric(s: State) {
    forall r :: r in s.ranges ==> r.priority in {Historic, Scanned}
  }

  /** The state after a schedule; None when some action in it was not enabled. */
  function Run(s: State, schedule: seq<Action>): Option<State> {
    if schedule == [] then Some(s)
    else
      match Run(s, schedule[..|schedule| - 1])
      case Some(before) => Next(before, schedule[|schedule| - 1])
      case None => None
  }

  // ---- Accounting for ranges

  function One(hit: bool): nat {
    if hit then 1 else 0
  }

  /** How often `b` is marked Ignored. */
  function IgnoredCount(ranges: seq<ScanRange>, b: BlockRange): nat {
    if ranges == [] then 0
    else One(ranges[0] == ScanRange(b, Ignored)) + IgnoredCount(ranges[1..], b)
  }

  function QueueCount(tasks: seq<ScanTask>, b: BlockRange): nat {
    if tasks == [] then 0 else One(tasks[0].range.blocks == b) + QueueCount(tasks[1..], b)
  }

  function ResultCount(results: seq<ScanRange>, b: BlockRange): nat {
    if results == [] then 0 else One(results[0].blocks == b) + ResultCount(results[1..], b)
  }

  function WorkerCount(w: Worker, b: BlockRange): nat {
    QueueCount(w.queue, b)
    + match w.phase
      case Received(task) => One(task.range.blocks == b)
      case Scanning(task) => One(task.range.blocks == b)
      case _ => 0
  }

  function WorkersCount(workers: seq<Worker>, b: BlockRange): nat {
    if workers == [] then 0 else WorkerCount(workers[0], b) + WorkersCount(workers[1..], b)
  }

  /** How often `b` is being dispatched, queued to a worker, being scanned, or waiting in the result channel. */
  function InFlightCount(s: State, b: BlockRange): nat {
    (if s.main.Dispatching? || s.main.NoIdleWorkers? then One(s.main.task.range.blocks == b) else 0)
    + WorkersCount(s.workers, b)
    + ResultCount(s.results, b)
  }

  /** A task whose previous block, if it carries one, is among `stored`. */
  predicate HistoricTask(task: ScanTask, stored: set<nat>) {
    task.range.priority == Historic && PreviousIn(task, stored)
  }

  predicate WorkerHistoric(w: Worker, stored: set<nat>) {
    && (forall t :: t in w.queue ==> HistoricTask(t, stored))
    && (w.phase.Received? || w.phase.Scanning? ==> HistoricTask(w.phase.task, stored))
  }

  predicate NothingPending(ranges: seq<ScanRange>) {
    forall r :: r in ranges ==> !r.Pending()
  }

  predicate Closed(main: MainPhase) {
    main.Draining? || main.Done?
  }

  ghost predicate Accounted(s: State, lo: nat, hi: nat) {
    Tiles(s.ranges, lo, hi) && forall b :: IgnoredCount(s.ranges, b) == InFlightCount(s, b)
  }

  predicate AllExited(workers: seq<Worker>) {
    forall i :: 0 <= i < |workers| ==> workers[i].phase.Exited?
  }

  predicate ExitedIdle(workers: seq<Worker>) {
    forall i :: 0 <= i < |workers| && workers[i].phase.Exited? ==> workers[i].queue == []
  }

  predicate NoneExited(workers: seq<Worker>) {
    forall i :: 0 <= i < |workers| ==> !workers[i].phase.Exited?
  }

  /** How the main loop's phase constrains the rest. */
  predicate Phased(s: State) {
    && |s.workers| > 0
    && !s.main.RangeNotFound?
    && ExitedIdle(s.workers)
    && (if Closed(s.main) then NothingPending(s.ranges) else NoneExited(s.workers))
    && (s.main.Done? ==> s.results == [] && AllExited(s.workers))
  }

  /** What every reachable state keeps. */
  ghost predicate Inv(s: State, lo: nat, hi: nat) {
    Accounted(s, lo, hi) && Phased(s)
  }

  /** While only Historic ranges are scanned the wallet keeps no block of this sync: what it holds, and what tasks
      carry, is among the blocks `stored` before. */
  predicate HistoricInv(s: State, stored: set<nat>) {
    && s.walletBlocks <= stored
    && (forall r :: r in s.ranges ==> r.priority in {Historic, Ignored, Scanned})
    && (forall r :: r in s.results ==> r.priority == Historic)
    && (s.main.Dispatching? || s.main.NoIdleWorkers? ==> HistoricTask(s.main.task, stored))
    && (forall w :: w in s.workers ==> WorkerHistoric(w, stored))
  }

  // ---- Bookkeeping lemmas

  lemma {:induction false} PrepareIgnores(ranges: seq<ScanRange>, b: BlockRange)
    ensures var (task, after) := Prepare(ranges);
            && (task.None? ==> after == ranges && NothingPending(ranges))
            && (task.Some? ==>
                  IgnoredCount(after, b) == IgnoredCount(ranges, b) + One(task.value.blocks == b))
  {
    if ranges != [] {
      var (task, after) := Prepare(ranges);
      if ranges[0].Pending() {
        match ranges[0].SplitAt(ranges[0].blocks.start + BATCH_SIZE)
        case Some((lower, higher)) =>
          assert after[1..] == [higher] + ranges[1..];
          assert after[1..][1..] == ranges[1..];
        case None =>
          assert after[1..] == ranges[1..];
      } else {
        PrepareIgnores(ranges[1..], b);
        assert after[1..] == Prepare(ranges[1..]).1;
      }
    }
  }

  lemma {:induction false} IgnoredAbove(ranges: seq<ScanRange>, lo: nat, hi: nat, b: BlockRange)
    requires Tiles(ranges, lo, hi) && IgnoredCount(ranges, b) > 0
    ensures lo <= b.start < b.end
  {
    if ranges[0] != ScanRange(b, Ignored) {
      IgnoredAbove(ranges[1..], ranges[0].blocks.end, hi, b);
    }
  }

  /** In a tiling a block range occurs once, so marking an Ignored range settles exactly it. */
  lemma {:induction false} MarkSettles(ranges: seq<ScanRange>, lo: nat, hi: nat, blocks: BlockRange, b: BlockRange)
    requires Tiles(ranges, lo, hi) && IgnoredCount(ranges, blocks) > 0
    ensures Mark(ranges, blocks).Some?
    ensures IgnoredCount(Mark(ranges, blocks).value, b) == IgnoredCount(ranges, b) - One(b == blocks)
  {
    var tail := ranges[1..];
    if ranges[0].blocks == blocks {
      if IgnoredCount(tail, blocks) > 0 {
        IgnoredAbove(tail, ranges[0].blocks.end, hi, blocks);
      }
      assert ranges[0] == ScanRange(blocks, Ignored);
      assert Mark(ranges, blocks).value[1..] == tail;
    } else {
      MarkSettles(tail, ranges[0].blocks.end, hi, blocks, b);
      assert Mark(ranges, blocks).value[1..] == Mark(tail, blocks).value;
    }
  }

  lemma {:induction false} MarkKeepsSettled(ranges: seq<ScanRange>, blocks: BlockRange)
    requires Mark(ranges, blocks).Some?
    ensures NothingPending(ranges) ==> NothingPending(Mark(ranges, blocks).value)
    ensures forall r :: r in Mark(ranges, blocks).value ==> r.priority == Scanned || r in ranges
  {
    if ranges[0].blocks != blocks {
      MarkKeepsSettled(ranges[1..], blocks);
    }
  }

  lemma {:induction false} PrepareKeepsHistoric(ranges: seq<ScanRange>)
    requires forall r :: r in ranges ==> r.priority in {Historic, Ignored, Scanned}
    ensures var (task, after) := Prepare(ranges);
            && (task.Some? ==> task.value.priority == Historic)
            && forall r :: r in after ==> r.priority in {Historic, Ignored, Scanned}
  {
    if ranges != [] && !ranges[0].Pending() {
      PrepareKeepsHistoric(ranges[1..]);
    }
  }

  lemma {:induction false} QueueCountSnoc(tasks: seq<ScanTask>, task: ScanTask, b: BlockRange)
    ensures QueueCount(tasks + [task], b) == QueueCount(tasks, b) + One(task.range.blocks == b)
  {
    if tasks != [] {
      QueueCountSnoc(tasks[1..], task, b);
      assert (tasks + [task])[1..] == tasks[1..] + [task];
    } else {
      assert tasks + [task] == [task];
    }
  }

  lemma {:induction false} ResultCountSnoc(results: seq<ScanRange>, range: ScanRange, b: BlockRange)
    ensures ResultCount(results + [range], b) == ResultCount(results, b) + One(range.blocks == b)
  {
    if results != [] {
      ResultCountSnoc(results[1..], range, b);
      assert (results + [range])[1..] == results[1..] + [range];
    } else {
      assert results + [range] == [range];
    }
  }

  lemma {:induction false} WorkersCountUpdate(workers: seq<Worker>, i: nat, w: Worker, b: BlockRange)
    requires i < |workers|
    ensures WorkersCount(workers[i := w], b) + WorkerCount(workers[i], b)
         == WorkersCount(workers, b) + WorkerCount(w, b)
  {
    if i > 0 {
      WorkersCountUpdate(workers[1..], i - 1, w, b);
      assert workers[i := w][1..] == workers[1..][i - 1 := w];
      assert workers[1..][i - 1] == workers[i];
    } else {
      assert workers[i := w][1..] == workers[1..];
    }
  }

  lemma {:induction false} IdleWorkersHoldNothing(workers: seq<Worker>, b: BlockRange)
    requires forall i :: 0 <= i < |workers| ==>
               workers[i].queue == [] && (workers[i].phase.Waiting? || workers[i].phase.Exited?)
    ensures WorkersCount(workers, b) == 0
  {
    if workers != [] {
      IdleWorkersHoldNothing(workers[1..], b);
    }
  }

  lemma {:induction false} NothingIgnored(ranges: seq<ScanRange>, b: BlockRange)
    ensures IgnoredCount(ranges, b) == 0 <==> ScanRange(b, Ignored) !in ranges
  {
    if ranges != [] {
      NothingIgnored(ranges[1..], b);
    }
  }

  // ---- Safety

  lemma InitInv(s: State, lo: nat, hi: nat)
    requires Init(s, lo, hi)
    ensures Inv(s, lo, hi)
    ensures OnlyHistoric(s) ==> HistoricInv(s, s.walletBlocks)
  {
    forall b ensures IgnoredCount(s.ranges, b) == InFlightCount(s, b) {
      IdleWorkersHoldNothing(s.workers, b);
      NothingIgnored(s.ranges, b);
    }
  }

  lemma TakeResultInv(s: State, lo: nat, hi: nat, next: MainPhase)
    requires Inv(s, lo, hi) && s.results != []
    requires (s.main.Polling? && next == Checking(0)) || (s.main.Draining? && next == Draining)
    ensures Inv(TakeResult(s, next), lo, hi)
  {
    var blocks := s.results[0].blocks;
    var s' := TakeResult(s, next);
    assert InFlightCount(s, blocks) > 0;
    forall b ensures IgnoredCount(s'.ranges, b) == InFlightCount(s', b) {
      MarkSettles(s.ranges, lo, hi, blocks, b);
    }
    MarkSettles(s.ranges, lo, hi, blocks, blocks);
    MarkCovers(s.ranges, lo, hi, blocks);
    MarkKeepsSettled(s.ranges, blocks);
  }

  lemma CheckInv(s: State, lo: nat, hi: nat)
    requires Inv(s, lo, hi) && s.main.Checking?
    ensures Inv(MainNext(s).value, lo, hi)
  {
    var s' := MainNext(s).value;
    if s.main.next < |s.workers| && !s.workers[s.main.next].IsScanning() {
      var (task, after) := Prepare(s.ranges);
      PrepareTakes(s.ranges, lo, hi);
      PrepareIgnores(s.ranges, BlockRange(0, 0));
      assert s'.ranges == after && s'.workers == s.workers && s'.results == s.results;
      forall b ensures IgnoredCount(s'.ranges, b) == InFlightCount(s', b) {
        PrepareIgnores(s.ranges, b);
      }
    }
  }

  lemma DispatchInv(s: State, lo: nat, hi: nat)
    requires Inv(s, lo, hi) && s.main.Dispatching?
    ensures Inv(MainNext(s).value, lo, hi)
  {
    var s' := MainNext(s).value;
    var task, i := s.main.task, s.main.to;
    if i < |s.workers| && !s.workers[i].IsScanning() {
      forall b ensures IgnoredCount(s'.ranges, b) == InFlightCount(s', b) {
        QueueCountSnoc(s.workers[i].queue, task, b);
        WorkersCountUpdate(s.workers, i, s'.workers[i], b);
      }
    }
  }

  lemma MainStepInv(s: State, lo: nat, hi: nat)
    requires Inv(s, lo, hi) && MainNext(s).Some?
    ensures Inv(MainNext(s).value, lo, hi)
  {
    match s.main
    case Checking(_) => CheckInv(s, lo, hi);
    case Dispatching(_, _) => DispatchInv(s, lo, hi);
    case Polling => if s.results != [] { TakeResultInv(s, lo, hi, Checking(0)); }
    case Draining => if s.results != [] { TakeResultInv(s, lo, hi, Draining); }
  }

  lemma WorkerStepInv(s: State, i: nat, lo: nat, hi: nat)
    requires Inv(s, lo, hi) && WorkerNext(s, i).Some?
    ensures Inv(WorkerNext(s, i).value, lo, hi)
  {
    hide WorkerNext, IgnoredCount, InFlightCount, Tiles;
    var s' := WorkerNext(s, i).value;
    WorkerPhased(s, i);
    forall b ensures IgnoredCount(s'.ranges, b) == InFlightCount(s', b) {
      WorkerCarries(s, i, b);
    }
  }

  /** A worker's step only moves a range from one place to the next. */
  lemma WorkerCarries(s: State, i: nat, b: BlockRange)
    requires WorkerNext(s, i).Some?
    ensures InFlightCount(WorkerNext(s, i).value, b) == InFlightCount(s, b)
  {
    hide WorkersCount, ResultCount;
    var s' := WorkerNext(s, i).value;
    WorkersCountUpdate(s.workers, i, s'.workers[i], b);
    if s.workers[i].phase.Scanning? {
      ResultCountSnoc(s.results, s.workers[i].phase.task.range, b);
    }
  }

  lemma WorkerPhased(s: State, i: nat)
    requires Phased(s) && WorkerNext(s, i).Some?
    ensures var s' := WorkerNext(s, i).value; s'.ranges == s.ranges && Phased(s')
  {
  }

  lemma HistoricStep(s: State, a: Action, stored: set<nat>)
    requires HistoricInv(s, stored) && Next(s, a).Some?
    ensures HistoricInv(Next(s, a).value, stored)
  {
    var s' := Next(s, a).value;
    if a.WorkerStep? {
      assert s.workers[a.i] in s.workers;
    } else {
      PrepareKeepsHistoric(s.ranges);
      if (s.main.Polling? || s.main.Draining?) && s.results != [] {
        if Mark(s.ranges, s.results[0].blocks).Some? {
          MarkKeepsSettled(s.ranges, s.results[0].blocks);
        }
        assert s'.walletBlocks <= s.walletBlocks;
      }
      if s.main.Dispatching? && s.main.to < |s.workers| {
        assert s.workers[s.main.to] in s.workers;
      }
    }
  }

  lemma {:induction false} RunKeepsInv(s: State, schedule: seq<Action>, lo: nat, hi: nat)
    requires Init(s, lo, hi) && Run(s, schedule).Some?
    ensures Inv(Run(s, schedule).value, lo, hi)
    ensures OnlyHistoric(s) ==> HistoricInv(Run(s, schedule).value, s.walletBlocks)
  {
    if schedule == [] {
      InitInv(s, lo, hi);
    } else {
      var before := schedule[..|schedule| - 1];
      RunKeepsInv(s, before, lo, hi);
      var t := Run(s, before).value;
      var a := schedule[|schedule| - 1];
      if a.MainStep? { MainStepInv(t, lo, hi); } else { WorkerStepInv(t, a.i, lo, hi); }
      if OnlyHistoric(s) {
        HistoricStep(t, a, s.walletBlocks);
      }
    }
  }

  /** Under every interleaving: a block range is marked Ignored exactly as often (never or once) as it is being
      dispatched, queued to a worker, being scanned, or waiting in the result channel; the covered heights never
      change; mark_scanned always finds its range; and once the result channel closes every range is Scanned. */
  lemma EveryInterleaving(s: State, schedule: seq<Action>, lo: nat, hi: nat)
    requires Init(s, lo, hi) && Run(s, schedule).Some?
    ensures var t := Run(s, schedule).value;
            && (forall b :: InFlightCount(t, b) == if ScanRange(b, Ignored) in t.ranges then 1 else 0)
            && Tiles(t.ranges, lo, hi)
            && t.main != RangeNotFound
            && (t.main == Done ==> forall r :: r in t.ranges ==> r.priority == Scanned)
  {
    RunKeepsInv(s, schedule, lo, hi);
    var t := Run(s, schedule).value;
    forall b ensures InFlightCount(t, b) == if ScanRange(b, Ignored) in t.ranges then 1 else 0 {
      NothingIgnored(t.ranges, b);
      IgnoredOnce(t.ranges, lo, hi, b);
    }
    if t.main == Done {
      forall r | r in t.ranges ensures r.priority == Scanned {
        IdleWorkersHoldNothing(t.workers, r.blocks);
        assert InFlightCount(t, r.blocks) == 0;
      }
    }
  }

  lemma {:induction false} IgnoredOnce(ranges: seq<ScanRange>, lo: nat, hi: nat, b: BlockRange)
    requires Tiles(ranges, lo, hi)
    ensures IgnoredCount(ranges, b) <= 1
  {
    if ranges != [] {
      IgnoredOnce(ranges[1..], ranges[0].blocks.end, hi, b);
      if IgnoredCount(ranges[1..], b) > 0 {
        IgnoredAbove(ranges[1..], ranges[0].blocks.end, hi, b);
      }
    }
  }

  /** No block a sync stores is ever seen by its tasks: each result's own blocks are dropped as soon as they are stored.
      A task can only carry a block stored before the sync, so in a wallet without blocks no scan checks hash continuity
      with the range below. */
  lemma NoTaskSeesABlockOfTheSync(s: State, schedule: seq<Action>, lo: nat, hi: nat)
    requires Init(s, lo, hi) && OnlyHistoric(s) && Run(s, schedule).Some?
    ensures var t, stored := Run(s, schedule).value, s.walletBlocks;
            && t.walletBlocks <= stored
            && (t.main.Dispatching? || t.main.NoIdleWorkers? ==> PreviousIn(t.main.task, stored))
            && (forall w, task :: w in t.workers && task in w.queue ==> PreviousIn(task, stored))
            && (forall w :: w in t.workers && (w.phase.Received? || w.phase.Scanning?) ==>
                  PreviousIn(w.phase.task, stored))
  {
    RunKeepsInv(s, schedule, lo, hi);
    var t := Run(s, schedule).value;
    forall w, task | w in t.workers && task in w.queue ensures PreviousIn(task, s.walletBlocks) {
      assert WorkerHistoric(w, s.walletBlocks);
    }
    forall w | w in t.workers && (w.phase.Received? || w.phase.Scanning?)
      ensures PreviousIn(w.phase.task, s.walletBlocks)
    {
      assert WorkerHistoric(w, s.walletBlocks);
    }
  }

  /** A task is given the stored block just below its range, if and only if there is one. */
  lemma TaskCarriesTheBlockBelow(s: State)
    requires s.main.Checking? && MainNext(s).Some? && MainNext(s).value.main.Dispatching?
    ensures var task := MainNext(s).value.main.task;
            && Prepare(s.ranges).0 == Some(task.range)
            && (task.previousBlock.Some? ==>
                  task.previousBlock.value in s.walletBlocks && task.previousBlock.value + 1 == task.range.blocks.start)
            && (forall h :: h in s.walletBlocks && h + 1 == task.range.blocks.start ==> task.previousBlock == Some(h))
  {
  }

  /** Taking a Historic result off the channel leaves only blocks from the end of its range on, so none of its own; of
      any other the blocks are kept. */
  lemma ResultDropsItsOwnBlocks(s: State, next: MainPhase, h: nat)
    requires s.results != []
    ensures var range := s.results[0];
            h in TakeResult(s, next).walletBlocks <==>
            if range.priority == Historic then h in s.walletBlocks && h >= range.blocks.end
            else h in s.walletBlocks || range.blocks.start <= h < range.blocks.end
  {
  }

  predicate PreviousIn(task: ScanTask, stored: set<nat>) {
    task.previousBlock.Some? ==> task.previousBlock.value in stored
  }

  // ---- The "no idle workers!" panic

  /** `s` is past a positive is_worker_idle, and no worker at or after index `to` is sure to stay idle. */
  predicate AllBusyOrPending(workers: seq<Worker>, to: nat) {
    forall k :: to <= k < |workers| ==> !workers[k].Quiescent()
  }

  /** A schedule during which the main loop stays inside add_scan_task until it panics. */
  predicate PanicsWhileDispatching(s: State, schedule: seq<Action>)
    requires s.main.Dispatching?
    decreases |schedule|
  {
    if schedule == [] then false
    else
      match Next(s, schedule[0])
      case None => false
      case Some(s') =>
        s'.main.NoIdleWorkers? || (s'.main.Dispatching? && PanicsWhileDispatching(s', schedule[1..]))
  }

  ghost predicate CanPanic(s: State)
    requires s.main.Dispatching?
  {
    exists schedule :: PanicsWhileDispatching(s, schedule)
  }

  /** A worker that is waiting with an empty queue stays so until the main loop sends to it. */
  lemma {:induction false} QuiescentWorkerPreventsPanic(s: State, schedule: seq<Action>, k: nat)
    requires s.main.Dispatching? && s.main.to <= k < |s.workers| && s.workers[k].Quiescent()
    ensures !PanicsWhileDispatching(s, schedule)
    decreases |schedule|
  {
    if schedule != [] && Next(s, schedule[0]).Some? {
      var s' := Next(s, schedule[0]).value;
      if s'.main.Dispatching? {
        QuiescentWorkerPreventsPanic(s', schedule[1..], k);
      }
    }
  }

  /** Steps worker `to` must take before its flag reads true. */
  function StepsToBusy(w: Worker): nat {
    match w.phase
    case Waiting => 2
    case Received(_) => 1
    case _ => 0
  }

  /** If every remaining worker is busy or has a task waiting, the workers can all raise their flags first. */
  lemma {:induction false} PanicSchedule(s: State, lo: nat, hi: nat) returns (schedule: seq<Action>)
    requires Inv(s, lo, hi) && s.main.Dispatching? && AllBusyOrPending(s.workers, s.main.to)
    ensures PanicsWhileDispatching(s, schedule)
    decreases |s.workers| - s.main.to, if s.main.to < |s.workers| then StepsToBusy(s.workers[s.main.to]) else 0
  {
    var to := s.main.to;
    if to >= |s.workers| {
      return [MainStep];
    }
    var a := if s.workers[to].IsScanning() then MainStep else WorkerStep(to);
    var s' := Next(s, a).value;
    if a.MainStep? { MainStepInv(s, lo, hi); } else { WorkerStepInv(s, to, lo, hi); }
    var rest := PanicSchedule(s', lo, hi);
    schedule := [a] + rest;
    assert schedule[1..] == rest;
  }

  /** The panic in add_scan_task is possible exactly when no worker whose flag is still to be read is waiting
      with an empty queue: is_worker_idle also answers true for a worker that has a task but has not set its flag. */
  lemma PanicIffNoQuiescentWorker(s: State, lo: nat, hi: nat)
    requires Inv(s, lo, hi) && s.main.Dispatching?
    ensures CanPanic(s) <==> AllBusyOrPending(s.workers, s.main.to)
  {
    if AllBusyOrPending(s.workers, s.main.to) {
      var schedule := PanicSchedule(s, lo, hi);
      assert PanicsWhileDispatching(s, schedule);
    } else {
      var k :| s.main.to <= k < |s.workers| && s.workers[k].Quiescent();
      forall schedule ensures !PanicsWhileDispatching(s, schedule) {
        QuiescentWorkerPreventsPanic(s, schedule, k);
      }
    }
  }

  /** `schedule` leads from `s` to `t`. */
  predicate Leads(s: State, schedule: seq<Action>, t: State) {
    Run(s, schedule) == Some(t)
  }

  lemma RunStep(s: State, schedule: seq<Action>, t: State, a: Action, t': State) returns (longer: seq<Action>)
    requires Leads(s, schedule, t) && Next(t, a) == Some(t')
    ensures Leads(s, longer, t')
  {
    longer := schedule + [a];
    assert longer[..|schedule|] == schedule;
  }

  /** Reading raised flags moves the check, or the dispatch, on to worker `to`. */
  lemma {:induction false} RunReadFlags(s: State, schedule: seq<Action>, t: State, to: nat)
    returns (longer: seq<Action>)
    requires Leads(s, schedule, t) && to <= |t.workers| && forall i :: 0 <= i < to ==> t.workers[i].IsScanning()
    requires t.main == Checking(0) || (t.main.Dispatching? && t.main.to == 0)
    ensures Leads(s, longer, t.(main := if t.main.Checking? then Checking(to) else Dispatching(t.main.task, to)))
  {
    if to == 0 {
      longer := schedule;
    } else {
      longer := RunReadFlags(s, schedule, t, to - 1);
      var at := t.(main := if t.main.Checking? then Checking(to - 1) else Dispatching(t.main.task, to - 1));
      var next := t.(main := if t.main.Checking? then Checking(to) else Dispatching(t.main.task, to));
      longer := RunStep(s, longer, at, MainStep, next);
    }
  }

  /** From a check to the next task sent to worker `to`, whose flag is the first to read idle. */
  lemma RunDispatch(s: State, schedule: seq<Action>, t: State, to: nat) returns (longer: seq<Action>, u: State)
    requires Leads(s, schedule, t) && t.main == Checking(0) && to < |t.workers| && !t.workers[to].IsScanning()
    requires forall i :: 0 <= i < to ==> t.workers[i].IsScanning()
    requires Prepare(t.ranges).0.Some?
    ensures Leads(s, longer, u) && u.main.Dispatching? && u.main.to == to
    ensures u == t.(ranges := Prepare(t.ranges).1, main := u.main)
  {
    longer := RunReadFlags(s, schedule, t, to);
    var (range, ranges) := Prepare(t.ranges);
    var task := ScanTask(range.value, PreviousBlock(t, range.value));
    u := t.(ranges := ranges, main := Dispatching(task, 0));
    longer := RunStep(s, longer, t.(main := Checking(to)), MainStep, u);
    longer := RunReadFlags(s, longer, u, to);
    u := u.(main := Dispatching(task, to));
  }

  /** Sending the task and polling the empty result channel brings the main loop back to its check. */
  lemma RunSend(s: State, schedule: seq<Action>, t: State) returns (longer: seq<Action>)
    requires Leads(s, schedule, t) && t.main.Dispatching? && t.results == []
    requires t.main.to < |t.workers| && t.workers[t.main.to] == Worker([], Waiting)
    ensures Leads(s, longer, t.(workers := t.workers[t.main.to := Worker([t.main.task], Waiting)], main := Checking(0)))
  {
    var u := t.(workers := t.workers[t.main.to := Worker([t.main.task], Waiting)], main := Polling);
    assert t.workers[t.main.to].queue + [t.main.task] == [t.main.task];
    longer := RunStep(s, schedule, t, MainStep, u);
    longer := RunStep(s, longer, u, MainStep, u.(main := Checking(0)));
  }

  /** Worker `i` takes its only task and raises its flag. */
  lemma RunStart(s: State, schedule: seq<Action>, t: State, i: nat, task: ScanTask) returns (longer: seq<Action>)
    requires Leads(s, schedule, t) && i < |t.workers| && t.workers[i] == Worker([task], Waiting)
    requires !t.main.NoIdleWorkers? && !t.main.RangeNotFound?
    ensures Leads(s, longer, t.(workers := t.workers[i := Worker([], Scanning(task))]))
  {
    var u := t.(workers := t.workers[i := Worker([], Received(task))]);
    assert t.workers[i].queue[1..] == [];
    longer := RunStep(s, schedule, t, WorkerStep(i), u);
    assert u.workers[i := Worker([], Scanning(task))] == t.workers[i := Worker([], Scanning(task))];
    longer := RunStep(s, longer, u, WorkerStep(i), t.(workers := t.workers[i := Worker([], Scanning(task))]));
  }

  /** The main loop is about to check, the first `k` workers are scanning and the others were never used. */
  predicate FirstBusy(t: State, k: nat) {
    && t.main == Checking(0) && t.results == [] && k <= |t.workers|
    && (forall i :: 0 <= i < k ==> t.workers[i].IsScanning())
    && (forall i :: k <= i < |t.workers| ==> t.workers[i] == Worker([], Waiting))
  }

  /** With enough tasks, the first `k` workers can all be scanning one. */
  lemma {:induction false} RunFirstBusy(s: State, lo: nat, hi: nat, k: nat) returns (schedule: seq<Action>, t: State)
    requires Init(s, lo, hi) && k <= |s.workers| && k <= TaskCount(s.ranges)
    ensures Leads(s, schedule, t) && FirstBusy(t, k) && |t.workers| == |s.workers|
    ensures Tiles(t.ranges, lo, hi) && TaskCount(t.ranges) == TaskCount(s.ranges) - k
  {
    if k == 0 {
      schedule, t := [], s;
    } else {
      hide TaskCount, Tiles, Leads, Init, FirstBusy;
      schedule, t := RunFirstBusy(s, lo, hi, k - 1);
      schedule, t := RunOneMoreBusy(s, schedule, t, lo, hi, k - 1);
    }
  }

  lemma RunOneMoreBusy(s: State, schedule: seq<Action>, t: State, lo: nat, hi: nat, k: nat)
    returns (longer: seq<Action>, u: State)
    requires Leads(s, schedule, t) && FirstBusy(t, k) && k < |t.workers|
    requires Tiles(t.ranges, lo, hi) && TaskCount(t.ranges) > 0
    ensures Leads(s, longer, u) && FirstBusy(u, k + 1) && |u.workers| == |t.workers|
    ensures Tiles(u.ranges, lo, hi) && TaskCount(u.ranges) == TaskCount(t.ranges) - 1
  {
    hide TaskCount, Tiles, Leads;
    longer, u := RunSendTo(s, schedule, t, lo, hi, k);
    var task := u.workers[k].queue[0];
    longer := RunStart(s, longer, u, k, task);
    u := u.(workers := u.workers[k := Worker([], Scanning(task))]);
  }

  /** One more task, to the first unused worker, which has not taken it yet. */
  lemma RunSendTo(s: State, schedule: seq<Action>, t: State, lo: nat, hi: nat, k: nat)
    returns (longer: seq<Action>, u: State)
    requires Leads(s, schedule, t) && FirstBusy(t, k) && k < |t.workers|
    requires Tiles(t.ranges, lo, hi) && TaskCount(t.ranges) > 0
    ensures Leads(s, longer, u) && u.main == Checking(0) && u.results == [] && |u.workers| == |t.workers|
    ensures |u.workers[k].queue| == 1
    ensures u == t.(ranges := u.ranges, workers := t.workers[k := Worker(u.workers[k].queue, Waiting)])
    ensures Tiles(u.ranges, lo, hi) && TaskCount(u.ranges) == TaskCount(t.ranges) - 1
  {
    PrepareConsumes(t.ranges, lo, hi);
    PrepareTakes(t.ranges, lo, hi);
    longer, u := RunDispatch(s, schedule, t, k);
    longer := RunSend(s, longer, u);
    u := u.(workers := u.workers[k := Worker([u.main.task], Waiting)], main := Checking(0));
  }

  /** With more tasks than workers the panic is reachable: the last worker's flag still reads idle when one more task is
      prepared, and then all flags read busy. */
  lemma PanicIsReachable(s: State, lo: nat, hi: nat) returns (schedule: seq<Action>)
    requires Init(s, lo, hi) && TaskCount(s.ranges) > |s.workers|
    ensures Run(s, schedule).Some? && Run(s, schedule).value.main.NoIdleWorkers?
  {
    hide TaskCount, Tiles, Leads, Prepare;
    var t, last := s, |s.workers| - 1;
    schedule, t := RunFirstBusy(s, lo, hi, last);
    schedule, t := RunSendTo(s, schedule, t, lo, hi, last);
    var task := t.workers[last].queue[0];
    PrepareConsumes(t.ranges, lo, hi);
    schedule, t := RunDispatch(s, schedule, t, last);
    assert t.workers[last] == Worker([task], Waiting);
    schedule := RunStart(s, schedule, t, last, task);
    schedule := RunPastLast(s, schedule, t.(workers := t.workers[last := Worker([], Scanning(task))]));
  }

  /** The last flag read during a dispatch is raised, too. */
  lemma RunPastLast(s: State, schedule: seq<Action>, t: State) returns (longer: seq<Action>)
    requires Leads(s, schedule, t) && t.main.Dispatching? && t.main.to == |t.workers| - 1
    requires t.workers[t.main.to].IsScanning()
    ensures Run(s, longer).Some? && Run(s, longer).value.main.NoIdleWorkers?
  {
    var next, past := t.main.task, t.(main := Dispatching(t.main.task, |t.workers|));
    longer := RunStep(s, schedule, t, MainStep, past);
    longer := RunStep(s, longer, past, MainStep, t.(main := NoIdleWorkers(next)));
  }

  function QuiescentCount(workers: seq<Worker>): nat {
    if workers == [] then 0 else One(workers[0].Quiescent()) + QuiescentCount(workers[1..])
  }

  lemma {:induction false} QuiescentUpdate(workers: seq<Worker>, i: nat, w: Worker)
    requires i < |workers|
    ensures QuiescentCount(workers[i := w]) + One(workers[i].Quiescent())
              == QuiescentCount(workers) + One(w.Quiescent())
  {
    if i > 0 {
      QuiescentUpdate(workers[1..], i - 1, w);
      assert workers[i := w][1..] == workers[1..][i - 1 := w];
    } else {
      assert workers[i := w][1..] == workers[1..];
    }
  }

  lemma {:induction false} SomeQuiescent(workers: seq<Worker>) returns (k: nat)
    requires QuiescentCount(workers) > 0
    ensures k < |workers| && workers[k].Quiescent()
  {
    if workers[0].Quiescent() {
      k := 0;
    } else {
      k := SomeQuiescent(workers[1..]);
      k := k + 1;
    }
  }

  lemma {:induction false} AllQuiescent(workers: seq<Worker>)
    requires forall i :: 0 <= i < |workers| ==> workers[i] == Worker([], Waiting)
    ensures QuiescentCount(workers) == |workers|
  {
    if workers != [] {
      AllQuiescent(workers[1..]);
    }
  }

  /** There is an unused worker for every task still to be sent, and the dispatch has not passed all of them. */
  predicate WorkersToSpare(s: State) {
    && !s.main.NoIdleWorkers?
    && (Closed(s.main) || QuiescentCount(s.workers) >= TaskCount(s.ranges) + One(s.main.Dispatching?))
    && (s.main.Dispatching? ==> exists k :: s.main.to <= k < |s.workers| && s.workers[k].Quiescent())
  }

  lemma SpareWorker(s: State, i: nat)
    requires WorkersToSpare(s) && WorkerNext(s, i).Some?
    ensures WorkersToSpare(WorkerNext(s, i).value)
  {
    hide TaskCount, QuiescentCount;
    var t := WorkerNext(s, i).value;
    QuiescentUpdate(s.workers, i, t.workers[i]);
    if s.main.Dispatching? {
      var k :| s.main.to <= k < |s.workers| && s.workers[k].Quiescent();
      assert t.workers[k].Quiescent();
    }
  }

  lemma SpareDispatch(s: State)
    requires WorkersToSpare(s) && s.main.Dispatching?
    ensures WorkersToSpare(MainNext(s).value)
  {
    hide TaskCount, QuiescentCount;
    var t, to := MainNext(s).value, s.main.to;
    var k :| to <= k < |s.workers| && s.workers[k].Quiescent();
    if s.workers[to].IsScanning() {
      assert t.workers[k].Quiescent();
    } else {
      QuiescentUpdate(s.workers, to, t.workers[to]);
    }
  }

  lemma SpareStep(s: State, a: Action, lo: nat, hi: nat)
    requires Inv(s, lo, hi) && WorkersToSpare(s) && Next(s, a).Some?
    ensures WorkersToSpare(Next(s, a).value)
  {
    hide TaskCount, QuiescentCount, Accounted;
    match a
    case WorkerStep(i) => SpareWorker(s, i);
    case MainStep =>
      match s.main {
        case Checking(_) => SpareCheck(s, lo, hi);
        case Dispatching(_, _) => SpareDispatch(s);
        case Polling => if s.results != [] { SpareResult(s, Checking(0), lo, hi); }
        case Draining => if s.results != [] { TakeResultInv(s, lo, hi, Draining); }
        case _ =>
      }
  }

  lemma SpareCheck(s: State, lo: nat, hi: nat)
    requires Inv(s, lo, hi) && WorkersToSpare(s) && s.main.Checking?
    ensures WorkersToSpare(MainNext(s).value)
  {
    PrepareConsumes(s.ranges, lo, hi);
    var t := MainNext(s).value;
    if t.main.Dispatching? {
      var k := SomeQuiescent(s.workers);
      assert t.workers[k].Quiescent();
    }
  }

  lemma SpareResult(s: State, next: MainPhase, lo: nat, hi: nat)
    requires Inv(s, lo, hi) && WorkersToSpare(s) && s.main.Polling? && s.results != [] && next == Checking(0)
    ensures WorkersToSpare(TakeResult(s, next))
  {
    ResultWork(s, next, lo, hi);
  }

  lemma {:induction false} FewTasksNeverPanic(s: State, schedule: seq<Action>, lo: nat, hi: nat)
    requires Init(s, lo, hi) && TaskCount(s.ranges) <= |s.workers| && Run(s, schedule).Some?
    ensures WorkersToSpare(Run(s, schedule).value)
  {
    if schedule == [] {
      AllQuiescent(s.workers);
    } else {
      var before := schedule[..|schedule| - 1];
      FewTasksNeverPanic(s, before, lo, hi);
      RunKeepsInv(s, before, lo, hi);
      SpareStep(Run(s, before).value, schedule[|schedule| - 1], lo, hi);
    }
  }

  /** Some interleaving of the sync ends in the "no idle workers" panic. */
  ghost predicate SyncCanPanic(s: State) {
    exists schedule :: Run(s, schedule).Some? && Run(s, schedule).value.main.NoIdleWorkers?
  }

  /** A sync can end in that panic if and only if it has more tasks than workers, whatever their number. */
  lemma SyncCanPanicIffMoreTasksThanWorkers(s: State, lo: nat, hi: nat)
    requires Init(s, lo, hi)
    ensures SyncCanPanic(s) <==> TaskCount(s.ranges) > |s.workers|
  {
    if TaskCount(s.ranges) > |s.workers| {
      var schedule := PanicIsReachable(s, lo, hi);
    } else {
      forall schedule | Run(s, schedule).Some? ensures !Run(s, schedule).value.main.NoIdleWorkers? {
        FewTasksNeverPanic(s, schedule, lo, hi);
      }
    }
  }

  // ---- Progress

  /** Actions that do more than look: everything but reading a raised flag or an empty result channel. */
  predicate Useful(s: State, a: Action) {
    a.WorkerStep? ||
    match s.main
    case Checking(i) => i < |s.workers| && !s.workers[i].IsScanning()
    case Dispatching(_, _) => true
    case Polling => s.results != []
    case _ => true
  }

  function WorkerWork(w: Worker): nat {
    5 * |w.queue| +
    match w.phase
    case Waiting => 1
    case Received(_) => 5
    case Scanning(_) => 4
    case Reported => 2
    case Exited => 0
  }

  function WorkersWork(workers: seq<Worker>): nat {
    if workers == [] then 0 else WorkerWork(workers[0]) + WorkersWork(workers[1..])
  }

  /** What handing out, scanning and marking `tasks` more tasks can take. */
  function TasksWork(workers: nat, tasks: nat): nat {
    if tasks == 0 then 0 else 8 + workers + TasksWork(workers, tasks - 1)
  }

  /** Bounds the useful actions still to come. */
  function Work(s: State): nat {
    TasksWork(|s.workers|, TaskCount(s.ranges)) + WorkersWork(s.workers) + |s.results| +
    match s.main
    case Dispatching(_, i) => 7 + if i <= |s.workers| then |s.workers| - i else 0
    case Draining => 1
    case Done => 0
    case NoIdleWorkers(_) => 0
    case RangeNotFound => 0
    case _ => 2
  }

  lemma {:induction false} WorkersWorkUpdate(workers: seq<Worker>, i: nat, w: Worker)
    requires i < |workers|
    ensures WorkersWork(workers[i := w]) + WorkerWork(workers[i]) == WorkersWork(workers) + WorkerWork(w)
  {
    if i > 0 {
      WorkersWorkUpdate(workers[1..], i - 1, w);
      assert workers[i := w][1..] == workers[1..][i - 1 := w];
      assert workers[1..][i - 1] == workers[i];
    } else {
      assert workers[i := w][1..] == workers[1..];
    }
  }

  lemma {:induction false} MarkKeepsTaskCount(ranges: seq<ScanRange>, lo: nat, hi: nat, blocks: BlockRange)
    requires Tiles(ranges, lo, hi) && IgnoredCount(ranges, blocks) > 0 && Mark(ranges, blocks).Some?
    ensures TaskCount(Mark(ranges, blocks).value) == TaskCount(ranges)
  {
    if ranges[0].blocks != blocks {
      MarkKeepsTaskCount(ranges[1..], ranges[0].blocks.end, hi, blocks);
      assert Mark(ranges, blocks).value[1..] == Mark(ranges[1..], blocks).value;
    } else {
      if ranges[0].Pending() {
        IgnoredAbove(ranges[1..], ranges[0].blocks.end, hi, blocks);
      }
      assert Mark(ranges, blocks).value[1..] == ranges[1..];
    }
  }

  lemma WorkerStepWork(s: State, i: nat)
    requires WorkerNext(s, i).Some?
    ensures Work(WorkerNext(s, i).value) < Work(s)
  {
    var s' := WorkerNext(s, i).value;
    var w, w' := s.workers[i], s'.workers[i];
    assert s'.workers == s.workers[i := w'];
    assert WorkerWork(w') + |s'.results| < WorkerWork(w) + |s.results|;
    WorkersWorkUpdate(s.workers, i, w');
    assert WorkersWork(s'.workers) + |s'.results| < WorkersWork(s.workers) + |s.results|;
    assert s'.ranges == s.ranges && s'.main == s.main && |s'.workers| == |s.workers|;
  }

  lemma CheckWork(s: State, lo: nat, hi: nat)
    requires Inv(s, lo, hi) && s.main.Checking?
    ensures Useful(s, MainStep) ==> Work(MainNext(s).value) < Work(s)
  {
    PrepareConsumes(s.ranges, lo, hi);
    PrepareIgnores(s.ranges, BlockRange(0, 0));
  }

  lemma ResultWork(s: State, next: MainPhase, lo: nat, hi: nat)
    requires Inv(s, lo, hi) && s.results != [] && !s.main.Dispatching?
    ensures var t := TakeResult(s, next);
            TaskCount(t.ranges) == TaskCount(s.ranges) && t.workers == s.workers && |t.results| == |s.results| - 1
            && t.main == next
  {
    var blocks := s.results[0].blocks;
    assert InFlightCount(s, blocks) > 0;
    MarkSettles(s.ranges, lo, hi, blocks, blocks);
    MarkKeepsTaskCount(s.ranges, lo, hi, blocks);
  }

  /** Useful actions use up Work and the others leave everything but the main loop's position alone,
      so a run has at most Work(s) useful actions. */
  lemma StepWork(s: State, a: Action, lo: nat, hi: nat)
    requires Inv(s, lo, hi) && Next(s, a).Some?
    ensures Useful(s, a) ==> Work(Next(s, a).value) < Work(s)
    ensures !Useful(s, a) ==> Work(Next(s, a).value) == Work(s) && Next(s, a).value == s.(main := Next(s, a).value.main)
  {
    if a.WorkerStep? {
      WorkerStepWork(s, a.i);
    } else {
      match s.main
      case Checking(_) => CheckWork(s, lo, hi);
      case Dispatching(_, i) =>
        if i < |s.workers| && !s.workers[i].IsScanning() {
          WorkersWorkUpdate(s.workers, i, MainNext(s).value.workers[i]);
        }
      case Polling => if s.results != [] { ResultWork(s, Checking(0), lo, hi); }
      case Draining => if s.results != [] { ResultWork(s, Draining, lo, hi); }
    }
  }

  /** How many actions of a schedule are useful. */
  function UsefulCount(s: State, schedule: seq<Action>): nat
    requires Run(s, schedule).Some?
  {
    if schedule == [] then 0
    else
      var before := schedule[..|schedule| - 1];
      UsefulCount(s, before) + One(Useful(Run(s, before).value, schedule[|schedule| - 1]))
  }

  /** However the threads interleave, a sync performs at most Work(s) actions that are not mere polling. */
  lemma {:induction false} UsefulActionsBounded(s: State, schedule: seq<Action>, lo: nat, hi: nat)
    requires Init(s, lo, hi) && Run(s, schedule).Some?
    ensures UsefulCount(s, schedule) + Work(Run(s, schedule).value) <= Work(s)
  {
    if schedule != [] {
      var before := schedule[..|schedule| - 1];
      UsefulActionsBounded(s, before, lo, hi);
      RunKeepsInv(s, before, lo, hi);
      StepWork(Run(s, before).value, schedule[|schedule| - 1], lo, hi);
    }
  }

  /** No deadlock: in every state short of Done and the panic, some worker can move, or the main loop reaches
      a useful action on its own within two steps. */
  lemma SomeoneCanMove(s: State, lo: nat, hi: nat)
    requires Inv(s, lo, hi) && !s.main.Done? && !s.main.NoIdleWorkers?
    requires forall i :: 0 <= i < |s.workers| ==> WorkerNext(s, i).None?
    ensures MainNext(s).Some?
    ensures Useful(s, MainStep)
         || (MainNext(s).value.main.Checking? && Useful(MainNext(s).value, MainStep))
         || (MainNext(s).value.main == Polling && MainNext(MainNext(s).value).Some?
             && (Useful(MainNext(s).value, MainStep) || Useful(MainNext(MainNext(s).value).value, MainStep)))
  {
    if Closed(s.main) {
      forall i | 0 <= i < |s.workers| ensures s.workers[i].phase.Exited? {
        assert WorkerNext(s, i).None?;
      }
    } else {
      forall i | 0 <= i < |s.workers| ensures s.workers[i].Quiescent() {
        assert WorkerNext(s, i).None?;
      }
    }
  }
}
