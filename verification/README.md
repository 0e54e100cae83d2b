# Zingo wallet synchronisation: a Dafny model

Zingo is a Zcash light wallet. This project models the parts of it where several loops, tasks or index computations
must agree, and proves that they do, or exactly when they do.

- **New sync engine** (`ScanRanges`, `ScanProtocol`, `FetchQueue`): the list of block ranges is extended, split into tasks
  of ten blocks, handed to workers over channels and marked scanned as results return. The protocol is a step relation in
  which every read of a worker's flag is a step of its own, so all interleavings are covered.
- **Block scanner** (`CompactBlocks`, `ChainSlots`, `TrialDecryption`, `BatchRunners`, `Scan`, `Scanner`): outputs are
  decrypted in batches on a thread pool, while leaves, positions and tree sizes are computed separately. `Scan` defines the
  outcome output by output; `Scanner` holds the loops and proves them equal to it.
- **Old sync engine** (`Reorg`, `BlockCache`, `TreeVerification`, `Witnesses`, `WitnessPositions`, `SyncBatches`): the
  fetcher and the block manager exchange reorg messages until the chains join; descending block lists are indexed by
  `top - height`; tree states are verified against the nearest lower one; witness trees take a batch's commitments.
- **Transparent transactions** (`TaddrMerge`): a k-way merge by height and the order check behind it.
- **Memos** (`CompactSizes`, `Memo`, `MemoIO`): the wallet-internal memo, written and parsed.
- **Accounting and sending** (`TransactionStatus`, `Balances`, `Transfers`, `Broadcast`).

Objects that the source updates in place are classes whose methods are proved against functions of the state; loops are
methods with invariants. Hashes, transaction ids, commitments and nullifiers are opaque numbers; decryption, nullifier
derivation and address validity are arbitrary functions. A commitment tree is the sequence of its leaves. The server is one
hash-linked chain, and equal hashes mean equal blocks.

`dafny verify dfyconfig.toml` checks the whole project.

## What does not hold

- `is_worker_idle` also answers true for a worker that has a task but has not set its flag. The scanner's "no idle workers"
  panic can therefore end a sync, if and only if it has more tasks than workers
  (`ScanProtocol.SyncCanPanicIffMoreTasksThanWorkers`; within a dispatch, `ScanProtocol.PanicIffNoQuiescentWorker`).
- Removing irrelevant data after a result removes the result's own blocks, so no scan task ever checks hash continuity with
  a range scanned in the same sync (`ScanProtocol.NoTaskSeesABlockOfTheSync`).
- A second sync panics if and only if the tip has not advanced (`ScanRanges.UpdatePanicsIffTipNotAdvanced`).
- A block with outputs gets a checkpoint in a pool if and only if its last transaction has outputs there
  (`Scan.BlockCheckpoint`).
- A wrong tree state passes `verify_tree_pair` if and only if the state it is compared with lies below the batch's blocks, the
  chain has no Orchard commitment yet, or the tolerant comparison matches some encoding with the chain's Orchard tree: the
  fallback does not look at the Sapling tree again (`TreeVerification.WrongStatePassesIff`).
- The tree states downloaded with any batch but a sync's last are never checked, and of those of the last batch only the first
  of each height is. All states of a batch are checked if and only if there are none, or the batch is the last and no two of
  them differ at one height (`TreeVerification.VerifyTrees`, `TreeVerification.OneOfTwoStatesIsNotChecked`).
- A checked state need not have been compared with anything: all are if and only if the wallet has a verified tree that is below
  the lowest of them and that the last batch's blocks reach (`TreeVerification.AllAreFoldedIff`,
  `TreeVerification.UnfoldedPasses`).
- A failed batch takes a wallet that holds a single block back below the Sapling activation, whatever the block's height
  (`SyncBatches.Wallet.StartSync`).
- The merge's fold starts at the greatest height, so it ends in a panic if and only if a channel past the first delivers a
  transaction of that height (`TaddrMerge.Merge`).
- The memo's documentation speaks of 110 bytes per address and a limit of 510. An address with three receivers takes 113, since
  each receiver also has a length byte, and the code's limit is 511. A memo is created with any index, and can be read back if
  and only if none is above 0x02000000 (`MemoIO.ThreeReceiversTake113Bytes`, `MemoIO.ParseInvertsCreate`).
- A broadcast that fails half-way leaves accepted transactions in the cache, and the next send records the whole cache as
  Calculated. It can send one of them again if and only if some cached transaction was accepted and is not mined
  (`Broadcast.ResentIffStale`, `Broadcast.RecordingAStaleCacheSendsTwice`), that is, if one is on record as Transmitted or
  Mempool, or a reorganisation, a failed batch or its expiry has struck an accepted one off the records
  (`Broadcast.ResentIffUnderwayOrForgotten`). The second case cannot be told from the wallet (`Broadcast.TheWalletCannotTell`);
  a send is safe when everything left in the cache is on record and none of it is Transmitted or Mempool
  (`Broadcast.AccountedCacheIsSafe`). The documentation of `record_created_transactions` only warns that it overwrites the
  status.

## Model

| member | source | states |
|---|---|---|
| ScanRanges.SyncState.UpdateScanRanges | zingo-sync/src/sync.rs:113-164 | Fails exactly when the wallet is ahead of the server, leaving the ranges alone; otherwise pushes one Historic range up to the tip, starting at the end of the last range, or in a new wallet at the greater of birthday and Sapling activation |
| ScanRanges.SyncState.PrepareNextScanRange | zingo-sync/src/sync.rs:167-194 | In-place search, split and splice give the next task and the list in which exactly it became Ignored |
| ScanRanges.SyncState.MarkScanned | zingo-sync/src/sync.rs:196-212 | Finds the first range with exactly these blocks and marks it; not found exactly when the source panics |
| ScanRanges.PrepareByIndex | zingo-sync/src/sync.rs:170-193 | Finding an index and splicing at it is the recursive walk the other lemmas reason about |
| ScanRanges.TilesOrdered | zingo-sync/src/sync.rs:113-212 | A tiling is sorted, non-empty range by range, and disjoint |
| ScanRanges.UpdateExtends | zingo-sync/src/sync.rs:113-164 | An update covers exactly the new heights as pending and leaves the priority of every other height alone |
| ScanRanges.PrepareTakes | zingo-sync/src/sync.rs:167-194 | A task is a non-empty pending piece of at most BATCH_SIZE blocks; exactly its heights turn Ignored; no task only when nothing is pending |
| ScanRanges.PrepareTakesLowest | zingo-sync/src/sync.rs:171-173 | A task is the lowest pending piece |
| ScanRanges.MarkCovers | zingo-sync/src/sync.rs:196-212 | Marking succeeds iff some range has exactly these blocks, and turns exactly their heights Scanned |
| ScanRanges.RunsTile | zingo-sync/src/sync.rs:113-212 | Over any sequence of updates, preparations and marks of repeated syncs, the list is empty before the first update and then tiles exactly the heights from the greater of birthday and Sapling activation to the tip the last update saw |
| ScanRanges.UpdatePanicsIffTipNotAdvanced | zingo-sync/src/sync.rs:124-145 | After a sync that saw the server at a tip, the next update panics if and only if the server is not above that tip; in a new wallet, if and only if it is below the birthday or the Sapling activation |
| ScanRanges.AllTasksAreThePendingHeights | zingo-sync/src/sync.rs:167-194 | Preparing until nothing is left ends, with ascending disjoint tasks whose union is exactly the heights pending at the start, ceil(length / BATCH_SIZE) of them per range |
| ScanProtocol.EveryInterleaving | zingo-sync/src/sync.rs:66-105 | Under every interleaving of main loop and any number of workers: a range is Ignored exactly when it is being dispatched, queued, scanned or waiting as a result (once); mark_scanned always finds its range; when the result channel has closed every range is Scanned |
| ScanProtocol.NoTaskSeesABlockOfTheSync | zingo-sync/src/sync.rs:72-100 | A result removes its own blocks, so no task, dispatched, queued, received or being scanned, carries a block stored by the sync; in a wallet without blocks none carries any |
| ScanProtocol.TaskCarriesTheBlockBelow | zingo-sync/src/sync.rs:72-80 | A task carries the stored block just below its range if and only if there is one |
| ScanProtocol.ResultDropsItsOwnBlocks | zingo-sync/src/sync.rs:215-259 | What is stored after a result: of a Historic one only blocks from the end of its range on, so none of its own; of any other all blocks are kept |
| ScanProtocol.PanicIffNoQuiescentWorker | zingo-sync/src/scan/workers.rs:71-82 | The "no idle workers" panic can follow a positive idle check if and only if every worker still to be read is busy or has a task it has not started |
| ScanProtocol.PanicIsReachable | zingo-sync/src/scan/workers.rs:71-159 | A schedule that ends in that panic, for every sync with more tasks than workers |
| ScanProtocol.FewTasksNeverPanic | zingo-sync/src/scan/workers.rs:71-159 | With no more tasks than workers there is always an unused worker for every task still to be sent |
| ScanProtocol.SyncCanPanicIffMoreTasksThanWorkers | zingo-sync/src/scan/workers.rs:71-159 | For any number of workers, some interleaving of a sync panics if and only if it has more tasks than workers |
| ScanProtocol.UsefulActionsBounded | zingo-sync/src/sync.rs:66-105 | A run has a bounded number of actions that are not mere polling |
| ScanProtocol.SomeoneCanMove | zingo-sync/src/sync.rs:66-105 | No deadlock: short of the end or the panic, a worker can move or the main loop reaches a useful action within two steps |
| BatchRunners.BatchRunner.AddOutputs | zingo-sync/src/scan/runners.rs:544-560 | Gathers outputs under their key, handing the gathered batch over once it reaches the threshold, so that fewer outputs than that stay behind; what each key is owed is kept, unless the key was still in use |
| BatchRunners.BatchRunner.Flush | zingo-sync/src/scan/runners.rs:564-573 | Hands the accumulated batch over as it is, if it is not empty; nothing is lost |
| BatchRunners.BatchRunner.RunTask | zingo-sync/src/scan/runners.rs:377-406 | The next output of any running batch is tried with all keys; if one decrypts it, the first such key's result is sent on its channel with the output's index, or the rest of the batch given up if the receiver is gone |
| BatchRunners.BatchRunner.CollectResults | zingo-sync/src/scan/runners.rs:577-605 | For any threshold, grouping and completion order, if no key was reused there is a result for exactly the transaction's outputs that some scanning key decrypts, under their index, and it is the first such key's; an unknown key gives none; the call blocks for ever exactly when some of the outputs are still unflushed |
| BatchRunners.CompleteIsDirect | zingo-sync/src/scan/runners.rs:577-605 | A channel on which nothing is outstanding holds exactly the direct decryption |
| BatchRunners.AddKeepsValid | zingo-sync/src/scan/runners.rs:418-435 | Adding outputs keeps every channel's account |
| BatchRunners.ReportKeepsValid | zingo-sync/src/scan/runners.rs:383-402 | Reporting an output keeps every channel's account |
| TrialDecryption.DecryptWith | zingo-sync/src/scan/runners.rs:176-207 | The result is that of the first key that decrypts; none only if no key does |
| TrialDecryption.AllKeysAreTried | zingo-sync/src/scan/runners.rs:176-207 | No scanning key is left out: an output is decrypted if and only if one of them decrypts it, and by the first of them |
| TrialDecryption.DirectlyDecrypted | zingo-sync/src/scan/runners.rs:176-207 | Decrypting a transaction's outputs one by one gives a result for exactly those that some key decrypts, from the first such key |
| Scanner.CheckContinuity | zingo-sync/src/scan.rs:331-361 | True iff heights rise by one and each block names the hash below it, the previous wallet block included |
| Scanner.CalculatedLeaves | zingo-sync/src/scan.rs:410-504 | The leaves and retentions of one transaction are those of its outputs in their places |
| Scanner.CalculateNullifiersAndPositions | zingo-sync/src/scan.rs:383-408 | Adds each decrypted output's nullifier and position, whatever order the results are visited in |
| Scanner.CollectNullifiers | zingo-sync/src/scan.rs:507-534 | Records where each of a transaction's nullifiers is revealed |
| Scanner.TrialDecrypt | zingo-sync/src/scan.rs:310-328 | Both runners are flushed and, if no transaction occurs twice, owe exactly the batch's transactions |
| Scanner.ScanCompactBlocks | zingo-sync/src/scan.rs:200-308 | The scanning loops, run over the batch runners, compute the scan defined output by output if no transaction occurs twice; errors and wallet blocks are that scan's in any case |
| Scan.ScanInParts | zingo-sync/src/scan.rs:39-308 | Scanning A + B succeeds iff scanning A and then B from A's last wallet block does, and the results are the same: wallet blocks, nullifiers, positions, and leaves one after the other |
| Scan.ResumeIsStored | zingo-sync/src/scan.rs:47-53 | The block the second part starts from is the one the first part stored |
| Scan.MetadataStartAgrees | zingo-sync/src/scan.rs:54-79 | When the joint scan passes its size checks, B's first block's chain metadata gives the same initial sizes and the same result |
| Scan.InitialDataCases | zingo-sync/src/scan.rs:47-120 | Where the initial sizes come from, pool by pool: the previous wallet block, else the first block's declared sizes less its own outputs, else the frontiers of the block below; nothing at the Sapling activation; failing on sizes below the outputs and on blocks before Sapling |
| Scan.LeavesShowOutputs | zingo-sync/src/scan.rs:410-504 | A leaf is its output's commitment, marked iff one of the keys decrypts the output |
| Scan.PositionsIndexLeaves | zingo-sync/src/scan.rs:223-283 | A recorded position less the initial position indexes the leaf list at exactly that note's leaf, which is marked, and the nullifier is what the first key to decrypt the note gives it there |
| Scan.MarkedLeavesAreNotes | zingo-sync/src/scan.rs:223-283 | Conversely every marked leaf has its own recorded note at its own position |
| Scan.BlockCheckpoint | zingo-sync/src/scan.rs:247-264 | A block gets at most one checkpoint, with its height, on its last leaf, and gets one iff its last transaction has outputs in the pool |
| Scan.CheckpointIdsIncrease | zingo-sync/src/scan.rs:410-504 | Checkpoint ids strictly increase along the leaves |
| Scan.WalletBlockSizes | zingo-sync/src/scan.rs:285-297 | Every block is stored under its height with its own hashes, time and transaction ids and with the initial sizes plus the leaves so far |
| ChainSlots.SlotAt | zingo-sync/src/scan.rs:223-283 | The reference list of outputs has every output of every transaction at its place |
| ChainSlots.Locate | zingo-sync/src/scan.rs:223-283 | Every place below the total number of outputs is some output's |
| ChainSlots.PlacesInChainOrder | zingo-sync/src/scan.rs:223-283 | Places follow the chain: by block, then transaction, then output; so a place is the number of outputs before it |
| Scan.ScanFailsIff | zingo-sync/src/scan.rs:285-361 | Scanning fails exactly when heights or hashes do not follow each other, or a block declares a tree size that the outputs so far do not give |
| Scan.ScanByPlace | zingo-sync/src/scan.rs:200-308 | For every output: the leaf at its place in the chain is its commitment, marked iff a key of its pool decrypts it; then its transaction is relevant and the note is on record at its position with its nullifier there |
| Scan.RelevantAreDecrypted | zingo-sync/src/scan.rs:223-283 | The relevant transactions are exactly those of which a key decrypts an output |
| Scan.NullifiersAreRevealed | zingo-sync/src/scan.rs:507-534 | The nullifiers recorded are exactly those the batch reveals, each with a transaction revealing it and its block's height |
| FetchQueue.FetchTask.ReceiveFetchRequests | zingo-sync/src/client/fetch.rs:49-78 | True exactly when nothing is queued and nothing will come; otherwise the queue is not empty and no request is lost |
| FetchQueue.FetchTask.Fetch | zingo-sync/src/client/fetch.rs:24-43 | The task ends, with every request answered once in the order of sending, however sending and receiving interleave |
| Reorg.BlockManagement.ReceiveBlock | zingolib/src/blaze/block_management_reorg_detection.rs:604-647 | One pass of the receive loop, field by field: full batches are moved, hashes compared at the expected height, the wallet's top block invalidated and the reply sent, the block appended; it never panics |
| Reorg.BlockManagement.InvalidateBlock | zingolib/src/blaze/block_management_reorg_detection.rs:317-339 | Drops the wallet's top block and the transactions at or above its height; fails exactly on a different height |
| Reorg.BlockManagement.DrainExistingBlocksWithTruncation | zingolib/src/blaze/block_management_reorg_detection.rs:111-124 | The batch, then the remaining wallet blocks, cut to the highest `num` |
| Reorg.BlockManagement.Finish | zingolib/src/blaze/block_management_reorg_detection.rs:649-657 | When the channel closes the rest of the blocks is moved to the shared list and the lowest height received is returned |
| Reorg.AgreeBelowJoin | zingolib/src/blaze/block_management_reorg_detection.rs:617-632 | Below the join the wallet's blocks are the server's: agreement passes down the hash links |
| Reorg.ForkedAreTheDiffering | zingolib/src/blaze/block_management_reorg_detection.rs:617-632 | The wallet blocks the exchange drops are exactly those that differ from the server's |
| Reorg.ExchangeJoinsTheChains | zingolib/src/blaze/block_management_reorg_detection.rs:592-658 | Under every interleaving nothing panics; one reorg message per differing wallet block, at heights falling by one, then None; exactly the transactions below are kept; the drained list is the server's chain from start_block down, cut to the highest `num` |
| Reorg.ExchangeEnds | zingolib/src/blaze/fetch_compact_blocks.rs:45-70 | Every action uses up work and, until the manager is done, some action is possible |
| BlockCache.IsNfSpent | zingolib/src/blaze/block_management_reorg_detection.rs:446-491 | The least height at or above after_height whose block spends the nullifier; None iff there is none |
| BlockCache.GetCompactTransactionForNullifierAtHeight | zingolib/src/blaze/block_management_reorg_detection.rs:126-161 | The first spending transaction of the block at that height; the panic exactly when there is none |
| BlockCache.AppendingKeepsAnswers | zingolib/src/blaze/block_management_reorg_detection.rs:446-491 | Lower blocks appended later change no answer |
| BlockCache.FindSpendingTransaction | zingolib/src/blaze/update_notes.rs:113-137 | The second lookup never panics, though blocks may be appended between the two |
| TreeVerification.UpdateTrees | zingolib/src/blaze/block_management_reorg_detection.rs:725-746 | Both trees grow by one leaf for each of the block's outputs in their pool, transaction by transaction, each commitment in its place |
| TreeVerification.VerifyTreePair | zingolib/src/blaze/block_management_reorg_detection.rs:252-315 | Folds exactly the heights (closest, candidate] upwards; the exact condition under which the pair is accepted |
| TreeVerification.VerifyTrees | zingolib/src/blaze/block_management_reorg_detection.rs:164-247 | Nothing is checked before the last batch; then one state per height, each against its closest lower start, and the highest is returned with a positive answer. All of the batch's states are checked iff it has none, or is the last and no two of its states differ at one height |
| TreeVerification.DedupSorted | zingolib/src/blaze/block_management_reorg_detection.rs:182-185 | One state per height is left of the sorted list, every height being kept |
| TreeVerification.StrictIffGenuine | zingolib/src/blaze/block_management_reorg_detection.rs:283-307 | From a genuine lower tree the strict comparison accepts exactly the genuine candidates |
| TreeVerification.GenuineIffEveryLeaf | zingolib/src/blaze/block_management_reorg_detection.rs:283-307 | What genuine means: one leaf for every output of the pool up to the state's height, each output's commitment at its place in the chain |
| TreeVerification.AcceptedIff | zingolib/src/blaze/block_management_reorg_detection.rs:262-313 | From a genuine lower state, the exact condition under which a candidate is accepted, fallback and blocks out of reach included |
| TreeVerification.WrongStatePassesIff | zingolib/src/blaze/block_management_reorg_detection.rs:262-313 | A wrong state can pass at a height if and only if the closest state lies below the batch, the chain has no Orchard commitment up to there, or the tolerant comparison matches any encoding with the chain's Orchard tree |
| TreeVerification.LowestIsFoldedIff | zingolib/src/blaze/block_management_reorg_detection.rs:210-224 | The lowest state is compared if and only if the wallet has a verified tree below it that the batch reaches |
| TreeVerification.AllAreFoldedIff | zingolib/src/blaze/block_management_reorg_detection.rs:192-276 | If no checked state is below the batch's blocks, all are compared if and only if the wallet has a verified tree below the lowest that the batch reaches |
| TreeVerification.UnfoldedPasses | zingolib/src/blaze/block_management_reorg_detection.rs:210-276 | A state that is not compared passes whatever its trees are |
| TreeVerification.SortAndDedup | zingolib/src/blaze/block_management_reorg_detection.rs:179-185 | One state per height is left, all heights are kept, and no state is lost iff no height had two |
| TreeVerification.DedupKeepsAllIffOnePerHeight | zingolib/src/blaze/block_management_reorg_detection.rs:182-185 | Of a sorted list no state is lost if and only if no two differ at one height |
| TreeVerification.OneOfTwoStatesIsNotChecked | zingolib/src/blaze/block_management_reorg_detection.rs:182-185 | Two states of one height with different Sapling trees: in either order the second is not checked |
| TreeVerification.VerifiedIsGenuine | zingolib/src/blaze/block_management_reorg_detection.rs:164-247 | What a positive answer proves: with a genuine tree of the wallet below all states and in the batch's reach, and no fallback possible, every checked state is genuine |
| TreeVerification.StrictVerificationIsSound | zingolib/src/blaze/block_management_reorg_detection.rs:164-308 | If the wallet's tree is genuine and below all candidates and each passes strictly against its closest start, every candidate is genuine |
| Witnesses.DecryptOutputs | zingolib/src/blaze/trial_decryptions.rs:262-387 | Exactly the leaves of decrypted outputs become marked and exactly those detections get a worker |
| Witnesses.CollectTx | zingolib/src/blaze/trial_decryptions.rs:165-220 | One leaf per output with its commitment and index, marked and queued iff a key is held, the transaction is within the size filter and the key decrypts the output |
| Witnesses.CollectBatch | zingolib/src/blaze/trial_decryptions.rs:159-241 | One leaf list per block in arrival order, and the set of all detections |
| Witnesses.TxMap.UpdateWitnesses | zingolib/src/blaze/trial_decryptions.rs:421-471 | Blocks are fed last first; each appends its leaves at the tree's end, sets positions of marked notes on record and asks for a checkpoint |
| WitnessPositions.TreeGrowsByAllCommitments | zingolib/src/blaze/trial_decryptions.rs:421-471 | Whatever keys and size filter, the tree grows by every commitment of the batch in chain order |
| WitnessPositions.PositionsAreGlobalIndexes | zingolib/src/blaze/trial_decryptions.rs:439-467 | Each decrypted note on record gets the tree size at the start plus its leaf's global index in chain order, where a marked leaf sits |
| WitnessPositions.GetNoteWitness | zingolib/src/blaze/block_management_reorg_detection.rs:506-573 | The witness tree is the server's of the block below the note's (empty below the activation) and then the block's commitments up to the note's, each in its place; "Not found!" exactly when the indices are out of range |
| WitnessPositions.WitnessedPosition | zingolib/src/blaze/block_management_reorg_detection.rs:555-568 | The witnessed position is the size of that server tree plus the block's outputs before the note |
| WitnessPositions.AlignedUpdateChangesNoRecord | zingolib/src/blaze/trial_decryptions.rs:421-471 | The two computations of positions agree: if the server's trees follow the blocks and the wallet's tree is as long as the server's before the batch, feeding the trees changes no note record |
| WitnessPositions.BlockHasItsCheckpoint | zingolib/src/blaze/trial_decryptions.rs:466-466 | Every block of a contiguous batch above the earlier checkpoints has a checkpoint at its height and the tree's size after it, none refused |
| WitnessPositions.CheckpointsStayAscending | zingolib/src/blaze/trial_decryptions.rs:466-466 | Whatever is fed in whatever order, checkpoints stay in ascending order and none is lost |
| WitnessPositions.RunWorkers | zingolib/src/blaze/trial_decryptions.rs:319-378 | Workers finishing in any order record every detection's note, at its witness's position and with its nullifier there, and touch nothing else |
| WitnessPositions.TrialDecryptBatch | zingolib/src/blaze/trial_decryptions.rs:132-260 | The whole batch for one pool; from an aligned tree the records end as the workers left them |
| SyncBatches.BatchTargets | zingolib/src/lightclient/sync.rs:347-353 | The targets in closed form: multiples of 100 above the wallet, the last one the tip; a single one when level |
| SyncBatches.TargetsClimb | zingolib/src/lightclient/sync.rs:347-353 | Behind the tip they climb strictly, by at most 100, and by exactly 100 until the last |
| SyncBatches.Wallet.SyncNthBatch | zingolib/src/lightclient/sync.rs:396-420 | What a batch does to the wallet's height in each of its outcomes |
| SyncBatches.Wallet.RunBatch | zingolib/src/lightclient/sync.rs:366-382 | A failed batch costs the wallet its top block; one that held a single block is back below the activation |
| SyncBatches.Wallet.StartSync | zingolib/src/lightclient/sync.rs:347-391 | The batches that sync tile the heights gained exactly; all of them succeeding reaches the tip in batches of at most 100; the exact height a failure leaves |
| SyncBatches.FetchBlocksRange | zingolib/src/blaze/fetch_compact_blocks.rs:19-42 | Chunks of at most 10,000 ask for every height once, descending; "Wrong block order" is unreachable |
| SyncBatches.Fetch | zingolib/src/blaze/fetch_compact_blocks.rs:45-69 | Fails exactly on a reversed range; otherwise the range and then one block for each reorg message before the first None |
| SyncBatches.AnsweredUntilNone | zingolib/src/blaze/fetch_compact_blocks.rs:56-69 | The messages answered are all before the first None, or all of them, in their order |
| TaddrMerge.LowestTop | zingolib/src/blaze/fetch_taddr_transactions.rs:87-100 | The fold finds the first of the lowest tops, or where it started if all are at the maximum |
| TaddrMerge.Merge | zingolib/src/blaze/fetch_taddr_transactions.rs:70-123 | The unwrap panics if and only if a channel past the first delivers the maximum height; otherwise exactly the received transactions in the range are sent, as often as received, and in height order if each channel was |
| TaddrMerge.DispatchInOrder | zingolib/src/blaze/fetch_taddr_transactions.rs:125-156 | The order check passes iff the list is sorted, and names two neighbours out of order otherwise |
| TaddrMerge.FetchTaddrTransactions | zingolib/src/blaze/fetch_taddr_transactions.rs:70-162 | From sorted channels below the maximum height the order check never fails |
| CompactSizes.ReadEncodedSize | zingo-memo/src/lib.rs:45-45 | A written CompactSize reads back as itself iff it is not above the maximum |
| CompactSizes.ReadSizeIsEncoded | zingo-memo/src/lib.rs:96-96 | Only the shortest form is read |
| CompactSizes.EncodedSizeBytes | zingo-memo/src/lib.rs:45-45 | The bytes of a written size: itself below 253, else a flag and the size in 2, 4 or 8 bytes, lowest first |
| CompactSizes.ReadEncodedVector | zingo-memo/src/lib.rs:98-98 | A written vector reads back item by item |
| CompactSizes.ReadVectorIsEncoded | zingo-memo/src/lib.rs:101-102 | What a vector read consumed is the encoding of what it read |
| Memo.ReceiverRoundTrip | zingo-memo/src/lib.rs:122-195 | Every well-formed receiver reads back as itself |
| Memo.KnownReceiverBytes | zingo-memo/src/lib.rs:122-133 | Each known receiver begins with its typecode and length: P2PKH 0, P2SH 1, Sapling 2, Orchard 3 |
| Memo.AddressRoundTrip | zingo-memo/src/lib.rs:115-150 | Whatever order its receivers are written in, a canonical address reads back as itself |
| Memo.MemoBytes | zingo-memo/src/lib.rs:43-91 | A memo begins with its version and the number of addresses; version 1 adds the number of indexes and the indexes |
| MemoIO.WriteUnifiedAddress | zingo-memo/src/lib.rs:115-134 | The writer appends the address's encoding |
| MemoIO.CreateWalletInternalMemoVersion0 | zingo-memo/src/lib.rs:43-59 | Fails exactly when the encoding exceeds 511 bytes, else is the encoding padded with zeros |
| MemoIO.CreateWalletInternalMemoVersion1 | zingo-memo/src/lib.rs:67-91 | Likewise with indexes |
| MemoIO.Reader.ReadUnifiedAddress | zingo-memo/src/lib.rs:139-150 | The reader advances exactly past one address, or reports the first error |
| MemoIO.ParseMemo | zingo-memo/src/lib.rs:94-110 | The cursor-driven parser is the parse function, errors included |
| Memo.FutureVersionIsRefused | zingo-memo/src/lib.rs:94-110 | No version but 0 and 1 is read, whatever follows |
| MemoIO.ParseInvertsCreate | zingo-memo/src/lib.rs:67-110 | For every list of canonical addresses and every list of u32 indexes that fits: parsing gives them back iff every index is in CompactSize range, and fails otherwise |
| MemoIO.ParseInvertsCreateVersion0 | zingo-memo/src/lib.rs:43-99 | The same for version 0 |
| MemoIO.ParsedIsEncoded | zingo-memo/src/lib.rs:94-110 | A memo that parses starts with the encoding of what it parses to |
| MemoIO.PaddingIsIgnored | zingo-memo/src/lib.rs:94-110 | What follows that encoding, zeros or not, never changes the parse |
| MemoIO.ThreeReceiversTake113Bytes | zingo-memo/src/lib.rs:62-64 | Three known receivers take 113 bytes |
| MemoIO.FourFullAddressesFit | zingo-memo/src/lib.rs:67-91 | At most four such addresses fit, and four do |
| Balances.GetUserBalances | zingolib/src/lightclient/describe.rs:119-254 | Each figure is the sum of the unspent outputs that belong in it, all figures add up to everything unspent, and minimum_fees counts the paying outputs plus one |
| Balances.FiguresConserveValue | zingolib/src/lightclient/describe.rs:142-245 | Whatever the anchor and auto_shielding, no unspent output is missed or counted twice |
| Balances.PayingNotesCounted | zingolib/src/lightclient/describe.rs:142-245 | The fee counts each paying note once |
| Balances.NoFeeIffNothingPays | zingolib/src/lightclient/describe.rs:142-254 | No fee is shown exactly when no output of any transaction is unspent and shown as spendable or immature change |
| Balances.DustAndFees | zingolib/src/lightclient/describe.rs:142-245 | Dust is income of at most 5000; the fee is reckoned from exactly the unspent outputs shown as spendable or as immature change |
| Balances.TransactionsKeepToTheirFigures | zingolib/src/lightclient/describe.rs:142-245 | Notes above the anchor or unconfirmed are never spendable; transactions of change only show no dust and no income, others no change; incoming figures hold only what is not mined |
| Balances.RaisingTheAnchor | zingolib/src/lightclient/describe.rs:142-245 | Raising the anchor only moves value out of the immature figures into spendable |
| Balances.AddTransaction | zingolib/src/lightclient/describe.rs:142-245 | One transaction adds to each figure exactly what belongs in it |
| Transfers.CreateSendValueTransfers | zingolib/src/lightclient/describe.rs:280-344 | One send per distinct recipient, with all it gets, whatever order the hash set is walked in |
| Transfers.ValueTransfers | zingolib/src/lightclient/describe.rs:346-594 | Each address's sends are the transactions paying it, in order; every send has a recipient; all other transfers are those of their transactions in order, and their values add up to what the transactions show |
| Transfers.NoteCounts | zingolib/src/lightclient/describe.rs:388-565 | A pool's shown value adds up note by note, and its memos stand in the notes' order |
| Transfers.OneMoreIsShown | zingolib/src/lightclient/describe.rs:388-565 | Shielded and received value is conserved: one more note of a value, anywhere in its pool's list, raises what is shown by exactly that value, and with none nothing is shown |
| Transfers.OneMoreCoinIsShown | zingolib/src/lightclient/describe.rs:566-590 | The same for transparent coins |
| Transfers.OneTransferPerPool | zingolib/src/lightclient/describe.rs:388-592 | A transaction that shields or receives shows one transfer for each pool it has something in, with the pool's whole value and memos, and no other |
| Transfers.PaymentCounts | zingolib/src/lightclient/describe.rs:280-344 | Wherever it stands, a payment adds its value and memo to the send shown for the address it paid, the unified address if known, and to no other |
| Transfers.MemosToSelfAreShown | zingolib/src/lightclient/describe.rs:351-500 | A sending transaction shows all memos on its own notes in one transfer of no value; without any a send to self shows one transfer and a send none |
| Transfers.ValueTransferByToAddress | zingolib/src/lightclient/describe.rs:993-1009 | The amounts by address are those of the address's sends |
| Transfers.DoTotalValueToAddress | zingolib/src/lightclient/describe.rs:769-777 | Exactly the paid addresses have a total, of every value sent to them by shown transactions |
| Transfers.DoTotalSpendsToAddress | zingolib/src/lightclient/describe.rs:758-766 | The count is of paying transactions, not outputs |
| Transfers.TotalsConserveValue | zingolib/src/lightclient/describe.rs:769-777 | All totals add up to all outgoing values of Sent(Send) and Sent(SendToSelf) transactions |
| Broadcast.Wallet.StoreTransaction | zingolib/src/wallet/tx_map/trait_walletwrite.rs:57-78 | A created transaction is appended to the cache; without spend capability it fails |
| Broadcast.Wallet.RecordCreatedTransactions | zingolib/src/lightclient/send.rs:132-192 | Marks every cached transaction Calculated unless confirmed |
| Broadcast.Wallet.BroadcastCreatedTransactions | zingolib/src/lightclient/send.rs:196-264 | The loop, its early return and its clearing of the cache compute the pass defined step by step |
| Broadcast.BroadcastOutcome | zingolib/src/lightclient/send.rs:196-264 | The cache is cleared exactly on success, when nothing in it is still Calculated; an error keeps it, with something still Calculated; statuses move only from Calculated to Transmitted, for exactly the newly accepted |
| Broadcast.BroadcastSendsInOrder | zingolib/src/lightclient/send.rs:196-264 | The waiting transactions are sent in cache order, one id reported for each, the server's where preferred; a refusal stops the pass with its message and nothing before it is left waiting |
| Broadcast.NoTransactionIsSentTwice | zingolib/src/lightclient/send.rs:196-264 | Over any sequence of broadcasts failing anywhere, other tasks setting statuses past Calculated or striking transactions off the records, and recordings of a fresh cache, no transaction is accepted twice |
| Broadcast.TransmittedOnlyGrows | zingolib/src/lightclient/send.rs:235-236 | Over broadcasts alone, Transmitted stays Transmitted |
| Broadcast.ResentIffStale | zingolib/src/lightclient/send.rs:132-264 | Recording the cache and broadcasting it is safe against every server if and only if nothing in the cache was accepted before, mined transactions excepted |
| Broadcast.ResentIffUnderwayOrForgotten | zingolib/src/lightclient/send.rs:132-264 | The same by what became of the records: where Transmitted and Mempool are earned by acceptance, unsafe if and only if a cached transaction has such a status or was accepted and is off the records |
| Broadcast.AccountedCacheIsSafe | zingolib/src/lightclient/send.rs:132-264 | Read off the wallet: if all that is left in the cache is on record and none of it Transmitted or Mempool, new transactions can be added, recorded and broadcast and nothing is accepted twice |
| Broadcast.TheWalletCannotTell | zingolib/src/wallet/transaction_records_by_id.rs:120-136 | No condition on cache and records is exact once records are struck off: two runs end in the same wallet, and sending again is unsafe after one and safe after the other |
| Broadcast.UnderwayStaysEarned | zingolib/src/lightclient/send.rs:132-264 | Transmitted and Mempool are earned over any run in which other tasks report only accepted transactions as on their way, removals included |
| Broadcast.RecordKeepsNeverTwiceIffFresh | zingolib/src/lightclient/send.rs:145-190 | Recording keeps the invariant of the runs above if and only if the cache is fresh |
| Broadcast.RecordingAStaleCacheSendsTwice | zingolib/src/lightclient/send.rs:132-264 | A broadcast that fails half-way, a recording and a broadcast send the first transaction twice |

## Left out

- Integer widths: heights, sizes, positions and values are unbounded; the u32 and u64 conversions and overflow panics are not modelled, except the greatest height in `TaddrMerge` and the u32 indexes of memos.
- Cryptography and the libraries' trees, note encryption, ZIP 32 keys and the string encoding of unified addresses. CompactSize and vectors follow the encoding library, which is not part of this repository, as do ShardTree's rule that a checkpoint must be above the earlier ones, and the rules that make a list of receivers an address.
- gRPC, timers, sleeps, file saving, JSON and command line. Failed fetches and worker panics are assumed not to happen in the sync engines; `SyncBatches.Wallet.SyncNthBatch` and the broadcast take failures as parameters.
- `scan` itself, `update_wallet_data` and the linking of nullifiers: glue around what is modelled.
- Decoding errors of malformed compact outputs when a batch is filled.
- Scanner.ScanCompactBlocks: promises the decrypted parts only when no transaction occurs twice in the batch, which consensus rules out; the batch runners key results by block hash and txid.
- BatchRunners.BatchRunner.CollectResults: promises the direct decryption only while no key was used again before it was collected; after that the source loses the first receiver, and with it possibly the rest of a batch.
- Reorg.ExchangeJoinsTheChains: assumes a fixed server chain and wallet blocks linked by hash, since the code compares hashes only at the seam.
- TreeVerification.StrictVerificationIsSound: is about the strict comparison only; the fallback's exact reach is stated by `TreeVerification.AcceptedIff`, and the comparison of another encoding of parentless trees is an arbitrary predicate.
- TreeVerification.VerifyTrees: sorting is not modelled as unstable; nothing proved depends on the order of equal heights.
- Witnesses.CollectBatch: models one pool at a time; the source interleaves the two pools' lists transaction by transaction, and may also fetch full transactions for their memos, which is left out.
- Witnesses.TxMap.UpdateWitnesses: notes are keyed by transaction and output index; the error for a note recorded without an index is not modelled.
- WitnessPositions.TrialDecryptBatch: the block cache and the blocks received are the same list.
- SyncBatches.Wallet.SyncNthBatch: what happens inside a batch is reduced to its outcome and its effect on the wallet's blocks; the parts are modelled in `Reorg`, `TreeVerification`, `WitnessPositions` and `TaddrMerge`.
- SyncBatches.Wallet.StartSync: the one-block reorg check before the batch list is left out.
- FetchQueue.FetchTask.Fetch: requests are opaque; what the server answers is not modelled.
- Balances.GetUserBalances: the record map is a sequence in any order; the computation of the anchor height is left out.
- Transfers.ValueTransfers: fees, dates, prices and the sorting of summaries are left out.
- `do_total_memobytes_to_address`: like the totals of values, but over UTF-8 lengths.
- Broadcast.NoTransactionIsSentTwice: the effect of a new status on the notes a transaction spends is left out.
- The mempool monitor, proposals and spendable balances, (de)serialisation of the wallet, and the transaction map's internals.
