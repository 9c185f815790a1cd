# OP_NET node: a model of its replicated state

OP_NET keeps chain state that has to survive reorganisations, parallel and out-of-order ingestion, crashes and
re-execution. This project models the parts of the node where that is decided and proves what they promise, for every
input, run or interleaving:

- the unspent-output store, fed by parallel sync threads and rolled back on reorganisations (`Utxo`, `UtxoReorg`,
  `UtxoHistory`, `ParallelIngest`);
- versioned contract storage, and the block overlay and pointer cache above it (`ContractPointers`, `PointerReads`, `VmStorage`);
- the one-to-one link between ML-DSA keys and legacy keys (`KeyLinks`), over whole runs and rollbacks (`KeyHistory`);
- the batched purge that rolls all three stores back (`Purge`), on the chunked bulk writes below them (`BulkWrite`),
  and a live reorganisation through all of them (`Reorganisation`);
- the indexer's task and reorganisation protocol (`Indexer`), the heights it works through (`Heights`), its runs from
  end to end (`IndexerRuns`), and the object that runs it (`BlockIndexer`);
- the chain of block checksums (`Checksum`);
- the two MongoDB pipelines for pending outputs (`Mempool`);
- the WebSocket client: rate limit, send queue, request ids, connection states and in-flight requests (`RateLimit`,
  `Backpressure`, `RequestIds`, `Session`);
- the worker pool: wrapping task ids and the ownership of replies (`WorkerPool`).

Code that updates fields in place is a class here. Concurrency is a choice: bulk writes run in any interleaving, and a
protocol is a step relation whose next event the environment picks. Most components end in a method (`Simulate`, `Drive`,
`RunBlocks`) that drives the object through an arbitrary list of events and states what holds of every run.
Beside the laws, lemmas named `…Means`, `…InFields`, `…GoesOn` and the like say what an operation does in terms of stored fields and
numbers alone.

`dafny verify dfyconfig.toml` checks everything.

## What turned out false, and exactly when it holds

- A batch whose outputs are all worthless or spent within the batch writes nothing, not even its spends, and a batch that
  spends an output it creates never writes that output. A reorganisation can therefore leave a spent coin visible or lose
  an unspent one. `UtxoReorg.ReorgTheorem` shows the store is right if and only if neither happened, in terms of the
  batches alone.
- Reverts can overlap: the watchdog's report is not guarded by `chainReorged` (the repository's
  tests/reorg/watchdog/doubleRevertRace.test.ts shows the race). `Indexer.OneRevertExactlyWhen` proves that reverts exclude each
  other if and only if no report comes while the lock is held; `Indexer.NoRaceNoIntrusion` reduces that to a height
  regression arriving while a task waits for the watchdog.
- The recorded height can get out of step with the next block. In runs without a report under the lock this happens if and
  only if an event slips (`Heights.InOrderExactlyWhen`): a task that a revert has cut off records its height late, which is
  possible after a regression if and only if a task with another height was past its last check
  (`Heights.RevertedHeightSurvives`); a revert fails before it touches storage and had dropped tasks
  (`Heights.FailedRevertExactly`); or a block fails while the recorded height is 0 or 1 (`Heights.GivingUpExactly`). The place is
  regained by any revert that reaches the observer (`Heights.RevertRegainsPlace`). Above height 1 the next error starts one
  (`Heights.ErrorRegainsPlace`), and a block whose predecessor was passed over ends in such an error, because
  its previous checksum is missing (src/src/vm/VMManager.ts:1183, src/src/blockchain-indexer/processor/block/Block.ts:1173).
- The MongoDB 8 pipeline treats position 0 as absent, so it sends the first transaction twice exactly when that
  transaction pays the address more than once (`Mempool.SentTwiceExactlyWhen`). Every output still finds its own bytes.
- A single storage read throws for a version written at height 0, the grouped read does not. It throws if and only if the
  block has neither written the slot nor already handed its value out (`VmStorage.VMManager.GetStorage`,
  `VmStorage.GenesisRead`).
- A key exposed at height 0 is stored without that height and is lost when a later exposure is rolled back. A rollback is
  exact if and only if every exposed key carries its height (`KeyHistory.RollbackExactlyWhen`).
- The rate limit can be exceeded when the clock comes back. A clock keeps every limit if and only if it never comes back
  within a second of a reading that it had been a full second past (`RateLimit.LimitHoldsExactlyWhen`).
- When `postMessage` throws, the pool rejects the caller but keeps its callbacks, so they fire again when the worker fails
  or the pool closes; a call's callbacks are due twice if and only if its own post threw (`WorkerPool.DueTwiceExactlyWhen`).

## Model

| member | source | states |
|---|---|---|
| `BulkWrite.ChunkArray` | src/src/db/repositories/ExtendedBaseRepository.ts:111-119 | the chunks concatenate to the input, none is empty or too long, and all but the last are full |
| `BulkWrite.BulkWriteAll` | src/src/db/repositories/UnspentTransactionRepository.ts:172-190 | in every interleaving each named key ends with a value some operation wrote to it and nothing else changes; agreeing chunks have one outcome |
| `BulkWrite.WriteTwice` | src/src/db/repositories/ExtendedBaseRepository.ts:63-109 | writing two agreeing sets of upserts one after the other is writing their union |
| `Utxo.SpendsMember` | src/src/db/repositories/UnspentTransactionRepository.ts:348-370 | the spend list holds exactly the non-coinbase inputs of the blocks, at their block's height |
| `Utxo.CoinsMember` | src/src/db/repositories/UnspentTransactionRepository.ts:372-426 | the creation list holds exactly the addressed non-zero outputs that the batch does not spend |
| `Utxo.UnspentTransactionRepository.ConvertSpentTransactions` | src/src/db/repositories/UnspentTransactionRepository.ts:348-370 | the nested loops compute the spend list |
| `Utxo.UnspentTransactionRepository.ConvertToUnspentTransactions` | src/src/db/repositories/UnspentTransactionRepository.ts:372-426 | the nested loops compute the creation list |
| `Utxo.UnspentTransactionRepository.InsertTransactions` | src/src/db/repositories/UnspentTransactionRepository.ts:93-198 | a valid batch has one outcome whatever the interleaving, any batch writes only its own values, and one without a surviving output changes nothing |
| `Utxo.UnspentTransactionRepository.DeleteTransactionsFromBlockHeight` | src/src/db/repositories/UnspentTransactionRepository.ts:52-67 | outputs created from the height on go, later spends of the others are undone |
| `Utxo.UnspentTransactionRepository.DeleteTransactionsInRange` | src/src/db/repositories/UnspentTransactionRepository.ts:69-91 | the same over a half-open range |
| `Utxo.UnspentTransactionRepository.DeleteMatching` | src/src/db/repositories/UnspentTransactionRepository.ts:52-91 | the delete of documents and the update of what is left, as one rollback of the whole collection |
| `UtxoReorg.IngestAllFacts` | src/src/db/repositories/UnspentTransactionRepository.ts:93-198 | any sequence of batches writes the union of their creation and spend facts |
| `UtxoReorg.OrderIndependence` | src/src/db/repositories/UnspentTransactionRepository.ts:93-198 | the same batches give the identical store in every order and however often repeated |
| `UtxoReorg.FromScratch` | src/src/db/repositories/UnspentTransactionRepository.ts:93-198 | any batching of a valid chain shows exactly its addressed non-zero unspent outputs |
| `UtxoReorg.ShownInFields` | src/src/db/repositories/UnspentTransactionRepository.ts:93-198 | after syncing a chain a document is shown exactly for a non-zero output with an address or addresses that no input names; value, height and script are listed field by field |
| `UtxoReorg.SpentInFields` | src/src/db/repositories/UnspentTransactionRepository.ts:348-370 | a spend is recorded at a height exactly if an input of a block of that height names the output |
| `UtxoReorg.BatchingIndependence` | src/src/db/repositories/UnspentTransactionRepository.ts:93-198 | two ways of cutting and ordering one chain show the same unspent set |
| `UtxoReorg.ReorgTheorem` | src/src/db/repositories/UnspentTransactionRepository.ts:52-198 | after any old branch, rollback and new branch the visible set is the new chain's if and only if no batch lost a coin or a spend |
| `UtxoReorg.CleanReorg` | src/src/db/repositories/UnspentTransactionRepository.ts:52-198 | with surviving outputs in every batch and the fork at a batch boundary, a reorganisation leaves no trace |
| `UtxoReorg.DryBatchKeepsSpentCoin` | src/src/db/repositories/UnspentTransactionRepository.ts:172-190 | two blocks for which the gate on creations drops a spend |
| `UtxoReorg.StraddlingBatchLosesCoin` | src/src/db/repositories/UnspentTransactionRepository.ts:372-426 | one batch after whose partial rollback an unspent coin is missing |
| `UtxoReorg.OneVisibleSet` | src/src/db/repositories/UnspentTransactionRepository.ts:52-198 | a chain determines what a correct store shows |
| `UtxoHistory.KeepsMeans` | src/src/db/repositories/UnspentTransactionRepository.ts:52-91 | a creation survives exactly if it lies below every rollback after the round that wrote it |
| `UtxoHistory.KeepsSpendMeans` | src/src/db/repositories/UnspentTransactionRepository.ts:52-91 | the same for a spend |
| `UtxoHistory.StoreHolds` | src/src/db/repositories/UnspentTransactionRepository.ts:52-198 | after any number of rollback and ingest rounds the store holds exactly the creations and spends that survive |
| `UtxoHistory.HistoryTheorem` | src/src/db/repositories/UnspentTransactionRepository.ts:52-198 | after any number of reorganisations the visible set is the last chain's if and only if no unspent output and no kept output's spend was lost |
| `ParallelIngest.RunAll` | src/src/db/repositories/UnspentTransactionRepository.ts:172-190 | writes of all threads, interleaved in any way, leave per field a value that some operation wrote |
| `ParallelIngest.InsertConcurrently` | src/src/db/repositories/UnspentTransactionRepository.ts:93-198 | any number of threads inserting at once leave the store that their batches leave one after the other |
| `ContractPointers.NewestIsGreatest` | src/src/db/repositories/ContractPointerValueRepository.ts:152-190 | the read is the unique greatest version strictly below the height |
| `ContractPointers.ReadIsLedger` | src/src/db/repositories/ContractPointerValueRepository.ts:152-190 | a read at a height equals the fold of all block write-sets below it |
| `ContractPointers.AgreeingReads` | src/src/db/repositories/ContractPointerValueRepository.ts:152-190 | tables that agree below a height answer alike there |
| `ContractPointers.CrashedBlockIsInvisible` | src/src/db/repositories/ContractPointerValueRepository.ts:192-247 | partial writes at or above a height change no read at it and vanish with a purge from it |
| `ContractPointers.RollbackReads` | src/src/db/repositories/ContractPointerValueRepository.ts:37-58 | after a purge from h, a read at any height is the old read at the lower of the two |
| `ContractPointers.NextBlockSees` | src/src/db/repositories/ContractPointerValueRepository.ts:192-247 | later blocks see the previous storage overridden by exactly this block's writes |
| `ContractPointers.SetStoragePointers` | src/src/db/repositories/ContractPointerValueRepository.ts:192-247 | the batched, concurrent upserts commit the write-set, without the dummy address |
| `ContractPointers.CommitIgnoresDummies` | src/src/db/repositories/ContractPointerValueRepository.ts:192-247 | padding of the state tree never reaches the table |
| `PointerReads.GetByContractsAndPointers` | src/src/db/repositories/ContractPointerValueRepository.ts:60-150 | for every contract and requested pointer, in whatever order the groups come, the last entry with its bytes is its newest committed value |
| `VmStorage.VMManager.PrepareBlock` | src/src/vm/VMManager.ts:169-184 | one block at a time, starting from no writes |
| `VmStorage.VMManager.FinishBlock` | src/src/vm/VMManager.ts:186-212 | drops the overlay and the cache, keeps the table |
| `VmStorage.VMManager.UpdateBlockValuesFromResult` | src/src/vm/VMManager.ts:552-599 | a successful evaluation overrides slots in order; a reverted one leaves only its receipt |
| `VmStorage.VMManager.UpdateValues` | src/src/blockchain-indexer/processor/block/merkle/StateMerkleTree.ts:64-84 | the state tree is the map of last-written values |
| `VmStorage.VMManager.UpdateEvaluatedStates` | src/src/vm/VMManager.ts:601-625 | commits exactly the block's writes at its height and returns the padded state and the receipts with the previous checksum and version; without a good checksum nothing is written |
| `VmStorage.VMManager.SaveBlockStateChanges` | src/src/vm/VMManager.ts:1233-1287 | freezing pads small trees, and the commit filters the padding out again |
| `VmStorage.VMManager.GetStorage` | src/src/vm/VMManager.ts:1524-1600 | last value written in this block, else the newest committed one below it; throws exactly outside a block and for a height-0 version this block has neither written nor handed out |
| `VmStorage.VMManager.GetStorageMultiple` | src/src/vm/VMManager.ts:1427-1500 | for any number of contracts, the last entry per pointer is what the slot holds, for any mix of state, cache and database hits |
| `VmStorage.VMManager.MergeOne` | src/src/vm/VMManager.ts:1469-1482 | hits and database entries of one contract together: only requested pointers, only right values, the right one last |
| `VmStorage.VMManager.SplitHits` | src/src/vm/VMManager.ts:1438-1467 | pointers answered by the block state or the cache get the right value; the others are left for the database |
| `VmStorage.VMManager.Merge` | src/src/vm/VMManager.ts:1469-1482 | entries of the database come after the hits and lose none of them |
| `VmStorage.VMManager.CacheAll` | src/src/vm/VMManager.ts:1367-1425 | caching a grouped answer keeps every later read right, and warms exactly the slots that hold something |
| `VmStorage.PreloadedStorage` | src/src/vm/runtime/classes/ContractEvaluation.ts:384-403 | copying entries in order keeps the last one per pointer, with zero for null |
| `VmStorage.ContentIsLedger` | src/src/vm/VMManager.ts:1502-1600 | a block reads one map: the fold of all write-sets below it, overridden by its own writes |
| `VmStorage.SuccessIsRead` | src/src/vm/VMManager.ts:552-599 | after a successful evaluation a slot holds the last value that it wrote there, every other slot what it held, and the receipt is the result |
| `VmStorage.FailureIsNotRead` | src/src/vm/VMManager.ts:552-599 | a missing, reverted or empty evaluation writes no storage and leaves a zero receipt; throws exactly without a transaction id or without the storage of a success |
| `VmStorage.ReadMeans` | src/src/vm/VMManager.ts:1524-1600 | a written slot reads as written, any other as its greatest version below the block, or nothing if there is none |
| `VmStorage.PreloadMeans` | src/src/vm/runtime/classes/ContractEvaluation.ts:384-403 | a preload answers for exactly the requested contracts and pointers, with zero where a slot holds nothing |
| `VmStorage.SealMeans` | src/src/vm/VMManager.ts:601-625 | the receipts gain the previous checksum and the version in their own leaves; refused exactly without a checksum that is empty or 32 bytes long |
| `VmStorage.SealedState` | src/src/vm/VMManager.ts:601-625 | the state tree is what the block wrote, padded with two dummies below two values |
| `VmStorage.SealedTable` | src/src/db/repositories/ContractPointerValueRepository.ts:192-247 | the table gains exactly one version per written slot, at the height of the block |
| `VmStorage.SealedIsRead` | src/src/vm/VMManager.ts:169-1600 | what a slot holds when a block is sealed is what every later block reads |
| `VmStorage.BlockEndsMean` | src/src/vm/VMManager.ts:169-212 | a block starts empty and only when none is open; ending or reverting one keeps the table |
| `VmStorage.Simulate` | src/src/vm/VMManager.ts:169-1600 | in every run of prepared, applied, read, preloaded, sealed, terminated and reverted blocks each answer, thrown or not, and the final table are exactly those of the service without cache lookups and batching |
| `VmStorage.GenesisRead` | src/src/db/repositories/ContractPointerValueRepository.ts:152-190 | one committed version of height 0: the single read throws, the grouped read returns it, and then the single read returns it too |
| `KeyLinks.UpsertExposure` | src/src/db/repositories/MLDSAPublicKeysRepository.ts:95-149 | fails exactly for a bad length or when neither the link matches nor both keys are free; otherwise the link carries the key |
| `KeyLinks.AppliedMeans` | src/src/db/repositories/MLDSAPublicKeysRepository.ts:95-149 | an update stores the key and a positive height; on a known link it changes nothing else, and a new link has every field as requested |
| `KeyLinks.LinkOnce` | src/src/vm/VMManager.ts:712-740 | linking two unused keys and committing adds exactly that link, field by field |
| `KeyLinks.ExposeOnce` | src/src/db/repositories/MLDSAPublicKeysRepository.ts:120-149 | exposing a link without a key and committing stores key and height, and changes nothing else in the collection |
| `KeyLinks.AnswerMeans` | src/src/db/repositories/MLDSAPublicKeysRepository.ts:191-213 | an answer is a link not newer than the height whose hash, legacy or tweaked key is the key asked for; none exactly when there is none |
| `KeyLinks.RefusesMeans` | src/src/vm/VMManager.ts:777-844 | a request is refused exactly when its hash or its legacy key has another partner, or, not being pending, a twin is pending, the level differs or a length is wrong |
| `KeyLinks.SavePublicKeys` | src/src/db/repositories/MLDSAPublicKeysRepository.ts:95-149 | the bulk write never hits a unique index, in any order, and leaves the collection the block saw |
| `KeyLinks.VMManager.PendingFromTweakedKey` | src/src/vm/VMManager.ts:687-710 | a tweaked key found in the legacy index always leads to its own pending data |
| `KeyLinks.VMManager.GetFromLegacyKey` | src/src/vm/VMManager.ts:687-710 | the pending link, else a matching link of the collection or nothing exactly when none matches, whatever was cached in this block |
| `KeyLinks.AnswerBelongsToKey` | src/src/db/repositories/MLDSAPublicKeysRepository.ts:191-213 | for a key that is nobody's hash or legacy key the answer is the link of a legacy key that tweaks to it, and the only one when tweaking is injective |
| `KeyLinks.VMManager.ValidateLinkRequest` | src/src/vm/VMManager.ts:777-812 | duplicate exactly for the same pending pair; an error exactly for a pending hash with another key or a pending tweaked key, and then the request really conflicts |
| `KeyLinks.VMManager.ShouldInsertKey` | src/src/vm/VMManager.ts:814-844 | throws exactly for rejected requests, and skips exactly what is already stored |
| `KeyLinks.VMManager.AddInfoToStore` | src/src/vm/VMManager.ts:712-740 | a link succeeds exactly when nothing rejects it, and then changes only its own pair |
| `KeyLinks.VMManager.ExposePublicKey` | src/src/vm/VMManager.ts:742-775 | an existing exposure is never replaced |
| `KeyLinks.VMManager.SetPending` | src/src/vm/VMManager.ts:731-739 | the three indexes gain one pair and still agree, and the block's view gains its link |
| `KeyLinks.VMManager.Link` | src/src/vm/VMManager.ts:712-770 | the common path of both requests: refused exactly when rejected, otherwise stored unless there is nothing left to store |
| `KeyLinks.VMManager.SaveBlock` | src/src/vm/VMManager.ts:1233-1287 | the commit succeeds and the collection becomes what the block saw |
| `KeyLinks.VMManager.Discard` | src/src/vm/VMManager.ts:639-664 | an abandoned block leaves the collection alone |
| `KeyLinks.VMManager.RejectedIsRefused` | src/src/vm/VMManager.ts:777-844 | the three indexes reject what one pending map and the collection would reject |
| `KeyHistory.RunBlocks` | src/src/db/repositories/MLDSAPublicKeysRepository.ts:36-149 | every run leaves the one-map result, stays one-to-one and never changes a link; from dated keys a rollback is its exact inverse and exposed keys stay |
| `KeyHistory.BlockFacts` | src/src/db/repositories/MLDSAPublicKeysRepository.ts:36-149 | one block keeps the collection one-to-one and every link, never replaces a dated key, and is undone by a rollback |
| `KeyHistory.RollbackUndoes` | src/src/db/repositories/MLDSAPublicKeysRepository.ts:36-93 | a rollback takes back every commit at or above its height, over any run |
| `KeyHistory.RollbackExactlyWhen` | src/src/db/repositories/MLDSAPublicKeysRepository.ts:36-93 | rolling back restores the collection after every run if and only if each exposed key carries its height |
| `KeyHistory.UndatedAtZero` | src/src/db/repositories/MLDSAPublicKeysRepository.ts:297-320 | an exposure at height 0 is stored without its height |
| `Purge.DeleteAllIsUndo` | src/src/vm/storage/databases/VMMongoStorage.ts:195-418 | what deletes leave depends only on the heights they cover together |
| `Purge.DeleteMeans` | src/src/vm/storage/databases/VMMongoStorage.ts:195-420 | one delete, field by field: what is gone, which spends and exposures are undone, and that outputs stay without the flag |
| `Purge.AnyPartition` | src/src/vm/storage/databases/VMMongoStorage.ts:195-418 | range deletes over any partition, in any order and overlapping, equal the single delete, in all three stores |
| `Purge.WalkDown` | src/src/vm/storage/databases/VMMongoStorage.ts:345-405 | the descending batches equal the single delete for every batch size |
| `Purge.RevertDataUntilBlock` | src/src/vm/storage/databases/VMMongoStorage.ts:195-418 | whatever tip is recorded, the result is the single delete from the block |
| `Reorganisation.IngestBatches` | src/src/db/repositories/UnspentTransactionRepository.ts:93-198 | the repository object fed any batches of a valid chain holds the union of their facts |
| `Reorganisation.CommitStorage` | src/src/db/repositories/ContractPointerValueRepository.ts:192-247 | the table after any blocks, of which a purge below them leaves nothing |
| `Reorganisation.LiveReorg` | src/src/blockchain-indexer/processor/BlockIndexer.ts:521-579 | after any abandoned branch and one revert, contract storage and key links are exactly restored, and the unspent outputs if and only if no batch lost a coin or a spend |
| `Indexer.StepKeepsOneTask` | src/src/blockchain-indexer/processor/BlockIndexer.ts:682-864 | every step keeps: one task in process exactly while the flag is set, the current task is that one or none, the queue fits |
| `Indexer.OneTaskAlways` | src/src/blockchain-indexer/processor/BlockIndexer.ts:732-864 | in every run at most one task is in process and the error for two running tasks is unreachable |
| `Indexer.StepKeepsLocked` | src/src/blockchain-indexer/processor/BlockIndexer.ts:436-638 | the lock is held exactly during a revert or after one failed halfway, with an empty queue from its first stop on |
| `Indexer.QuietRunIsLocked` | src/src/blockchain-indexer/processor/BlockIndexer.ts:436-638 | so in every run without an unguarded report |
| `Indexer.OneRevertExactlyWhen` | src/src/blockchain-indexer/processor/BlockIndexer.ts:422-579 | reverts never overlap if and only if the watchdog never reports while the lock is held |
| `Indexer.NoRaceNoIntrusion` | src/src/blockchain-indexer/processor/reorg/ReorgWatchdog.ts:111-158 | a report comes during a lock only after a regression met a task waiting for its verdict |
| `Indexer.RaceOverlaps` | src/src/blockchain-indexer/processor/BlockIndexer.ts:422-471 | after such a regression the verdict can start a second revert |
| `Indexer.OverlapExample` | src/src/blockchain-indexer/processor/BlockIndexer.ts:422-471 | four events from start-up to two overlapping reverts |
| `Indexer.LockOutIsAbsorbing` | src/src/blockchain-indexer/processor/BlockIndexer.ts:560-579 | once a step failed after storage was modified, no event starts a task or a revert, fills the queue or releases the lock |
| `Indexer.LockStopsTasks` | src/src/blockchain-indexer/processor/BlockIndexer.ts:682-864 | while the lock is held no step starts a task or adds to the queue |
| `Heights.StepKeepsConsistent` | src/src/blockchain-indexer/processor/BlockIndexer.ts:436-864 | every step, unless it is a report under the lock, keeps current task, queue and next height together and cut-off tasks cancelled |
| `Heights.StepKeepsPlaceExactly` | src/src/blockchain-indexer/processor/BlockIndexer.ts:436-864 | a step takes the recorded height out of step with the next block if and only if it slips |
| `Heights.InOrderExactlyWhen` | src/src/blockchain-indexer/processor/BlockIndexer.ts:436-864 | in every run without a report under the lock, the heights stay in step if and only if no event slips |
| `Heights.BlocksComeInOrder` | src/src/blockchain-indexer/processor/BlockIndexer.ts:682-776 | in every run without the three causes, whenever no revert is in flight, the next block is the recorded one or the one above it |
| `Heights.RevertedHeightSurvives` | src/src/blockchain-indexer/processor/BlockIndexer.ts:732-742 | after a regression every calm continuation stays in step if and only if no task with another height was past its last check |
| `Heights.OverwriteExample` | src/src/blockchain-indexer/processor/BlockIndexer.ts:732-742 | a run in which a regression meets such a task |
| `Heights.FailedRevertDropsBlock` | src/src/blockchain-indexer/processor/BlockIndexer.ts:560-579 | a run in which a revert that fails before touching storage has dropped the block in process: the next height is two above the recorded one |
| `Heights.FailedRevertExactly` | src/src/blockchain-indexer/processor/BlockIndexer.ts:560-579 | such a revert leaves the heights in step if and only if it dropped nothing, that is, the next height to be queued is the recorded one or the one above it |
| `Heights.FirstBlocksArePassedOver` | src/src/blockchain-indexer/processor/BlockIndexer.ts:804-819 | a run in which the block right above height 0 or 1 fails and is passed over |
| `Heights.GivingUpExactly` | src/src/blockchain-indexer/processor/BlockIndexer.ts:804-819 | a block that fails while the recorded height is 0 or 1 moves the next height up by one and the recorded one not at all |
| `Heights.RevertRegainsPlace` | src/src/blockchain-indexer/processor/observer/ChainObserver.ts:131-159 | a revert that reaches the observer puts recorded and next height back together, wherever they were |
| `Heights.ErrorRegainsPlace` | src/src/blockchain-indexer/processor/BlockIndexer.ts:790-819 | from any place, an error in the current block and its revert bring the node back to the recorded height, if that is above 1 |
| `IndexerRuns.WatchdogReverts` | src/src/blockchain-indexer/processor/BlockIndexer.ts:427-429 | a reported reorganisation takes recorded and next height to the reported height, with an empty queue |
| `IndexerRuns.RegressionReverts` | src/src/blockchain-indexer/processor/BlockIndexer.ts:436-492 | a block event at or below the recorded height takes both heights to that block |
| `IndexerRuns.ErrorReverts` | src/src/blockchain-indexer/processor/BlockIndexer.ts:804-819 | an error in the current block takes both heights to the recorded one |
| `IndexerRuns.FailedReverts` | src/src/blockchain-indexer/processor/BlockIndexer.ts:560-584 | a revert that fails after the storage was modified locks the node; before, it unlocks it and leaves the heights alone |
| `IndexerRuns.WatchdogGoesOn` | src/src/blockchain-indexer/processor/BlockIndexer.ts:427-584 | the cancelled task returns and the next task is for the reported height |
| `IndexerRuns.RegressionGoesOn` | src/src/blockchain-indexer/processor/BlockIndexer.ts:436-492 | an idle node goes on with the replaced block |
| `IndexerRuns.FailedWatchdogGoesOn` | src/src/blockchain-indexer/processor/BlockIndexer.ts:560-584 | when the revert fails early the cancelled task fails and the next height is taken up |
| `IndexerRuns.BlockGoesOn` | src/src/blockchain-indexer/processor/BlockIndexer.ts:728-822 | an undisturbed block is recorded and the task for the next height starts |
| `IndexerRuns.BlockEventGoesOn` | src/src/blockchain-indexer/processor/BlockIndexer.ts:436-472 | a new block starts an idle node and fills the queue of a busy one, for consecutive heights up to the prefetch size or the target |
| `IndexerRuns.CutOffGoesOn` | src/src/blockchain-indexer/processor/BlockIndexer.ts:790-864 | a cut-off task that fails makes way for the next height |
| `IndexerRuns.VerdictReplacesFlag` | src/src/blockchain-indexer/processor/tasks/IndexingTask.ts:340-360 | the verdict of the watchdog replaces the flag of the task; only an unflagged and uncancelled task completes |
| `IndexerRuns.CancelledNeverRecords` | src/src/blockchain-indexer/processor/tasks/IndexingTask.ts:228-420 | a task cancelled before its last check never records its height, in any run |
| `BlockIndexer.Processor.StartTasks` | src/src/blockchain-indexer/processor/BlockIndexer.ts:682-730 | fills the queue up to the prefetch size and starts one task, unless locked |
| `BlockIndexer.Processor.CancelCurrentTask` | src/src/blockchain-indexer/processor/tasks/IndexingTask.ts:228-240 | marks the running task, and no other, as cancelled |
| `BlockIndexer.Processor.Perform` | src/src/blockchain-indexer/processor/BlockIndexer.ts:436-864 | any step of the object is a step of the protocol and keeps its invariant; under the lock no task starts and the queue does not grow; only a report under the lock can spoil it |
| `BlockIndexer.Drive` | src/src/blockchain-indexer/processor/BlockIndexer.ts:436-864 | every state the object passes through has one task exactly when the flag says so; under the lock nothing starts; without reports under a lock the lock is right and the heights stay in step if and only if no event slips |
| `Checksum.BlockHeaderValidator.SetToCache` | src/src/vm/BlockHeaderValidator.ts:186-202 | the whole new cache: reset above 100, otherwise one header more |
| `Checksum.BlockHeaderValidator.GetBlockHeader` | src/src/vm/BlockHeaderValidator.ts:39-52 | below every height written since the last clear the answer is the stored header, whatever is cached |
| `Checksum.BlockHeaderValidator.SetLastBlockHeader` | src/src/vm/BlockHeaderValidator.ts:27-29 | a header handed in late, after its block was reverted, is trusted by nobody |
| `Checksum.Simulate` | src/src/vm/BlockHeaderValidator.ts:15-73 | in every run of stores, reverts, late hand-ins and clears, a read below what was written since the last clear gives the header stored at that moment |
| `Checksum.RevertedHeadersAreNotRead` | src/src/vm/BlockHeaderValidator.ts:27-52 | after a revert, and whatever is handed in late, the header below the revert height is read right and no reverted one is trusted |
| `Checksum.BlockHeaderValidator.GetPreviousBlockChecksumOfHeight` | src/src/vm/BlockHeaderValidator.ts:54-73 | for a header below those heights: zero at genesis, the stored root, else an error on a full node |
| `Checksum.BlockHeaderValidator.ValidateBlockChecksum` | src/src/vm/BlockHeaderValidator.ts:76-184 | with such a predecessor: yes exactly when the link and all six proofs hold; throws exactly when data or a proof is missing |
| `Checksum.BlockHeaderValidator.VerifyProofs` | src/src/vm/BlockHeaderValidator.ts:128-212 | yes exactly when all six values are proved; throws exactly when a proof is missing |
| `Checksum.AcceptedMeans` | src/src/vm/BlockHeaderValidator.ts:76-184 | accepted exactly when no field is missing, the link is right, and the root has a valid proof for each named value at its own index 0 to 5 |
| `Checksum.ThrowsMeans` | src/src/vm/BlockHeaderValidator.ts:76-184 | throws exactly for a missing field, a missing root below on a full node, or, when the link is right, an index without proof |
| `Checksum.PreviousMeans` | src/src/vm/BlockHeaderValidator.ts:54-73 | the root to be named: zero at genesis, the stored one, and on a light node zero if there is none |
| `Checksum.BelowMeans` | src/src/vm/BlockHeaderValidator.ts:27-52 | the reads answered for are those below everything stored, reverted or handed in unstored since the last clear |
| `Checksum.StoredMeans` | src/src/vm/BlockHeaderValidator.ts:39-52 | the header stored at a height is the last one stored or the initial one, unless a revert deleted it |
| `Checksum.ChecksumCommits` | src/src/vm/BlockHeaderValidator.ts:54-184 | two full nodes with one root at n agree on all six committed values at every height up to n |
| `Checksum.AlterationChangesRoot` | src/src/vm/BlockHeaderValidator.ts:54-184 | altering a header changes the root at every validated height from there on |
| `Mempool.RowsAreCoherent` | src/src/db/repositories/MempoolRepository.ts:435-470 | with unique ids, rows of one transaction carry the same bytes |
| `Mempool.RowsMean` | src/src/db/repositories/MempoolRepository.ts:435-470 | the rows are exactly the outputs to the address, with id and bytes of their transaction, of the first `limit` transactions that pay it |
| `Mempool.PayingJoins` | src/src/db/repositories/MempoolRepository.ts:435-470 | the filter works output by output, so order and repetitions stay |
| `Mempool.Ids7` | src/src/db/repositories/MempoolRepository.ts:564-671 | the version 7 list has every transaction once, each with its own bytes |
| `Mempool.ShapeHolds` | src/src/db/repositories/MempoolRepository.ts:435-562 | the version 8 list is the version 7 list with the first transaction inserted once more at a known place |
| `Mempool.SameUtxos` | src/src/db/repositories/MempoolRepository.ts:435-671 | both versions return the same outputs in the same order |
| `Mempool.PositionsPointHome` | src/src/db/repositories/MempoolRepository.ts:435-671 | in both, every output's index leads to its own transaction's bytes |
| `Mempool.RawLists` | src/src/db/repositories/MempoolRepository.ts:435-671 | version 8 is one longer if and only if the first transaction repeats, and otherwise identical |
| `Mempool.SentTwiceExactlyWhen` | src/src/db/repositories/MempoolRepository.ts:435-562 | the extra entry is sent exactly when the first transaction that pays the address pays it more than once |
| `Mempool.TwoOutputsSentTwice` | src/src/db/repositories/MempoolRepository.ts:435-562 | a transaction with two outputs to the address: version 7 sends its bytes once, version 8 twice |
| `Mempool.IndexTransactions` | src/src/db/repositories/UnspentTransactionRepository.ts:282-306 | the in-memory loop computes the version 7 list and valid positions |
| `RateLimit.Limiter.CheckRateLimit` | src/src/api/websocket/WebSocketClient.ts:449-462 | accepts exactly when fewer than the maximum lie in the last second, and keeps only those |
| `RateLimit.Simulate` | src/src/api/websocket/WebSocketClient.ts:449-462 | in every run, unless the clock comes back, no one-second window holds more than the maximum of accepted requests |
| `RateLimit.WindowMeans` | src/src/api/websocket/WebSocketClient.ts:449-462 | a window counts the timestamps of the last 1000 milliseconds |
| `RateLimit.RecentMeans` | src/src/api/websocket/WebSocketClient.ts:449-462 | the filter keeps as many as are later than 1000 milliseconds ago |
| `RateLimit.ForgettingIsHarmless` | src/src/api/websocket/WebSocketClient.ts:449-462 | with a non-decreasing clock, discarding old timestamps changes no decision |
| `RateLimit.WindowNeverOverflows` | src/src/api/websocket/WebSocketClient.ts:449-462 | if no request comes within a second of one that the clock had been a second past, no window, wherever it lies, holds more than the maximum |
| `RateLimit.LimitHoldsExactlyWhen` | src/src/api/websocket/WebSocketClient.ts:449-462 | a clock keeps every limit, whatever requests come at its readings, if and only if it never comes back within a second of a reading it had been a second past |
| `RateLimit.Conservation` | src/src/api/websocket/WebSocketClient.ts:449-462 | in every window, accepted requests are those still held plus those forgotten |
| `RateLimit.ForwardNeverReturns` | src/src/api/websocket/WebSocketClient.ts:449-462 | a non-decreasing clock never comes back |
| `RateLimit.ClockComingBack` | src/src/api/websocket/WebSocketClient.ts:449-462 | two requests, one a second later, and one when the clock is back within a second of the first: three in one second pass a limit of two |
| `Backpressure.Client.Send` | src/src/api/websocket/WebSocketClient.ts:275-301 | a message joins the end of the line exactly when the call reports success |
| `Backpressure.Client.OnDrain` | src/src/api/websocket/WebSocketClient.ts:362-383 | sends in order until refused, dropping only messages on which the socket throws |
| `Backpressure.FlushKeepsOrder` | src/src/api/websocket/WebSocketClient.ts:362-383 | a drain reorders and duplicates nothing, and loses nothing unless the socket throws |
| `Backpressure.FlushMeans` | src/src/api/websocket/WebSocketClient.ts:362-383 | a drain works off the queue up to the first refused message, sends the accepted ones in order and keeps the rest; only thrown ones are lost |
| `Backpressure.Simulate` | src/src/api/websocket/WebSocketClient.ts:275-383 | in every run accepted messages followed by the queue are what was passed to send |
| `RequestIds.BytesRoundTrip` | src/src/api/websocket/ProtocolHandler.ts:122-123 | four bytes decoded by signed shifts and encoded again come back, sign bit or not |
| `RequestIds.IdRoundTrip` | src/src/api/websocket/WebSocketClient.ts:343-357 | every 32-bit id is the decoding of its encoding |
| `RequestIds.LeastFirst` | src/src/api/websocket/ProtocolHandler.ts:122-123 | the four bytes are read least significant first |
| `RequestIds.ReplyEchoesId` | src/src/api/websocket/WebSocketClient.ts:343-357 | a reply carries the request's id bytes at positions 1 to 4 and the payload behind them |
| `Session.Client.StartRequest` | src/src/api/websocket/WebSocketClient.ts:195-211 | admits exactly when active, below the pending limit and within the rate; a full client uses no rate slot |
| `Session.Client.Close` | src/src/api/websocket/WebSocketClient.ts:404-422 | an active connection ends closed |
| `Session.Client.CloseWithError` | src/src/api/websocket/WebSocketClient.ts:388-399 | an active connection ends closed, any other is left alone |
| `Session.Client.HandleHandshake` | src/src/api/websocket/ProtocolHandler.ts:215-295 | a fresh connection becomes ready for a good handshake whose reply can be built, and closes for any other |
| `Session.Client.HandlePluginOpcode` | src/src/api/websocket/ProtocolHandler.ts:300-399 | every plugin request of a ready session is answered or in flight; before the handshake the connection closes |
| `Session.Client.ProcessMessage` | src/src/api/websocket/ProtocolHandler.ts:60-168 | every request of a ready session is served or answered at once; any other message only moves the state, and before the handshake closes the connection |
| `Session.Client.OnMessage` | src/src/api/websocket/WebSocketManager.ts:284-305 | on any connection, in any state, a message keeps requests conserved and states moving forward |
| `Session.RequestMeans` | src/src/api/websocket/ProtocolHandler.ts:60-168 | which messages are requests, by opcode number and length, and that the id is their bytes 1 to 4 |
| `Session.FirstMessageMeans` | src/src/api/websocket/ProtocolHandler.ts:60-295 | before the handshake: ready exactly for a well-formed handshake of version 1 with a name of 1 to 64 characters, unchanged exactly for a ping, closed for anything else |
| `Session.LaterMessageMeans` | src/src/api/websocket/ProtocolHandler.ts:60-399 | in a ready session: a request is served or answered, an empty message or unserved opcode closes, anything else changes nothing |
| `Session.RankMeans` | src/src/api/websocket/WebSocketClient.ts:404-440 | forward means never back to fresh, from closing only to closed, and never out of closed |
| `Session.AskedMeans` | src/src/api/websocket/ProtocolHandler.ts:99-168 | what was asked is the ids of exactly the requests, in order |
| `Session.MessageIsHandled` | src/src/api/websocket/ProtocolHandler.ts:99-168 | a message adds exactly its own request to those answered or served |
| `Session.HandlerIsHandled` | src/src/api/websocket/ProtocolHandler.ts:147-168 | a returning handler moves its request from served to answered while anybody is there |
| `Session.Client.Serve` | src/src/api/websocket/ProtocolHandler.ts:121-155 | a decoded request runs exactly when it unpacks, has a handler and there is room, and is answered at once otherwise |
| `Session.Client.FinishHandler` | src/src/api/websocket/ProtocolHandler.ts:147-168 | a returning handler answers once and takes exactly one from the counter |
| `Session.Simulate` | src/src/api/websocket/ProtocolHandler.ts:60-484 | in every run the counter is the number of running handlers within the limit, nothing is served before a handshake, states move forward, requests are conserved, and no second admits more than the rate |
| `WorkerPool.WorkerPoolManager.NextId` | src/src/blockchain-indexer/worker/WorkerPoolManager.ts:68-73 | the search ends below 2^32 tasks in flight and returns the first free id around the wrap |
| `WorkerPool.NextMeans` | src/src/blockchain-indexer/worker/WorkerPoolManager.ts:68-73 | ids count up modulo 2^32, and distances are numbers of steps |
| `WorkerPool.Pigeonhole` | src/src/blockchain-indexer/worker/WorkerPoolManager.ts:68-73 | fewer ids in use than ids leave one free |
| `WorkerPool.WorkerPoolManager.Parse` | src/src/blockchain-indexer/worker/WorkerPoolManager.ts:31-49 | registers the call under an unused id of the next worker; a throwing post rejects it but leaves it registered |
| `WorkerPool.ReplyFindsOwner` | src/src/blockchain-indexer/worker/WorkerPoolManager.ts:82-103 | the entry under a reply's id belongs to the call that posted the task, and all other owners stay |
| `WorkerPool.WorkerPoolManager.OnMessage` | src/src/blockchain-indexer/worker/WorkerPoolManager.ts:82-103 | a reply fires the callbacks of the call that posted its task |
| `WorkerPool.WorkerPoolManager.OnFailure` | src/src/blockchain-indexer/worker/WorkerPoolManager.ts:105-118 | every registered caller of the worker is rejected once and forgotten |
| `WorkerPool.WorkerPoolManager.Close` | src/src/blockchain-indexer/worker/WorkerPoolManager.ts:51-60 | nothing stays registered |
| `WorkerPool.TurnIsRemainder` | src/src/blockchain-indexer/worker/WorkerPoolManager.ts:62-66 | the cursor is the number of calls modulo the pool size |
| `WorkerPool.DueTwiceExactlyWhen` | src/src/blockchain-indexer/worker/WorkerPoolManager.ts:31-49 | a call's callbacks are due twice if and only if its own post threw, and otherwise once |
| `WorkerPool.Simulate` | src/src/blockchain-indexer/worker/WorkerPoolManager.ts:31-118 | in every run answers reach their owners, callbacks fired plus registered are exactly those due, and workers take turns |
| `WorkerPool.FiredMeans` | src/src/blockchain-indexer/worker/WorkerPoolManager.ts:31-118 | the balance counts log entries and table entries of a call |
| `WorkerPool.ThrowingPostFiresTwice` | src/src/blockchain-indexer/worker/WorkerPoolManager.ts:31-60 | one throwing post and a closing pool: the caller is fired twice |

## Left out

- Merkle trees, hashes, signatures and key tweaking are uninterpreted; the checksum theorem assumes that a root proves at
  most one value per index.
- The WASM machine, gas, epochs, plugins' own code and the peer-to-peer layer.
- Executor mode, reads at mixed heights and the proof-checking read mode: the pointer cache is not keyed by height there.
- Purging of old spent outputs (off by default).
- VmStorage.VMManager.UpdateEvaluatedStates: the trees are maps; their roots and proofs are not modelled.
- VmStorage.Simulate: the direct `setStorage` path has no caller in indexer mode and is not an event.
- KeyLinks.VMManager.PendingFromTweakedKey: states the pending part of the lookup; `GetFromLegacyKey` states all of it.
- KeyHistory.RunBlocks: link requests of one block run one after the other, as the block's transactions do.
- Indexer.OneTaskAlways: start-up repair, light mode and the block-limit development modes are not events.
- Indexer.LockOutIsAbsorbing: excludes the unguarded watchdog report, which can still start a revert on a locked node.
- Checksum.ChecksumCommits: light nodes, which accept a missing previous header, are outside the theorem.
- Mempool.IndexTransactions: fetching the raw transactions for the unique ids is not modelled.
- Session.Client.ProcessMessage: the payloads of errors, pongs and handshake replies are not modelled, nor the cross-thread
  plugin path, which is for nodes without a plugin registry while its caller checks that there is one.
- Session.Simulate: a reply counts as given when it is handed to `send`; what the socket does with it is `Backpressure`.
- Backpressure.Simulate: closing the connection is one event; subscriptions are not modelled.
- WorkerPool.WorkerPoolManager.OnMessage: a worker answers only tasks it holds, each once, as its message handler does; error
  texts and malformed answers are one outcome.
- Error texts are abbreviated: only whether an operation fails is stated.
- RateLimit.WindowNeverOverflows: a single run may break its condition and stay within the limit; necessity is over all runs of
  a clock, in `LimitHoldsExactlyWhen`.
- Heights.BlocksComeInOrder: the observer's reset during a revert is one step; a reset that fails halfway only counts as failed.
- Block heights are natural numbers.
- JSON-RPC batching, HTTP routes, opcode tables and configuration would only add easy members.
