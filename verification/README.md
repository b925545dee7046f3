# Verified model of the Supra RPC node's stateful cores

This project models, in Dafny, the parts of the RPC node and the genesis tool whose behaviour is
hardest to see from the code, and proves what they keep over whole runs.

**Chain state assembler.** Blocks arrive from an untrusted provider in any order and with duplicates.
The assembler verifies them, executes the direct successor of the last executed block, caches the rest,
asks for what is missing, and stops at epoch changes. `AssemblerSpec` is this machine over plain
values, one function per arm of the program's step; the blocks that wait are a plain map of full
blocks. Every input/output operation of a step has a success flag in the event, so a run ranges over
all failures, and a failed operation leaves on disk what a crash at that point would leave.

- `AssemblerSafety`, `AssemblerRequests`, `AssemblerAnswers`, `StoredBlocks` and `Lifetime`: no assumption
  on what is received. A node's life begins on a blank disk and is any number of sessions separated by
  crashes and restarts. `AssemblerRequests` is about what the node asks for, `AssemblerAnswers` about what
  one event leads to, `StoredBlocks` about what is on disk.
- `AssemblerProgress` and `CanonicalLifetime`: blocks come from one canonical chain (one block per
  height, hash-linked, epochs not falling, canonical blocks verify, the executor reports an epoch
  change exactly on an epoch's last block, notifications arrive only after that).
- `BlockStore`, `SynchronizationContext`, `BlockVerifier` and `ChainStateAssembler` are the program's
  objects. The store keeps near blocks in memory and far ones as memos of what is on disk. Their
  methods are proved to do exactly what the plain machine does, for every bucket size, which is the
  transparency of the cache; all results about runs therefore hold of `ChainStateAssembler.Run`.

**Paged Move listing** (`MoveList`). A walk over sorted keys, some of which expand to groups.

**Gas statistics** (`GasWindow`, `CircularBuffer`, `OnlineMeanModule`). A circular buffer against the
naive statistics of the last values. `NatSeqs` holds sums, sorting and counting.

**Genesis stake balancing** (`Genesis`), **faucet minters** (`FaucetMinters`, and `FaucetFunding` for which
requests are served) and **faucet limits** (`FaucetLimiter`).

`dafny verify dfyconfig.toml` checks everything.

Results that differ from what the code says it does:

- A first start writes two records. If it fails between them, no later start accepts the disk
  (`Lifetime.FirstStart`).
- The record of an epoch's end is written after the last block of the epoch was executed. If that write
  fails, start-up as modelled does not make up for it (`StoredBlocks.BoundaryCanBeLost`).
- Page splitting holds of a cursor exactly when it does not point into a single item. A made-up cursor
  that does is answered by the same item and the same cursor for ever (`MoveList.StuckCursor`).
- After the gas sum has saturated it can stay too low (`GasWindow.SaturationDrifts`). In a run of
  insertions it is exact throughout if and only if no addition saturates (`GasWindow.ExactThroughout`),
  and a batch of small values that fills the buffer makes it exact again.
- The pool for a delegator is chosen among the pools of all schedules but indexed within the current
  one. A configuration is assigned correctly exactly when every schedule that hands out stake has a pool
  and no earlier schedule with a list of accounts, even an empty one, took pools
  (`Genesis.AllFaithfulExactly`, `Genesis.TwoSchedulesPanic`).
- The tally of delegators per pool starts at 0, so a pool may hold one more than the stated maximum
  (`Genesis.AssignDelegators`, `Genesis.LimitIsOneShort`).
- The faucet limiter judges a request and counts it under separate locks. Counted uses always keep the
  limits, accepted requests do not (`FaucetLimiter.RacingRequests`): the daily limit can be relied on
  exactly when an account's requests of one day do not overlap (`FaucetLimiter.DailyLimitExactly`).
- The comment on `try_post_sync_request` speaks of a regression error; the code raises a fatal one, and
  the model follows the code. Neither is reachable.

## Model

| member | source | states |
|---|---|---|
| AssemblerSafety.ExecuteBlockSafe | rpc_node/src/consensus/chain_state_assembler.rs:571-588 | executing a verified, stored, direct successor keeps one linked chain whose end is the executed record, at every point where it may fail |
| AssemblerSafety.ScheduleNextSafe | rpc_node/src/consensus/chain_state_assembler.rs:516-536 | handing the next waiting block to the channel never finds it full and keeps single flight |
| AssemblerSafety.PersistedSafe | rpc_node/src/consensus/chain_state_assembler.rs:416-441 | persisting a block that has no entry overwrites no waiting, scheduled or executed block, and stores all its batches |
| AssemblerSafety.HandleFullBlockSafe | rpc_node/src/consensus/chain_state_assembler.rs:423-456 | handling a verified block keeps the invariant and raises no regression or store-usage error |
| AssemblerSafety.HandleIncomingSafe | rpc_node/src/consensus/chain_state_assembler.rs:353-418 | any received block at all keeps the invariant |
| AssemblerSafety.HandleScheduledSafe | rpc_node/src/consensus/chain_state_assembler.rs:458-480 | a scheduled block is always the next one and never meets an ended epoch |
| AssemblerSafety.HandleNotificationSafe | rpc_node/src/consensus/chain_state_assembler.rs:308-349 | any epoch notification keeps the invariant or ends the run |
| AssemblerSafety.StepSafe | rpc_node/src/consensus/chain_state_assembler.rs:250-297 | every step, on any event and with any failure, keeps the invariant; only external errors occur |
| AssemblerSafety.RunSafe | rpc_node/src/consensus/chain_state_assembler.rs:220-245 | so does a whole session |
| Lifetime.LiveSafe | rpc_node/src/consensus/chain_state_assembler.rs:160-245 | so does a whole life of sessions, crashes and restarts |
| Lifetime.ChainSafety | rpc_node/src/consensus/chain_state_assembler.rs:486-588 | over a whole life from a blank disk on, the executed blocks form one hash-linked chain from the genesis block first started with, heights rising by one, each later one verified and on disk; committed and executed agree while running |
| Lifetime.ExecutedWasVerified | rpc_node/src/consensus/block_verifier.rs:88-139 | every executed block had a commit certificate, was consistent with its batches, belonged to the epoch current when it was accepted and was signed by its committee unless that check is off; its batches are on disk |
| Lifetime.NeverRollsBack | rpc_node/src/consensus/chain_state_assembler.rs:571-588 | what was executed at any moment is a prefix of what is executed later, across crashes |
| Lifetime.SingleFlight | rpc_node/src/consensus/chain_state_assembler.rs:503-537 | the channel holds a block exactly when the next entry is scheduled, no other entry is, and it is empty when the epoch is over |
| Lifetime.InternalErrorsUnreachable | rpc_node/src/consensus/synchronizer.rs:59-90 | a pending request is for the next height; sync mismatch, full channel, regression and store-usage errors are unreachable, and which errors end the run |
| Lifetime.CrashConsistency | rpc_node/src/consensus/block_store.rs:199-255 | wherever a node stops, its records are equal or parent-linked, initialisation accepts them, and a restart brings them level |
| Lifetime.InitializeExactly | rpc_node/src/consensus/block_store.rs:199-255 | exactly which disks initialisation accepts, and what it has written when it stops: the genesis block in both records of a blank disk, and nothing on another |
| Lifetime.FirstStartComesUp | rpc_node/src/consensus/chain_state_assembler.rs:160-198 | a first start with working writes comes up safe, with genesis executed and any child of genesis as the next block to execute |
| Lifetime.BootIsFresh | rpc_node/src/consensus/chain_state_assembler.rs:160-198 | every session begins with nothing received, seen, pending, scheduled or requested |
| Lifetime.FirstStart | rpc_node/src/consensus/block_store.rs:205-223 | a failed first start can be repeated if and only if it did not fail between its two writes |
| AssemblerRequests.StepAsks | rpc_node/src/consensus/synchronizer.rs:39-82 | exactly what a step sends: the next height, once, when it becomes pending and on every timer while it is, if the send works; it is pending only while it is missing in a running epoch and something at or above it was seen |
| AssemblerRequests.RequestsAreSent | rpc_node/src/consensus/chain_state_assembler.rs:542-564 | in every session everything requested was the next height at that time, and if the sends work the pending request is the last one sent |
| AssemblerRequests.HighestIsHighest | rpc_node/src/consensus/chain_state_assembler.rs:383-394 | the highest block observed is a highest one of all received in the session, of whatever epoch |
| AssemblerAnswers.IncomingExactly | rpc_node/src/consensus/block_verifier.rs:88-139 | a received block ends the run as byzantine exactly when it is forged and not ignored, and as a mismatch exactly when it is stored at the next height with another parent; an ignored or old one leaves no trace but in what was seen; a current one is stored |
| AssemblerAnswers.NotificationExactly | rpc_node/src/consensus/chain_state_assembler.rs:308-349 | exactly which notifications end the run; otherwise the new epoch is adopted and exactly the pending blocks above its first height stay |
| AssemblerAnswers.StepDone | rpc_node/src/consensus/chain_state_assembler.rs:503-588 | a step executes a block only if one is due and its commitment was written, and goes on only if executor, boundary record and reload worked; a due block is executed or the run ends |
| AssemblerAnswers.RunBoundary | rpc_node/src/consensus/chain_state_assembler.rs:509-515 | in every session a state whose epoch is over holds the certificate of its last executed block as boundary record, unless it began so and has executed nothing |
| StoredBlocks.PersistExactly | rpc_node/src/consensus/block_store.rs:261-273 | after any number of writes: the last batch of each key written so far, other keys as before, the block only after all its batches, no record touched |
| StoredBlocks.BlocksHaveTheirBatches | rpc_node/src/consensus/chain_state_assembler.rs:440-441 | at every point of a life, also after a crash while storing, every block the node put on disk is there with all its batches and their contents, if equal keys carry equal batches |
| StoredBlocks.ExecutedInFull | rpc_node/src/consensus/chain_state_assembler.rs:571-588 | so every block is executed with the batches it was received with |
| StoredBlocks.BoundaryCanBeLost | rpc_node/src/consensus/chain_state_assembler.rs:503-515 | the boundary record survives a restart exactly if its write worked |
| AssemblerProgress.TrySyncCanon | rpc_node/src/consensus/chain_state_assembler.rs:542-564 | after trying to sync, nothing seen above the last executed block is left without a wake-up |
| AssemblerProgress.ExecuteChainCanon | rpc_node/src/consensus/chain_state_assembler.rs:503-537 | executing the next canonical block ends awake, or at the end of the epoch with nothing pending |
| AssemblerProgress.HandleIncomingCanon | rpc_node/src/consensus/chain_state_assembler.rs:353-456 | a canonical block, early, late or repeated, is executed or kept, and no error arises |
| AssemblerProgress.StepCanon | rpc_node/src/consensus/chain_state_assembler.rs:250-297 | every step on a canonical chain keeps the canonical invariant and is free of internal errors |
| AssemblerProgress.ErrorFreedom | rpc_node/src/consensus/chain_state_assembler.rs:220-245 | in every run a step ends the run only if its own input/output failed or the input closed, and a failed send is survived |
| AssemblerProgress.NoLostWakeUp | rpc_node/src/consensus/chain_state_assembler.rs:326-394 | in every run the epoch is over, or nothing new was seen, or the next block is in the channel, or exactly it is requested |
| AssemblerProgress.DeliveryOrder | rpc_node/src/consensus/chain_state_assembler.rs:401-537 | whenever the channel is empty, exactly the longest contiguous run of received heights has been executed |
| AssemblerProgress.ReceivedIsDelivered | rpc_node/src/consensus/chain_state_assembler.rs:353-363 | within one epoch the heights received are those of the events of that epoch |
| AssemblerProgress.OrderIndependence | rpc_node/src/consensus/chain_state_assembler.rs:401-537 | two sessions of one epoch sent the same heights, in any order and with any duplication, have executed the same blocks once both channels are empty: those of the longest contiguous run |
| AssemblerProgress.CatchUp | rpc_node/src/consensus/chain_state_assembler.rs:27-42 | with working input/output and a provider that only answers the last request it was sent, every height seen is reached within two steps a block, across epoch changes |
| AssemblerProgress.EverySessionCatchesUp | rpc_node/src/consensus/chain_state_assembler.rs:27-42 | this holds from every point of every canonical session, whichever sends failed before |
| CanonicalLifetime.BootCanon | rpc_node/src/consensus/chain_state_assembler.rs:160-198 | every start, the first one or one after any crash, begins a new canonical session, also one in the epoch that had just ended |
| CanonicalLifetime.NeverAsleepForGood | rpc_node/src/consensus/chain_state_assembler.rs:220-245 | over a life from a blank disk on with crashes a running node is always awake, and what it executed is the canonical chain |
| BlockStoreModule.BoundedMemory | rpc_node/src/consensus/block_store.rs:112-119 | a store trimmed to above the last committed height holds at most its bucket size of full blocks |
| BlockStoreModule.BlockStore.Initialize | rpc_node/src/consensus/block_store.rs:199-255 | accepts, refuses and writes as the start-up specification says, for each number of successful writes |
| BlockStoreModule.BlockStore.Persist | rpc_node/src/consensus/block_store.rs:261-273 | writes the batches in order, then the block; away from cached heights the pending blocks are untouched |
| BlockStoreModule.BlockStore.Cache | rpc_node/src/consensus/block_store.rs:171-190 | refused exactly at or below the committed height and over a scheduled entry; otherwise the plain map gains the block, in memory or as a memo |
| BlockStoreModule.BlockStore.TakeNextReadyBlockByHeight | rpc_node/src/consensus/block_store.rs:301-346 | a lookup in the plain map: a memo yields the very block it was made from; entries without data are dropped and reported; a failed read leaves one |
| BlockStoreModule.BlockStore.Retain | rpc_node/src/consensus/block_store.rs:349-352 | keeps exactly the entries above the bound |
| BlockStoreModule.BlockStore.UpdateLastCommittedBlockInfo | rpc_node/src/consensus/block_store.rs:377-387 | the height in memory moves even when the write fails; the pending blocks stay |
| BlockStoreModule.BlockStore.UpdateEpochBoundaryBlockInfo | rpc_node/src/consensus/block_store.rs:390-403 | records the certificate and nothing else |
| Synchronizer.SynchronizationContext.TryPostSyncRequest | rpc_node/src/consensus/synchronizer.rs:59-82 | one request at a time, remembered before it is sent; a different height is refused |
| Synchronizer.SynchronizationContext.Retry | rpc_node/src/consensus/synchronizer.rs:39-54 | posts the pending request again, if there is one |
| ChainStateAssemblerModule.ChainStateAssembler.TryToSyncSkippedBlocks | rpc_node/src/consensus/chain_state_assembler.rs:542-564 | asks exactly for the next height, and only if something above was seen and nothing waits there, as the plain machine does |
| ChainStateAssemblerModule.ChainStateAssembler.ExecuteBlock | rpc_node/src/consensus/chain_state_assembler.rs:571-588 | the plain machine's state, or its disk at the failure point, although the height in memory moves before the write |
| ChainStateAssemblerModule.ChainStateAssembler.TryExecuteBlockChain | rpc_node/src/consensus/chain_state_assembler.rs:503-537 | the plain machine's outcome, whether the next block is in memory or reloaded from a memo |
| ChainStateAssemblerModule.ChainStateAssembler.HandleFullBlock | rpc_node/src/consensus/chain_state_assembler.rs:423-456 | the plain machine's outcome for a block without an entry; no memo is overwritten |
| ChainStateAssemblerModule.ChainStateAssembler.HandleScheduledBlock | rpc_node/src/consensus/chain_state_assembler.rs:458-480 | leaves the object where the plain machine goes, on every block and failure |
| ChainStateAssemblerModule.ChainStateAssembler.ObserveBlock | rpc_node/src/consensus/chain_state_assembler.rs:383-394 | remembers the highest block seen |
| ChainStateAssemblerModule.ChainStateAssembler.HandleIncomingBlock | rpc_node/src/consensus/chain_state_assembler.rs:353-418 | does what the plain machine does on any block at all, whichever entries are memos |
| ChainStateAssemblerModule.ChainStateAssembler.HandleEpochManagerNotification | rpc_node/src/consensus/chain_state_assembler.rs:308-349 | does what the plain machine does on any notification |
| ChainStateAssemblerModule.ChainStateAssembler.DoStep | rpc_node/src/consensus/chain_state_assembler.rs:250-297 | one step of the plain machine for every event, failure and bucket size |
| ChainStateAssemblerModule.ChainStateAssembler.SafeAndBounded | rpc_node/src/consensus/block_store.rs:280-292 | at every point of a session the object is safe and holds at most its bucket size of full blocks |
| ChainStateAssemblerModule.ChainStateAssembler.Run | rpc_node/src/consensus/chain_state_assembler.rs:220-245 | for every bucket size a session of the object is a session of the plain machine: the cache is transparent |
| ChainStateAssemblerModule.Boot | rpc_node/src/consensus/chain_state_assembler.rs:160-198 | start-up on any disk refines that of the node's life: first start, refusal, and execution of a committed block left behind |
| MoveList.WalkOn | rpc_node/src/rest/move_list/v3.rs:103-131 | reading n + m items is reading n, then m from where that stopped, also inside a group |
| MoveList.PageSplitting | rpc_node/src/rest/move_list/v3.rs:64-138 | a page of n items and one of m from its cursor equal one of n + m: items, final cursor and errors |
| MoveList.StuckCursor | rpc_node/src/rest/move_list/v3.rs:95-118 | a made-up cursor into a single item is answered by itself and breaks the law |
| MoveList.PageSplittingExactly | rpc_node/src/rest/move_list/v3.rs:95-138 | the law holds of a cursor for all page sizes if and only if it does not point into a single item |
| MoveList.PageCursor | rpc_node/src/rest/move_list/v3.rs:115-131 | every cursor a page ends with satisfies that condition |
| MoveList.PagesAreOnePage | rpc_node/src/rest/move_list/v3.rs:64-138 | pages of any sizes in a row are one page of their total size |
| MoveList.PagesListEverything | rpc_node/src/rest/move_list/v3.rs:64-138 | together they are the unpaged listing up to that size, and fail exactly at an unreadable entry, with its error |
| MoveList.ModuleListing | rpc_node/src/rest/move_list/v3.rs:249-258 | all pages of a module query are the module ids in key order, and fail only at a key that does not decode |
| MoveList.ResourceListing | rpc_node/src/rest/move_list/v3.rs:203-245 | all pages of a resource query are the resources and group members in key order, no module, and fail exactly at a key that does not decode or a group whose data is missing |
| MoveList.MoveListBuilder.AppendGroup | rpc_node/src/rest/move_list/v3.rs:220-241 | appends the slice of members that fits and moves the cursor to its end |
| MoveList.MoveListBuilder.AppendEntry | rpc_node/src/rest/move_list/v3.rs:169-188 | a module query takes module ids only, a resource query resources and groups only; which keys it reports as errors |
| MoveList.MoveListBuilder.BuildMoveList | rpc_node/src/rest/move_list/v3.rs:64-138 | returns the page that follows the given cursor |
| GasWindow.SplitBatch | rpc_node/src/gas/circular_buf.rs:68-99 | splitting a batch does not change the window |
| GasWindow.SaturatingTotalIsMin | rpc_node/src/gas/circular_buf.rs:36-41 | the recomputed sum is the true one or the maximum |
| GasWindow.InsertExactly | rpc_node/src/gas/circular_buf.rs:101-103 | one insertion into an exact sum is exact if and only if the addition does not saturate |
| GasWindow.ExactThroughout | rpc_node/src/gas/circular_buf.rs:101-112 | a run from an exact sum is exact after every insertion if and only if no addition saturates |
| GasWindow.SplitSum | rpc_node/src/gas/circular_buf.rs:68-99 | while no addition saturates, splitting a batch changes neither the window nor the sum, so neither maximum, median nor mean |
| GasWindow.SumNeverAbove | rpc_node/src/gas/circular_buf.rs:101-112 | in every run of insertions the incremental sum is at most the true sum of the window |
| GasWindow.SumExact | rpc_node/src/gas/circular_buf.rs:101-112 | it is exact if all values are within the limit |
| GasWindow.LimitMeans | rpc_node/src/gas/circular_buf.rs:101-112 | a value v is within the limit exactly when (capacity + 1) v fits in 64 bits |
| GasWindow.SaturationDrifts | rpc_node/src/gas/circular_buf.rs:101-112 | a run after which the sum is 0 for a window that holds the largest value |
| GasWindow.MedianSplits | rpc_node/src/gas/circular_buf.rs:44-56 | the median is the one value with at most half below it and more than half at most it |
| GasWindow.MeanBelowMax | rpc_node/src/gas/online_mean.rs:28-34 | the mean never exceeds the maximum, whatever saturation did |
| GasWindow.MeanRounds | rpc_node/src/gas/online_mean.rs:28-34 | with an exact sum and room for the rounding term, the mean is rounded half up |
| CircularBuffer.FlagsEveryOverwrite | rpc_node/src/gas/circular_buf.rs:72-80 | the wrap-around test flags exactly the batches that overwrite the maximum and those that stay above a maximum already passed |
| CircularBuffer.MaxCircularBuffer.Insert | rpc_node/src/gas/circular_buf.rs:101-112 | the window slides by one value |
| CircularBuffer.MaxCircularBuffer.InsertAll | rpc_node/src/gas/circular_buf.rs:81-83 | a maximum the batch does not reach stays exact without being recomputed |
| CircularBuffer.MaxCircularBuffer.UpdateCurrentSum | rpc_node/src/gas/circular_buf.rs:36-41 | the saturating sum of the buffer |
| CircularBuffer.MaxCircularBuffer.UpdateMaxIndex | rpc_node/src/gas/circular_buf.rs:58-66 | the last position of a largest value |
| CircularBuffer.MaxCircularBuffer.UpdateMedian | rpc_node/src/gas/circular_buf.rs:44-56 | the median of the window |
| CircularBuffer.MaxCircularBuffer.Push | rpc_node/src/gas/circular_buf.rs:68-99 | the window is the last values of all pushed; maximum and median are those of the window; the sum is the incremental one |
| OnlineMeanModule.OnlineMean.New | rpc_node/src/gas/online_mean.rs:13-25 | a history of 1000 start values, small and with an exact sum if the value is within the limit |
| OnlineMeanModule.OnlineMean.Push | rpc_node/src/gas/online_mean.rs:28-34 | the window slides and the sum is that of the runs above; it stays exact while no addition saturates, in particular for small values, and a full batch of small values makes it exact again |
| OnlineMeanModule.OnlineMean.Mean | rpc_node/src/gas/online_mean.rs:42-44 | at most the maximum; the true mean rounded half up when the sum is exact and the values are small |
| OnlineMeanModule.OnlineMean.Max | rpc_node/src/gas/online_mean.rs:37-39 | the largest value of the window |
| OnlineMeanModule.OnlineMean.Median | rpc_node/src/gas/online_mean.rs:47-49 | the value that splits the window |
| OnlineMeanModule.MeanOfRun | rpc_node/src/gas/online_mean.rs:28-34 | after any pushes of values within the limit the mean is the true mean of the last 1000 values, rounded half up |
| Genesis.FindLowest | supra/src/genesis/generate_mainnet_accounts_config.rs:630-639 | the first lowest balance below the 64-bit maximum |
| Genesis.LowestIsLowest | supra/src/genesis/generate_mainnet_accounts_config.rs:633-639 | that is the first lowest balance of all |
| Genesis.ScheduleInOrder | supra/src/genesis/generate_mainnet_accounts_config.rs:625-651 | a schedule's delegators are all placed, in ascending order of stake, into its own pools, and no balance exceeds 64 bits |
| Genesis.GreedyBalance | supra/src/genesis/generate_mainnet_accounts_config.rs:602-658 | one populated schedule: fails exactly for lack of pools; else all stake is assigned, balances are the stakes assigned to their owners, and differ by at most the largest stake |
| Genesis.AllFaithfulExactly | supra/src/genesis/generate_mainnet_accounts_config.rs:602-658 | given enough pools and no overflow, the whole list of schedules is assigned without panic, each stake to the pool whose balance it raised, if and only if every schedule that hands out stake has a pool and no earlier schedule took any |
| Genesis.FaithfulExactly | supra/src/genesis/generate_mainnet_accounts_config.rs:633-651 | the same for one schedule, from any faithful state |
| Genesis.TwoSchedulesPanic | supra/src/genesis/generate_mainnet_accounts_config.rs:634-642 | two schedules of one pool and one delegator panic |
| Genesis.LimitIsOneShort | supra/src/genesis/generate_mainnet_accounts_config.rs:653-662 | with a limit of one, a pool with two delegators passes |
| Genesis.PlaceDelegators | supra/src/genesis/generate_mainnet_accounts_config.rs:629-657 | the inner loop places the delegators greedily and its tally is one short of the count of every pool |
| Genesis.CheckLimit | supra/src/genesis/generate_mainnet_accounts_config.rs:661-668 | rejects if and only if some pool has more than the limit and one |
| Genesis.AssignDelegators | supra/src/genesis/generate_mainnet_accounts_config.rs:590-668 | the whole assignment: the greedy one or the first error |
| FaucetMinters.NextSafe | rpc_node/src/rest/faucet/faucet_impl.rs:180-295 | every section of a request or waiter task keeps the invariant of the minters |
| FaucetMinters.MinterExclusivity | rpc_node/src/rest/faucet/faucet_impl.rs:111-295 | under every interleaving a minter has at most one user, a free one has none, none is empty outside its lock, and no panic or assertion fires |
| FaucetMinters.AbandonedForGood | rpc_node/src/rest/faucet/faucet_impl.rs:223-291 | the minters no task works with are the free and the abandoned ones; a minter is abandoned exactly when an event dropped its request or shut down its waiter, and then is busy and unused after every longer run |
| FaucetMinters.BusyMintersComeBack | rpc_node/src/rest/faucet/faucet_impl.rs:233-291 | a busy minter that was not abandoned has a user, and the end of that user's work frees it |
| FaucetFunding.RequestIsServed | rpc_node/src/rest/faucet/faucet_impl.rs:111-149 | a request that runs uninterrupted is submitted through the first free minter, and turned away if and only if none is free |
| FaucetFunding.FailureMovesOn | rpc_node/src/rest/faucet/faucet_impl.rs:233-242 | after a failed submission the minter is free again and the request goes on to the next free one, or is turned away |
| FaucetFunding.RejectedOnlyInVain | rpc_node/src/rest/faucet/faucet_impl.rs:123-148 | under every interleaving a request is turned away only if it found each minter busy or its submission through it failed |
| FaucetFunding.SubmittedHandsOver | rpc_node/src/rest/faucet/faucet_impl.rs:244-294 | a submitted request is answered and its minter stays busy in the hands of the waiter |
| FaucetFunding.BusyUntilDone | rpc_node/src/rest/faucet/faucet_impl.rs:249-291 | a minter stays busy for its target until its user's submission fails or the awaited transaction is done |
| FaucetLimiter.CooldownOverTime | rpc_node/src/rest/faucet_call_limiter.rs:96-125 | under every interleaving and whatever the clock does, an account's counted uses between two clearings are a cooldown apart, so n span n - 1 cooldowns, and are at most the limit |
| FaucetLimiter.LetThroughExactly | rpc_node/src/rest/faucet_call_limiter.rs:43-74 | in every run a request is let through exactly when the account has uses left and a cooldown has passed since its last counted one; a wait it is told is the shortest that helps |
| FaucetLimiter.ClearedAtMidnight | rpc_node/src/rest/faucet_call_limiter.rs:116-125 | the cache is cleared exactly when a multiple of 24 hours has passed since the last clearing |
| FaucetLimiter.DailyLimitOverTime | rpc_node/src/rest/faucet_call_limiter.rs:43-74 | with a clock that never goes back, if an account makes its requests of a day one after the other, at most the limit are accepted of those arriving on one day; other accounts, requests open over a change of day, funding and cooldown are arbitrary |
| FaucetLimiter.DailyLimitExactly | rpc_node/src/rest/api/v1/wallet.rs:37-61 | the bound holds for every limit and every choice of funded requests if and only if the account never registers a request while an earlier one of the same day has not ended |
| FaucetLimiter.OverlapBreaksLimit | rpc_node/src/rest/api/v1/wallet.rs:37-61 | any two overlapping requests of a day, in any schedule, are both accepted under a limit of one when they are the ones funded |
| FaucetLimiter.RacingRequests | rpc_node/src/rest/api/v1/wallet.rs:37-61 | a run with a limit of one in which two requests are accepted and one is counted |
| FaucetLimiter.FaucetCallLimiter.ResetCacheIfNeeded | rpc_node/src/rest/faucet_call_limiter.rs:116-125 | clears the cache, and closes the period of counted uses, exactly when the day is later than that of the last clearing |
| FaucetLimiter.FaucetCallLimiter.RegisterAccount | rpc_node/src/rest/faucet_call_limiter.rs:43-74 | judges by the cache after a reset that may use an earlier reading of the clock, and leaves an entry for the account |
| FaucetLimiter.FaucetCallLimiter.IncrementAccountUseCounterIfUnderLimit | rpc_node/src/rest/faucet_call_limiter.rs:96-113 | counts a use exactly when the account is then under both limits |
| FaucetLimiter.FaucetHandlers.Begin | rpc_node/src/rest/api/v1/wallet.rs:37-50 | the first section of a request and its funding, as the runs above take it; says which requests are accepted |
| FaucetLimiter.FaucetHandlers.Complete | rpc_node/src/rest/api/v1/wallet.rs:52-61 | the second section: only an accepted request is counted, and only once |

## Left out

- Checks made outside this repository (commit certificates, batch consistency, extension of an epoch, extension of a certificate) are arbitrary predicates.
- The executor is a contract: it records the block and reports an epoch change, or fails with or without having recorded it. The consistency warranter is taken to execute the committed block when execution is behind; its handling of duplicate execution is not modelled.
- Hydration of a stored block either fails as a store error or yields the block that was put.
- Heights, timestamps and lengths do not overflow. Sums of gas and of stake are modelled with their 64-bit width; an overflow of a pool balance counts as a panic.
- Timers, logging, shutdown, acknowledgements to the epoch manager and the choice among ready inputs: a step is any enabled event, in any order, so the bias of the selection is not used.
- Keys of the Move store are ordered numbers that stand for their encoding; encoding and decoding of cursors and errors of the database iterator are not modelled.
- The set of assigned delegators is kept as a list, pools are named by their position, and reading the schedules' account files is not modelled.
- The faucet's request and waiter tasks are steps over values, not objects, because they interleave.
- FaucetLimiter.DailyLimitExactly: the clock never goes back and starts at no less than the cooldown; with a clock below the cooldown no first request is let through.
- REST handlers, routers, storage lookups, the command-line tools, key generation and transaction building: wrappers around storage and the network, or cryptography of other repositories.
