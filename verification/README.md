# Proofs about a zkEVM node

A Dafny model of five parts of the node, each chosen because its correctness is a statement about whole runs or
about two algorithms that have to agree. Code that updates fields in place is modelled by classes and methods;
every such method is proved equal to a pure function of the old state, and the lemmas are about those functions.
`dafny verify dfyconfig.toml` checks everything.

| file | part of the node | central result |
|---|---|---|
| `InfoTreeSpec.dfy`, `InfoTreeFrontier.dfy`, `InfoTreeProofs.dfy`, `InfoTree.dfy` | L1 info tree (`l1infotree/`) | over runs of any length the frontier that is updated in O(height) has the root of a full rebuild; proofs are sound, and complete under an exact condition; the root binds the leaves |
| `EthTxManager.dfy`, `EthTxFields.dfy`, `EthTxRuns.dfy`, `EthTxClient.dfy` | resending of L1 txs (`ethtxmanager/`) | over every interleaving, failure and crash: write-ahead history; the same data succeeds at most once in every run without harm, and in all runs of an environment if and only if lookups and chain are stable; `monitorTx` as written is a run of the protocol, whatever happens elsewhere meanwhile; what is sent is, field by field, what is stored |
| `EventOrder.dfy`, `ForkIntervals.dfy` | reading L1 events (`etherman/etherman.go`) | replay restores the log order if and only if logs are grouped by block, and every slice of a block holds what the logs of its kind carry; the fork id of a batch is that of the last log set below it; fork intervals partition the batch numbers under an exact condition |
| `AddrQueue.dfy`, `EffectiveGasPrice.dfy`, `ForcedBatches.dfy`, `Trackers.dfy` | sequencer (`sequencer/`, `pool/`) | queue invariant, exactly which tx is ready after every operation, and exact conservation conditions; at most two executions at a bounded price; forced batches without gap or repeat |
| `BytecodeHash.dfy`, `FilterStorage.dfy` | code hash (`merkletree/key.go`), RPC filters (`jsonrpc/storage.go`) | the bytecode encoding is injective and the hash binds the code; five maps stay views of one set under an exact condition |

Hash functions, the executor, price formulas, clocks and generated ids are parameters, so every result holds
whatever they return. A panic of the source is an explicit result
(`IndexOutOfRange`, `Panic`, `None`), never a precondition.

## Where code and promise differ

The model follows the code. In these places a promise made by a name, a comment or a caller does not hold in
general; the exact condition is proved, and a lemma shows an input on which it fails unless the contract states the
failing case outright.

- The comment at `ethtxmanager/ethtxmanager.go:319-329` aims at never sending the same data successfully twice. A
  failed receipt lookup is skipped without clearing `allHistoryTxsWereMined`, and L1 may drop a failed tx again:
  `SafeExactlyWhenStable`, with runs in `TwiceAfterLookupError` and `TwiceAfterReorg`. `HarmlessRunIsSafe` covers
  every single run in which neither leads to a wrong nonce review.
- `AddLeaf` on a full tree reports no error and starts over, with the root of a tree that holds only the new leaf:
  `AddLeaf`, `BuildThenAdd`. A tree started from more than 2^32 leaves goes on from as many of the first leaves as
  its 32-bit counter shows: `New`, `Kept`.
- `ComputeMerkleProof` converts row lengths to 32 bits, so from 2^32 - 1 leaves on a proof can hold a wrong sibling and
  not verify: `VerifiesIffUntruncated`, with a failing proof in `FullRowFails`.
- `addTx` overwrites another waiting tx of the current nonce without returning it: `AddConserves`, reached by adds in
  `OverwriteReached`. `updateCurrentNonceBalance` does so when the nonce moves back: `UpdateConserves`, reached in
  `ClobberReached`.
- `GetForks` reads before the first interval when the first log belongs to another rollup: `BuildIsExpected`,
  `LateStartPanics`. The intervals overlap when versions fall back or wrap: `PartitionIff`, `FallBackOverlaps`,
  `TwiceIfWraps`.
- `readEvents` duplicates events when the logs of a block are not contiguous: `ReplayIffGrouped`,
  `UngroupedReplaysMore`.
- `processForcedBatch` returns an error after its database commit when execution produced blocks, so the caller
  keeps an old tip: `ProcessReportsTip` with `LateFailureMeans`, `StaleTip`.
- With a gap in the queue, a forced batch that is pending can be left unprocessed by a call that succeeds:
  `PendingCoveredIff`, `GapLeavesPending`.
- `createFilter` with an id that is in use leaves the old filter in an index: `CreateConsistentIff`,
  `ClashFromEmpty`.

## Model

| member | source | states |
|---|---|---|
| InfoTreeSpec.RootIsPerfectRoot | l1infotree/tree.go:52-73 | the root used throughout is that of the perfect 2^height tree over the leaves padded with zero leaves |
| InfoTreeSpec.EmptyNode | l1infotree/tree.go:59-67 | every node right of the leaves is the all-zero subtree root of its level, for all leaf lists, levels and positions |
| InfoTreeSpec.RootBinding | l1infotree/tree.go:37-73 | two leaf lists with different padded forms and one root yield two different inputs of Hash with one output |
| InfoTreeSpec.ProofComplete | l1infotree/tree.go:76-120 | true siblings fold a leaf along the index bits to the root |
| InfoTreeSpec.ProofSound | l1infotree/tree.go:76-120 | any siblings whatever that carry a wrong value to the root yield a collision of Hash |
| InfoTree.GenerateZeroHashes | l1infotree/hash.go:22-32 | entry i is the root of an all-zero tree of height i, for 0 to height |
| InfoTree.BuildIntermediate | l1infotree/tree.go:37-49 | every pair of neighbours is hashed in order and kept with its parent; reads past the end exactly for a row of odd length |
| InfoTree.PickSibling | l1infotree/tree.go:86-107 | which entry of a padded row of any length is recorded, in 32-bit arithmetic, and that the row is left exactly when the index is past its end |
| InfoTreeProofs.RecordedVerifies | l1infotree/tree.go:76-120 | the siblings recorded for an index below the number of leaves verify against the root, as long as no even position on the way up reaches the truncated length of its row |
| InfoTreeProofs.TruncatedFails | l1infotree/tree.go:86-107 | whenever some even position does reach it, there are leaves whose recorded siblings do not fold to the root |
| InfoTreeProofs.VerifiesIffUntruncated | l1infotree/tree.go:76-120 | for every number of leaves, index and height: the recorded siblings verify for all hash functions and leaves if and only if no length on the way up is truncated |
| InfoTreeProofs.FewLeavesUntruncated | l1infotree/tree.go:86-107 | with fewer than 2^32 - 1 leaves no length on the way up is truncated |
| InfoTreeProofs.FullRowFails | l1infotree/tree.go:86-107 | with 2^32 - 1 leaves and any height from 32 on, the proof of index 0 folds to another value than the root |
| InfoTreeProofs.RecordedIsFrontier | l1infotree/tree.go:157-177 | the proof of any position is right at every one-bit of it, which is all the frontier of the leaves before it needs |
| InfoTreeFrontier.AppendInSync | l1infotree/tree.go:130-149 | storing the completed subtree keeps the frontier and carries the new leaf to the root of the pending leaves, for every counter that agrees with them on the levels of the tree |
| InfoTreeFrontier.CounterBits | l1infotree/tree.go:123-153 | a counter that has passed any number of full trees, and 2^32, looks to every level like the number of pending leaves |
| InfoTreeFrontier.CounterStep | l1infotree/tree.go:123-153 | counting on, around the capacity and around 2^32, goes on standing for the pending leaves |
| InfoTreeFrontier.PendingIsTail | l1infotree/tree.go:123-153 | the pending leaves end the list of all leaves and are fewer than fill a tree |
| InfoTreeFrontier.PendingAfterRounds | l1infotree/tree.go:123-153 | the leaves before the pending ones are a whole number of full trees |
| InfoTree.L1InfoTree.New | l1infotree/tree.go:20-35 | for every list: succeeds exactly when height is positive and the leaves fit, with their root and count; counter and frontier stand for what is kept, which is all of it below capacity |
| InfoTree.L1InfoTree.InitSiblings | l1infotree/tree.go:157-177 | for every list: errors exactly on a wrong count or leaves that do not fit; otherwise the root, and the frontier of what is kept |
| InfoTree.L1InfoTree.BuildL1InfoRoot | l1infotree/tree.go:52-73 | succeeds if and only if there is a level and at most 2^height leaves, and returns the textbook root |
| InfoTree.L1InfoTree.ComputeMerkleProof | l1infotree/tree.go:76-120 | for every list: exactly when it panics, when it errors, and otherwise height recorded siblings and the root; for a present index they verify unless a length is truncated on the way |
| InfoTree.L1InfoTree.ClimbLevels | l1infotree/tree.go:130-149 | the loop carries the leaf up and changes only the sibling at the first zero-bit of the index |
| InfoTree.L1InfoTree.AddLeaf | l1infotree/tree.go:123-153 | wrong index: error and no change; otherwise, for every tree, the root of the pending leaves and the new one, which then are pending unless they fill the tree |
| InfoTree.L1InfoTree.GetCurrentRootCountAndSiblings | l1infotree/tree.go:180-182 | returns the three fields of the tree |
| InfoTree.BuildThenAdd | l1infotree/tree.go:20-153 | runs of any length: every root is that of the leaves since the tree was last full, and up to the capacity of all leaves; it does not depend on where the initial list ended |
| EthTxManager.RunKeepsProtocol | ethtxmanager/ethtxmanager.go:278-497 | over every run, whatever fails: every version of the row, stored or held, contains every tx sent, and nobody else writes while an unsettled copy is held |
| EthTxManager.WriteAhead | ethtxmanager/ethtxmanager.go:392-419 | after any run with failed writes and crashes at any step, every tx that reached the network is in the stored history |
| EthTxManager.RunRaises | ethtxmanager/ethtxmanager.go:528-581 | as long as a row is to be sent, nonce, gas and gas price only rise and no history is lost |
| EthTxManager.RunKeepsCore | ethtxmanager/ethtxmanager.go:278-497 | in every environment, over every run without harm: every history tx carries the current nonce or was mined and failed, in every version of the row |
| EthTxManager.HarmlessRunIsSafe | ethtxmanager/ethtxmanager.go:319-342 | at most one success on L1 in every run in which no nonce review follows a scan that missed a tx not mined and failed, and no dropped block held a failed tx, whatever else fails |
| EthTxManager.RunKeepsInv | ethtxmanager/ethtxmanager.go:291-342 | with stable lookups and chain no step does harm, and what any version of the row says about its outcome is so on L1 |
| EthTxManager.NeverTwice | ethtxmanager/ethtxmanager.go:319-342 | with stable lookups and chain, over every run: at most one success on L1; confirmed, done and a block number imply that success; failed is never stored |
| EthTxFields.RunKeepsFields | ethtxmanager/ethtxmanager.go:278-497 | over every run and for every row it started from: all versions of the row, stored or held, are above it, the tx in hand has the fields of the copy in hand, and that copy is what is stored |
| EthTxFields.WritersKeepFields | ethtxmanager/ethtxmanager.go:149-245 | the other writers store what they read, apart from status Done, or status Reorged without block number |
| EthTxFields.NeverBelowStart | ethtxmanager/monitoredtx.go:100-123 | over every run: the gas offset never changes, and every tx stored or sent carries at least the first nonce, the first gas plus the offset and the first gas price; confirmed and failed rows have a block number, rows to be sent have none |
| EthTxFields.SentAsStored | ethtxmanager/ethtxmanager.go:380-433 | over every run: a tx that is sent is in the history of the stored row and carries its nonce, its gas plus its gas offset, and its gas price |
| EthTxRuns.TwiceAfterReorg | ethtxmanager/ethtxmanager.go:331-342 | a run with two successes when L1 drops the block of a failed tx |
| EthTxRuns.TwiceAfterLookupError | ethtxmanager/ethtxmanager.go:291-296 | a run with two successes when a receipt lookup fails |
| EthTxRuns.SafeExactlyWhenStable | ethtxmanager/ethtxmanager.go:319-342 | all runs are safe if and only if lookups do not fail and L1 drops no blocks |
| EthTxClient.Client.Lookup | ethtxmanager/ethtxmanager.go:291-317 | one turn of the scan: a failed lookup changes nothing, otherwise the flags follow from what L1 shows |
| EthTxClient.Client.Scan | ethtxmanager/ethtxmanager.go:291-342 | in whatever order the history is visited: confirmed exactly when a lookup shows a success, nonce review exactly when all lookups show failures and there is one |
| EthTxClient.Client.Review | ethtxmanager/ethtxmanager.go:566-581 | the nonce becomes the larger of its own and the account's, and is stored before the pass goes on |
| EthTxClient.Client.ReviewFee | ethtxmanager/ethtxmanager.go:360-378 | exactly when the pass goes on: a reorged row ends it, a sent row has gas and gas price raised and stored, a new row is left alone |
| EthTxClient.Client.Record | ethtxmanager/ethtxmanager.go:380-407 | the signed tx is in the history and stored before the pass comes to the network, exactly when signing and write succeed |
| EthTxClient.Client.Send | ethtxmanager/ethtxmanager.go:409-433 | exactly when the pass goes on, with the tx in the network and the row marked as sent |
| EthTxClient.Client.Await | ethtxmanager/ethtxmanager.go:435-456 | a receipt is acted upon only if the wait saw a success and the receipt can still be fetched |
| EthTxClient.Client.Finish | ethtxmanager/ethtxmanager.go:458-497 | when nothing fails the row is stored as confirmed or failed with the block of the receipt |
| EthTxClient.Client.MonitorTx | ethtxmanager/ethtxmanager.go:278-497 | one pass, with L1 and the other writers acting between any two steps, is a run of the state machine, so all run results apply to it; when nothing fails and nothing else happens, every field of the row it leaves, and the tx it adds to the network by nonce, gas plus offset and gas price |
| EventOrder.FileFaithful | etherman/etherman.go:742-833 | filing an event at the head extends a faithful replay by exactly this event |
| EventOrder.FileGrows | etherman/etherman.go:742-833 | every filing makes the replay longer, and leaves the blocks with or without a repeated hash as they were |
| EventOrder.ReplayIffGrouped | etherman/etherman.go:448-603 | replaying blocks and orders gives exactly the handled events, each once, in log order, if and only if the logs come grouped by block |
| EventOrder.BlocksHold | etherman/etherman.go:448-603 | for grouped logs each of the seven slices of every block is, in log order, what the logs of that block and of the kinds written out for it carry; both kinds of verification share one slice |
| EventOrder.UngroupedReplaysMore | etherman/etherman.go:448-603 | three logs of two blocks that are read without error and replayed as more than three events |
| EventOrder.ReadFailsIff | etherman/etherman.go:448-471 | reading fails if and only if some log cannot be decoded or its block cannot be fetched |
| EventOrder.EventReader.ProcessEvent | etherman/etherman.go:473-603 | new blocks and orders as a function of the old ones; unchanged on error |
| EventOrder.EventReader.OpenBlock | etherman/etherman.go:777-792 | the block of the log is at the head afterwards, appended only if it was not there |
| EventOrder.EventReader.FileEvent | etherman/etherman.go:803-833 | the entry goes to its array in the head block and an order with its position to the list of that block's hash |
| EventOrder.ReadEvents | etherman/etherman.go:448-471 | the loop computes that reading, with both equivalences above and, for grouped logs, the content of every slice of every block as its contract |
| ForkIntervals.FilterJoins | etherman/etherman.go:317-336 | logs of adjacent block ranges concatenate to the logs of the joint range |
| ForkIntervals.FilterMeans | etherman/etherman.go:317-336 | a log is in the answer if and only if its block is in the range, and a range over all blocks gives the logs as they are |
| ForkIntervals.QueryLogs | etherman/etherman.go:317-336 | every query asks for a whole chunk or up to the end, without gap or overlap, and their answers are the logs of the whole range; it stops exactly at the first query that fails, and wraps exactly when the end of the last chunk exceeds 64 bits |
| ForkIntervals.BuildIsExpected | etherman/etherman.go:338-418 | panic if and only if the first own log is not the first log; error if and only if a log fails otherwise; else each interval ends at the next version |
| ForkIntervals.BuildForks | etherman/etherman.go:338-418 | the loop that patches the last interval meets that description |
| ForkIntervals.DecodeMeans | etherman/etherman.go:339-397 | for each kind of event: whether the log concerns the rollup, whether it fails, and the batch, fork id, version and block number it states |
| ForkIntervals.ExpectedAnswers | etherman/etherman.go:338-418 | in terms of the logs alone: interval j is that of the j-th log of this rollup, with its batch, fork id, version and block number, and it ends where the next one begins; panic and error told apart by the logs |
| ForkIntervals.ForkOfBatch | etherman/etherman.go:395-418 | when versions neither fall back nor wrap: a batch is in interval j if and only if own log j is the last one set below it |
| ForkIntervals.LateStartPanics | etherman/etherman.go:407-418 | a log of another rollup before the first own one makes the loop panic |
| ForkIntervals.Covered | etherman/etherman.go:395-418 | every batch number after the first version is in some interval, in whatever order the versions come |
| ForkIntervals.PartitionIff | etherman/etherman.go:395-418 | every batch number up to the largest is in exactly one interval if and only if the versions neither fall back nor wrap |
| ForkIntervals.FallBackOverlaps | etherman/etherman.go:395-418 | versions at batches 0, 10 and 5 put batch 10 into two intervals |
| ForkIntervals.TwiceIfWraps | etherman/etherman.go:395-418 | a later version at the last 64-bit number puts the first batch number into two intervals |
| ForkIntervals.GetForks | etherman/etherman.go:312-422 | the intervals described by the logs of the range, whatever the chunk size, unless the last query asked failed or the end of the last chunk exceeds 64 bits |
| AddrQueue.RunKeepsInv | sequencer/addrqueue.go:43-217 | over every sequence of operations: a ready tx is next and payable, waiting txs sit under their own nonce, none in the past, none held twice |
| AddrQueue.UpdateUnstalls | sequencer/addrqueue.go:162-217 | right after an update no payable tx of the current nonce waits while none is ready |
| AddrQueue.UpdateDecides | sequencer/addrqueue.go:162-217 | exactly which tx is demoted, ready, waiting and deleted after an update, for every new nonce and balance |
| AddrQueue.UpdateAddsNothing | sequencer/addrqueue.go:162-217 | an update invents no tx, deletes only queued ones and keeps none of them; the demoted tx stays only if the nonce moved back |
| AddrQueue.UpdateConserves | sequencer/addrqueue.go:162-217 | every tx is afterwards queued, deleted or returned if and only if the update does not move back over a waiting tx of the current nonce |
| AddrQueue.ClobberReached | sequencer/addrqueue.go:162-217 | two adds to an empty queue and a nonce that moves back lose a tx |
| AddrQueue.AddConserves | sequencer/addrqueue.go:43-81 | every tx is afterwards queued or returned, or has the hash of the added one, if and only if the add does not overwrite a waiting tx of the current nonce |
| AddrQueue.OverwriteReached | sequencer/addrqueue.go:43-81 | two adds to an empty queue lose a tx |
| AddrQueue.AddPrefersPrice | sequencer/addrqueue.go:43-81 | exactly when an add is refused and why; a refusal changes nothing; a replaced tx had the same nonce, paid no more and is gone |
| AddrQueue.AddDecides | sequencer/addrqueue.go:43-81 | an added tx is ready if and only if it is accepted, of the current nonce and payable, and waits under its nonce otherwise; which tx is replaced; nothing else changes |
| AddrQueue.ExpireAndDelete | sequencer/addrqueue.go:94-141 | expiry removes exactly the txs received too long ago; deletion removes the ready tx if it has the hash, and otherwise all waiting txs that have it, and nothing else |
| AddrQueue.AddrQueueState.constructor | sequencer/addrqueue.go:26-37 | an empty queue, in order |
| AddrQueue.AddrQueueState.AddTx | sequencer/addrqueue.go:43-81 | new queue and the four results, for every queue and tx; the invariant is kept when the tracker is new |
| AddrQueue.AddrQueueState.UpdateCurrentNonceBalance | sequencer/addrqueue.go:162-217 | new queue and results; the deleted trackers are exactly the outdated ones, each once, and exactly these are marked failed |
| AddrQueue.AddrQueueState.DeleteTx | sequencer/addrqueue.go:124-141 | new queue; the ready tx is returned and gone if it has the hash, and nothing is returned otherwise; invariant kept |
| AddrQueue.AddrQueueState.ExpireTransactions | sequencer/addrqueue.go:94-116 | new queue, exactly the trackers received too long ago, and the ready tx if it is one of them |
| EffectiveGasPrice.PercentageIsLeast | pool/effectivegasprice.go:114-136 | below the signed price the byte is the least one whose share covers the effective price, for unbounded prices |
| EffectiveGasPrice.AppliedBetween | pool/effectivegasprice.go:114-136 | an error exactly for missing or zero prices; otherwise the price applied lies between the effective and the signed price |
| EffectiveGasPrice.CompareTxEffectiveGasPrice | sequencer/finalizer.go:666-705 | reprocess exactly when 100 times the distance of the prices exceeds the price used times the limit, and then the new capped price, or the tx price if the tx reads it |
| EffectiveGasPrice.FirstPrice | sequencer/finalizer.go:466-506 | enabled: the smaller of tx price and the price calculated from tx price, gas, L1 and L2 price; disabled: the same with the simulated price for both; the first execution is the last one exactly when the calculated price is not smaller; nothing changes when it cannot be calculated |
| EffectiveGasPrice.HandleResponse | sequencer/finalizer.go:583-661 | enabled or not: for every answer whether it stops, accepts or reprocesses, and the price left in the tracker |
| EffectiveGasPrice.ProcessTransaction | sequencer/finalizer.go:460-580 | exactly when an attempt reaches the executor, when it stops and when it is to be repeated; price and byte of a first and of a later attempt |
| EffectiveGasPrice.SelectionMeans | sequencer/finalizer.go:460-661 | in terms of the two calculated prices, the limit and the answers of the executor: when a tx is priced, when it runs again and when it is accepted, enabled or not |
| EffectiveGasPrice.SelectTx | sequencer/finalizer.go:332-345 | exactly when a tx is accepted, and that it runs twice exactly when the recalculated price deviates; the exact price and byte of an accepted tx, which pays between its effective and its signed price: the signed price, the recalculated one, or within the allowed deviation of it |
| ForcedBatches.SortForcedBatches | sequencer/finalizer.go:379-393 | sorted in place by number, a permutation |
| ForcedBatches.PlanIsConsecutive | sequencer/forcedbatch.go:26-55 | whatever the queue holds, the batches to process count up by one from the next number |
| ForcedBatches.PlanQueuedIffNoGap | sequencer/forcedbatch.go:32-41 | for a sorted queue the state is not consulted if and only if the queue has no gap |
| ForcedBatches.PlanCoversPending | sequencer/forcedbatch.go:26-55 | without a gap every pending number is in the plan, taken from the queue |
| ForcedBatches.PendingCoveredIff | sequencer/forcedbatch.go:26-55 | for every sorted queue: every pending batch is in the plan if and only if repeated larger numbers make up for the missing ones |
| ForcedBatches.DistinctCoveredIff | sequencer/forcedbatch.go:26-55 | when no number is queued twice, that is if and only if the queue has no gap |
| ForcedBatches.GapLeavesPending | sequencer/forcedbatch.go:26-55 | a queue with a gap whose last pending batch is not in the plan |
| ForcedBatches.ProcessFollowsPlan | sequencer/forcedbatch.go:26-55 | what is handed over is a prefix of the plan; the call reaches its end exactly when the whole plan is available and goes through, and otherwise stops at the first step that fails or batch that is missing from the state |
| ForcedBatches.ProcessCommits | sequencer/forcedbatch.go:16-58 | the commits are consecutive forced batches in consecutive batches, each with state root and accumulated input hash of its own step: all handed over, except a last one that failed before its commit |
| ForcedBatches.ProcessReportsTip | sequencer/forcedbatch.go:60-155 | the tip reported is that of the database if and only if processing does not come to a step of the plan that is committed and fails; then it is the one before that step |
| ForcedBatches.LateFailureMeans | sequencer/forcedbatch.go:26-55 | in terms of queue, state and steps: some item of the plan is available, committed and fails, after items that were all available and went through |
| ForcedBatches.StaleTip | sequencer/forcedbatch.go:138-146 | one forced batch that is committed while the tip reported is the one before it |
| ForcedBatches.Finalizer.ReceiveForcedBatch | sequencer/finalizer.go:275-283 | the queue is sorted and holds exactly one batch more |
| ForcedBatches.Finalizer.ProcessForcedBatch | sequencer/forcedbatch.go:60-155 | the batch that is committed, in full; an error exactly when it fails before the commit or produces blocks; the tip returned, in full |
| ForcedBatches.Finalizer.ProcessForcedBatches | sequencer/forcedbatch.go:16-58 | tip, ledger and queue after a call; the queue is cleared only by a call that reaches its end |
| ForcedBatches.ProcessAllPending | sequencer/forcedbatch.go:16-58 | no gap and no failing step: every pending batch is processed, from the queue, in order, and the queue is empty |
| BytecodeHash.PadRoundTrip | merkletree/key.go:124-132 | padding can be undone for every code |
| BytecodeHash.PadBytes | merkletree/key.go:124-132 | every byte of the padding: the code, 0x01, zeros, and the top bit of the last byte |
| BytecodeHash.EncodingRoundTrip | merkletree/key.go:116-189 | the code can be read back from the blocks fed to the hash |
| BytecodeHash.EncodingIsInjective | merkletree/key.go:116-189 | different codes never give the same block sequence |
| BytecodeHash.LimbsFit | merkletree/key.go:150-166 | every limb is below 2^56 |
| BytecodeHash.LimbValue | merkletree/key.go:147-166 | a limb is the sum of its seven bytes weighted by powers of 256, the first byte least |
| BytecodeHash.CodeHashBinding | merkletree/key.go:116-189 | different codes with one hash yield a Poseidon collision or an input hashed to zero |
| BytecodeHash.CodeHashSteps | merkletree/key.go:116-189 | the first block is hashed with a zero capacity and every other one with the hash before it |
| BytecodeHash.AddPadding | merkletree/key.go:124-132 | the padding loop computes the padding |
| BytecodeHash.PackBlock | merkletree/key.go:147-166 | filling a buffer backwards yields the eight little-endian limbs of the block |
| BytecodeHash.HashContractBytecode | merkletree/key.go:116-189 | the chain of hashes over these blocks, or the error of the first that fails |
| FilterStorage.CreateConsistentIff | jsonrpc/storage.go:68-110 | the five maps stay consistent if and only if the id is not that of a filter indexed under another connection or type |
| FilterStorage.ConsistentMeans | jsonrpc/storage.go:68-110 | consistent maps: each index holds exactly the filters of its type that have a connection, each connection exactly its own, none empty |
| FilterStorage.ClashFromEmpty | jsonrpc/storage.go:68-110 | two filters with one id for two connections, created in empty maps, leave the first one in an index |
| FilterStorage.RemoveConsistent | jsonrpc/storage.go:230-247 | removing a stored filter keeps them consistent, with no connection left without filters |
| FilterStorage.Storage.constructor | jsonrpc/storage.go:35-46 | empty and consistent |
| FilterStorage.Storage.CreateFilter | jsonrpc/storage.go:68-110 | the new maps, with the new filter under its id and all others as before, and the same equivalence |
| FilterStorage.Storage.DeleteFilter | jsonrpc/storage.go:230-247 | the new maps, for any filter given |
| FilterStorage.Storage.UninstallFilter | jsonrpc/storage.go:191-206 | exactly this filter is gone, consistent; not found exactly for an unknown id |
| FilterStorage.Storage.UninstallFilterByWSConn | jsonrpc/storage.go:209-227 | the filters of the connection are gone and nothing else, in whatever order they are visited |
| FilterStorage.Storage.GetFilter | jsonrpc/storage.go:156-170 | the filter stored under the id, or not found |
| FilterStorage.Storage.UpdateFilterLastPoll | jsonrpc/storage.go:173-188 | one poll time changes, the maps do not |
| FilterStorage.Storage.GetAllBlockFiltersWithWSConn | jsonrpc/storage.go:129-139 | exactly the block filters that have a connection, each once |

## Left out

- InfoTree: the leaf list passed in is a value, so `append` writing into spare capacity of the caller's slice is not captured; the same holds for `merkletree/key.go`.
- EthTxClient.Client.MonitorTx: a crash in the middle of a pass is covered by the state machine only, since a method cannot be interrupted.
- EthTxManager: the step functions work on values because a crash between two statements has no counterpart in a method; a tx hash is the tx itself; other txs of the sender appear only as used nonces; SQL, timestamps and the choice between retry and giving up are arbitrary.
- EthTxManager: `Add` is the initial state; gas and gas price suggestions are arbitrary; liveness is not stated.
- EventOrder: topics and ABI decoding are given as a verdict per log; the slices of a block are one map by name; a block fetch gives the same header each time.
- ForkIntervals.QueryLogs: what the loop does in the turn in which its variable exceeds 64 bits and after it.
- ForkIntervals.GetForks: as QueryLogs; which error a failed query or log produces is not told apart.
- AddrQueue: forced txs, txs pending to be stored, emptiness and ZK counters; the clock is a parameter.
- The worker and its sorted list around the address queues.
- EffectiveGasPrice: the floating-point price formulas are parameters; logging fields, batch resources and the worker are not modelled; a rejection stands for every answer that does not accept.
- ForcedBatches.Finalizer.ProcessForcedBatch: executor, L1 block lookup and database are one outcome per step; a refusal by the database counts as a failure before the commit; batch numbers do not wrap.
- ForcedBatches: the deadline timer and the channel that delivers forced batches.
- BytecodeHash: the other key functions of `merkletree/key.go`.
- FilterStorage: id generation, mutexes and the web socket queues; the log and pending-tx listings.
- Aggregator, synchronizer, state database, JSON-RPC endpoints, data streaming, metrics, configuration and command line.
