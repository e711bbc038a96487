# Verified models of the X Layer node

Dafny models of the parts of the node where state, concurrency or encoding make mistakes easy, with proofs of what
they keep over all inputs, runs and interleavings.

- **Transaction manager** (`ethtxmanager`). `TxRowMachine` is one monitored row as a state machine: the monitor
  goroutine, the synchronizer's `Reorg` and the owner's `ProcessPendingMonitoredTxs` take one storage or L1 call per
  step, writes may fail or succeed unnoticed. `TxSystem` runs any number of rows over one L1 that mines and
  reorganises. `TxRowSafety`, `TxSystem` and `TxReporting` prove what all runs keep, `TxRounds` what each decision of
  the monitor stores, `TxCounterexamples` gives runs that show which hypotheses are needed, and `TxClient` has the
  client's own methods, whose `monitorTx` is proved to be a run of the row machine.
- **Aggregator** (`aggregator`). `ProofTable` is the table of recursive proofs with its SQL statements,
  `AggregatorProtocol` and `AggregatorRuns` any number of provers and the sender sharing it, `AggregatorRows` what each
  event does to each row, `Aggregation` the code that merges two proofs with any outcome of each of its calls,
  `AggregationRuns` shows that it is a run of the protocol, `FinalProofResult` is the clean-up after a verified proof.
- **Etherman** (`etherman`, `dataavailability`). `L1Events` indexes logs by block and kind and `L1Replay` shows what the
  synchronizer reads back, `Forks` turns fork logs into batch intervals, `ForkAgreement` compares these with the forks in
  that index, `DataCommittee` and `Validium` encode, post, fetch and decode sequences whose data is off L1.
- **Inner transactions** (`jsonrpc`). `InnerTxs` flattens a call trace with a shared index map, `CallTypes` says which
  frame types are recognised, `InnerTxTheorems` which frames are listed, in which order, under which names.
- **Gas prices** (`jsonrpc`, `gasprice`). `DynamicGasPrice` samples batches concurrently, `Ranks` says what a percentile
  is, `CoinPrices` publishes pairs of coin prices, `PublishedPrice` clamps a price and cuts its decimal string.

`Wrappers` and `Decimal` hold the shared option type, 64-bit bounds, decimal notation and string splitting.
`dafny verify dfyconfig.toml` checks everything.

## Modelling choices

- What L1, Postgres, the signer, the pool, the trusted sequencer and the committee answer is a parameter, including
  errors. Clocks, sleeps, logging and metrics are not modelled.
- Hashes are collision free: a signed transaction stands for its hash, and `Injective` is a stated hypothesis of the
  theorems on `keccak`.
- A database write or commit succeeds, fails, or takes effect although an error is returned.
- The nonce of a signed transaction is the row's, which the client checks
  (ethtxmanager/custodialassetshttp_xlayer.go:308).
- `requires` clauses of methods say where the source panics (an id with fewer than five parts, a `callcode` frame
  without a target) or what its callee guarantees (the rows a query selects, positive tips).

## What does not hold

Each of these has a run or an input that shows it, and the exact condition under which the property holds.

- A receipt query that errors counts as "mined", so one data item can be sent twice
  (`TxCounterexamples.UnansweredQueryDuplicates`); the review of the nonce is sound on every chain exactly when all
  queries were answered, or none was, or two answered transactions exclude each other (`TxClient.ReviewIsSoundIff`), and
  sound reviews are all that one success per row needs besides stable receipts (`TxSystem.NoDuplicateSuccess`).
- `setStatusDone` writes back the row it read, so a reorg in between is lost (`TxCounterexamples.StaleDoneLosesReorg`),
  and even a row that is Confirmed again loses its new block and nonce
  (`TxCounterexamples.StaleDoneLosesBlockAndNonce`). The write is harmless exactly when the row is still Confirmed (or
  Done) and agrees with the one read on block and nonce (`TxRowSafety.MarkLosesNothingIff`). As long as all Done writes
  so far found their rows Confirmed or Done, no other step loses a block or a nonce (`TxSystem.NoLostReorg`,
  `TxSystem.NoLostNonce`). After one that found its row Reorged, the monitor's write can lose a block
  (`TxCounterexamples.LateStoreLosesBlock`) and Reorg's write a nonce (`TxCounterexamples.LateReorgLosesNonce`).
- A Done write that takes effect with an error goes unreported (`TxCounterexamples.UnackedDoneIsNotReported`); without a
  reorg, a pending row is reported exactly once exactly when its Done write was acknowledged
  (`TxReporting.ExactlyOnceReporting`).
- Without a price limit a stored price can wrap (`TxCounterexamples.UnlimitedPriceWraps`), exactly when it does not fit
  64 bits (`MonitoredTxs.PersistRoundTrip`).
- Two provers can get the same batch when a lock is cleaned up under a running prover, or when the last verified batch
  was read before a clean-up (`AggregatorRuns.CleanedLockIsTakenAgain`, `AggregatorRuns.StaleReadingIsTakenAgain`);
  `AggregatorProtocol.CleanupIsSafeIff` and `AggregatorProtocol.AddIsSafeIff` say exactly when these steps are safe.
- Two different `UpdateEtrogSequence` events in one block share a slot (`L1Replay.TwoEtrogSequencesInABlock`,
  `L1Replay.ReplayIsTheLogIff`).
- `GetForks` panics when the first fork log is of another rollup and a later one is ours
  (`Forks.ForeignFirstLogPanics`, exactly as `Forks.GetForks` states); the intervals partition the batches exactly when
  announced batch numbers never decrease and none is the largest number (`Forks.FallingForksAreNoPartition`,
  `Forks.PartitionIff`). With the largest chunk size the loop that collects the logs never advances
  (`Forks.LargestChunkNeverAdvances`); it advances exactly when the first start past the last block fits 64 bits
  (`Forks.AdvancesIff`).
- Forced batches are not posted to the committee but are asked for, so a sequence with a forced batch of its own data
  cannot be read from the committee alone (`Validium.ForcedBatchIsNotServed`, `Validium.CommitteeServesIff`).
- The published gas price can be below the configured minimum, cut (`PublishedPrice.MinimumIsCut`) or, without a
  maximum, wrapped (`PublishedPrice.MinimumIsWrapped`); `PublishedPrice.MinimumHoldsIff` says exactly when it is not.

## Model

| member | source | states |
|---|---|---|
| `MonitoredTxs.PersistRoundTrip` | ethtxmanager/pgstorage.go:175-262 | a row written and read back is the same row if and only if its price and value fit 64 bits; what is stored is these mod 2^64, and a second round trip changes nothing |
| `TxRowSafety.StepKeepsSafe` | ethtxmanager/ethtxmanager.go:281-492 | every step of every actor, with any storage outcome, keeps the row invariant, loses no stored history and forgets no broadcast |
| `TxRowSafety.StepKeepsNonced` | ethtxmanager/ethtxmanager.go:294-345 | unless it starts a nonce review before the whole history was mined and failed, a step leaves every copy of the row that may still be written with only mined-and-failed transactions below its nonce |
| `TxRowSafety.StepKeepsScanned` | ethtxmanager/ethtxmanager.go:294-334 | a scan whose queries are all answered starts no review before the whole history was mined and failed |
| `TxRowSafety.AtMostOneSuccess` | ethtxmanager/ethtxmanager.go:322-345 | on a valid chain, two successes in such a history are the same transaction |
| `TxRowSafety.StepKeepsWitnessed` | ethtxmanager/ethtxmanager.go:294-320 | every copy marked Confirmed or Failed has a receipt L1 showed for a transaction of its history |
| `TxRowSafety.StepKeepsDisciplined` | ethtxmanager/ethtxmanager.go:226-278 | if a Done write puts a row read with a block over one still Confirmed or Done, a step makes only intended status changes and keeps the monitor's snapshot equal to the stored row |
| `TxRowSafety.MarkIsDisciplinedIff` | ethtxmanager/ethtxmanager.go:150-159 | the write of setStatusDone keeps that discipline if and only if it is rejected, or the row read had a block and the stored row is Confirmed or Done |
| `TxRowSafety.MarkLosesNothingIff` | ethtxmanager/ethtxmanager.go:150-159 | it loses neither status nor block nor nonce if and only if, besides, the row read agrees with the stored one on the block and the nonce |
| `TxRowSafety.BlockDropsIff` | ethtxmanager/ethtxmanager.go:150-159 | from any state that runs reach whose Done writes found the row Confirmed or Done: of all steps of all actors, a mined row is moved out of its block unmarked exactly by a Done write of a row read in another block |
| `TxRowSafety.NonceDropsIff` | ethtxmanager/ethtxmanager.go:150-159 | from such a state its nonce is taken back exactly by a Done write of a row read with a lower one |
| `TxRowSafety.StepKeepsOrdered` | ethtxmanager/ethtxmanager.go:226-248 | as long as a Done write finds the row Confirmed or Done, a step keeps the copy of Reorg at or above the stored nonce and the copy of the processor at or below it |
| `TxRowSafety.StepKeepsPriced` | ethtxmanager/ethtxmanager.go:523-600 | no write of any actor, stale Done writes included, lowers gas or price, and no copy exceeds a limit, as long as the prices brought in fit 64 bits |
| `TxRowSafety.StepKeepsCall` | ethtxmanager/ethtxmanager.go:226-278 | no write of any actor, stale ones included, changes the account, target, value, data or gas offset of a row |
| `TxSystem.WriteAheadHistory` | ethtxmanager/ethtxmanager.go:384-444 | over all runs, whatever was handed to the network is in the stored history, and stored histories never shrink |
| `TxSystem.ConfirmedRowsHaveReceipts` | ethtxmanager/ethtxmanager.go:281-492 | over all runs, a Confirmed (Failed) row has a block and a successful (failed) receipt, seen on L1, of a hash in its history in that block |
| `TxSystem.NoDuplicateSuccess` | ethtxmanager/ethtxmanager.go:294-345 | over runs with stable receipts in which a scan leads to a nonce review only when the whole history was mined and failed, at most one of all transactions recorded or sent for a row succeeds |
| `TxSystem.AnsweredRunsAreSound` | ethtxmanager/ethtxmanager.go:294-334 | every run with stable receipts and answered receipt queries is such a run |
| `TxSystem.StatusesStayInOrder` | ethtxmanager/ethtxmanager.go:226-248 | over runs whose Done writes find the row Confirmed or Done: no block number exactly while monitored, Reorg never rewrites a row a goroutine holds, statuses change only as intended |
| `TxSystem.NoLostReorg` | ethtxmanager/ethtxmanager.go:226-248 | over such runs a mined row leaves its block without being marked Reorged exactly on a Done write of a row read in another block |
| `TxSystem.NoLostNonce` | ethtxmanager/ethtxmanager.go:226-248 | over such runs the next event of any actor lowers a stored nonce if and only if it is a Done write of a row read with a lower one |
| `TxSystem.NoncesNeverDecrease` | ethtxmanager/ethtxmanager.go:561-576 | after such a run, over any stretch whose Done writes also have the stored nonce, the stored nonce does not decrease |
| `TxSystem.MonotoneCappedFees` | ethtxmanager/ethtxmanager.go:523-600 | between any two points of every run with a limit, or whose prices fit 64 bits, stored gas and price do not decrease and the price stays within a limit |
| `TxSystem.CallsNeverChange` | ethtxmanager/ethtxmanager.go:226-492 | between any two points of every run a stored row keeps its account, target, value, data and gas offset |
| `TxRounds.NonceReviewIsStored` | ethtxmanager/ethtxmanager.go:561-576 | whatever the others do before the write: a stored nonce review leaves a nonce that is at least the old one and the account's, equals one of them, and changes nothing else |
| `TxRounds.FeeReviewIsStored` | ethtxmanager/ethtxmanager.go:523-600 | a stored fee review leaves gas at least the old and the estimate, and a price at least the old and the suggestion (the limit, where that is lower), each equal to one of them |
| `TxRounds.SettlementIsStored` | ethtxmanager/ethtxmanager.go:449-492 | a receipt that settles the row leaves it Confirmed on success and Failed on failure, in the receipt's block |
| `TxRounds.UnsettledIsLeft` | ethtxmanager/ethtxmanager.go:449-482 | the row is left for the next round exactly when there is no receipt, or it failed and monitoring is to continue |
| `TxRounds.BroadcastThenAwait` | ethtxmanager/ethtxmanager.go:420-446 | a transaction is sent exactly when the network lacks it, and awaited exactly when it was not refused |
| `TxRounds.SentIsStored` | ethtxmanager/ethtxmanager.go:432-444 | the first accepted broadcast marks the row Sent |
| `TxReporting.ExactlyOnceReporting` | ethtxmanager/ethtxmanager.go:616-684 | when the processor returns, without a reorg, every row is Done; for each that was pending exactly one Done write took effect, and it was reported exactly once if and only if that write was acknowledged |
| `TxCounterexamples.UnansweredQueryDuplicates` | ethtxmanager/ethtxmanager.go:294-299 | a run in which an errored receipt query lets two transactions with the same data succeed |
| `TxCounterexamples.StaleDoneLosesReorg` | ethtxmanager/ethtxmanager.go:150-159 | a run in which a Reorged row becomes Done in the reorged block |
| `TxCounterexamples.StaleDoneLosesBlockAndNonce` | ethtxmanager/ethtxmanager.go:150-159 | a run whose only Done write finds the row still Confirmed and yet puts back the block and the nonce from before a reorg |
| `TxCounterexamples.LateStoreLosesBlock` | ethtxmanager/ethtxmanager.go:150-159 | a run in which a Done write finds the row Reorged, and the write of the monitor then moves the Done row to another block |
| `TxCounterexamples.LateReorgLosesNonce` | ethtxmanager/ethtxmanager.go:226-248 | a run in which a Done write finds the row Reorged, and the write of Reorg then takes a nonce back |
| `TxCounterexamples.UnackedDoneIsNotReported` | ethtxmanager/ethtxmanager.go:643-655 | a run in which a Done write takes effect with an error and the owner is never told |
| `TxCounterexamples.UnlimitedPriceWraps` | ethtxmanager/ethtxmanager.go:578-600 | a run without a limit in which a write lowers the stored price |
| `TxClient.ScanHistory` | ethtxmanager/ethtxmanager.go:294-320 | in any visiting order, on a chain that may change between queries: confirmed iff an answered transaction was found successful, and failed and all-mined flags described without the order |
| `TxClient.OrderDoesNotMatter` | ethtxmanager/ethtxmanager.go:294-334 | the confirm and nonce-review decisions do not depend on the map's iteration order |
| `TxClient.AnsweredReviewIsSound` | ethtxmanager/ethtxmanager.go:322-334 | with all queries answered, or none, a nonce review means every history transaction was found mined and failed |
| `TxClient.ReviewOfGrowingChainIsSound` | ethtxmanager/ethtxmanager.go:294-334 | under the condition of the next row a review means that every history transaction was mined and failed on any valid chain that extends the ones the queries met |
| `TxClient.ReviewIsSoundIff` | ethtxmanager/ethtxmanager.go:322-334 | the review is sound on every valid chain if and only if all queries were answered, or none was, or two answered transactions share sender and nonce |
| `TxClient.ScanEndsSoundly` | ethtxmanager/ethtxmanager.go:294-334 | under that condition, on a chain that only grows, the end of the scan is one that the hypothesis of `NoDuplicateSuccess` allows |
| `TxClient.ScanIsRun` | ethtxmanager/ethtxmanager.go:294-320 | whatever the loop returns, the row machine reaches by checking transactions one by one |
| `TxClient.Client.Update` | ethtxmanager/pgstorage.go:175-211 | a whole-row write changes that row only, as its outcome says, and is a step of the row machine |
| `TxClient.Client.ScanRow` | ethtxmanager/ethtxmanager.go:281-320 | the loop on a stored row ends in the phase of the row machine its result calls for |
| `TxClient.Client.ReviewNonce` | ethtxmanager/ethtxmanager.go:334-345 | the nonce becomes at least the old one and the account's, equals one of them and is stored as the write's outcome says; an unread account nonce changes nothing; both follow the row machine |
| `TxClient.Client.ReviewFees` | ethtxmanager/ethtxmanager.go:362-381 | reorged rows are left alone; a sent row goes on only with gas at least the estimate and a price at least the suggestion within the limit, each the old or the new one, and stored; both follow the row machine |
| `TxClient.Client.Record` | ethtxmanager/ethtxmanager.go:383-418 | a transaction is returned for sending only when its hash is in the stored history |
| `TxClient.Client.Send` | ethtxmanager/ethtxmanager.go:420-444 | sending and the write of Sent follow the row machine; what was sent is exactly the old set plus this transaction unless the network had it |
| `TxClient.Client.AwaitReceipt` | ethtxmanager/ethtxmanager.go:446-492 | the row is settled exactly on a success, or on a failure that is not to be monitored further, with the receipt's block and the status its success calls for; this follows the row machine and ends the goroutine |
| `TxClient.Client.Attempt` | ethtxmanager/ethtxmanager.go:383-492 | signing, recording, sending and awaiting are a run of the row machine on this row only |
| `TxClient.Client.Resend` | ethtxmanager/ethtxmanager.go:361-492 | everything after an unconfirmed scan is a run of the row machine on this row only |
| `TxClient.Client.MonitorTx` | ethtxmanager/ethtxmanager.go:281-492 | for all answers, each L1 call on a chain of its own, and all write outcomes, one call is a run of the row machine and touches no other row |
| `TxClient.Client.Add` | ethtxmanager/ethtxmanager.go:63-113 | succeeds under exact conditions, forced gas standing in for a failed estimate; the row is stored exactly when these hold and the insert takes effect, acknowledged or not; it is Created with a capped price and is the row machine's Add; otherwise nothing changes |
| `TxClient.Client.SetStatusDone` | ethtxmanager/ethtxmanager.go:150-159 | the row read is written back as Done, as the outcome says, in two steps of the row machine |
| `TxClient.Client.ProcessConfirmed` | ethtxmanager/ethtxmanager.go:643-655 | the handler is called iff the Done write succeeded, and counts as one report of the row machine |
| `TxClient.Client.Reorg` | ethtxmanager/ethtxmanager.go:226-248 | rows mined at or after the block are Reorged without a block up to the first write that errors, and that one too if it took effect; on success none is left; other rows are untouched |
| `TxClient.LandedIff` | ethtxmanager/ethtxmanager.go:226-248 | of the rows to mark, one is written if and only if all writes before it succeeded and its own took effect |
| `TxClient.ReorgIsSteps` | ethtxmanager/ethtxmanager.go:226-248 | each such read and write, with any outcome, is the reorg read and write of the row machine |
| `AggregatorProtocol.ApplyKeepsExclusive` | aggregator/aggregator.go:500-829 | every statement keeps stored ranges disjoint, claims disjoint and every claim backed by a locked row or verified, if cleaned-up locks are abandoned or verified and an added batch is above what was cleaned up |
| `AggregatorProtocol.AddIsSafeIff` | aggregator/aggregator.go:756-829 | whatever the other workers do, adding a batch is safe for a given table, reading and clean-up mark if and only if the batch is above the mark |
| `AggregatorProtocol.CleanupIsSafeIff` | state/pgstatestorage/proof.go:169-183 | cleaning up locks keeps all that if and only if the ranges still worked on are of verified batches |
| `AggregatorRuns.ExclusiveProving` | aggregator/aggregator.go:500-829 | in every orderly run of any number of provers, stored ranges are disjoint, no two workers hold a common batch, and an unverified held range is stored and locked |
| `AggregatorRuns.MergeKeepsCoverage` | aggregator/aggregator.go:692-724 | the aggregation transaction covers exactly the unverified batches covered before |
| `AggregatorRuns.CoverageIsConserved` | aggregator/aggregator.go:600-885 | after any event the stored proofs cover an unverified batch if and only if its proof was just started, or they covered it and its proof neither failed and was deleted nor lost a stale lock |
| `AggregatorRows.RowsAfter` | aggregator/aggregator.go:500-885 | row by row, what each event adds, removes, locks and unlocks: deletes by range hit the worker's own rows only |
| `AggregatorRows.StrayIff` | aggregator/aggregator.go:600-885 | an event leaves a locked row without a worker if and only if a worker stops, or the statement that would free its row fails |
| `AggregatorRuns.LocksAreHeld` | aggregator/aggregator.go:500-885 | in every orderly run without such an event each locked row has a worker that holds it, or was locked before the run |
| `AggregatorRuns.CleanedLockIsTakenAgain` | aggregator/aggregator.go:1213-1230 | a run in which a clean-up of a live lock gives two provers the same batch |
| `AggregatorRuns.StaleReadingIsTakenAgain` | aggregator/aggregator.go:756-829 | a run in which a last verified batch read before a clean-up gives two provers the same batch |
| `Aggregation.Aggregator.ValidateEligibleFinalProof` | aggregator/aggregator.go:468-498 | eligible iff it covers the next batch to verify and has complete sequences; deleted iff all of it is verified |
| `Aggregation.Aggregator.GetAndLockProofsToAggregate` | aggregator/aggregator.go:553-598 | for every outcome of search, begin, two updates, rollback and commit: both rows are locked or neither, exactly when; the error tells the caller, except after an unacknowledged commit |
| `Aggregation.Aggregator.UnlockProofsToAggregate` | aggregator/aggregator.go:521-551 | the same for unlocking; rows that are gone are not missed |
| `Aggregation.Aggregator.ReplaceByAggregation` | aggregator/aggregator.go:631-724 | through marshalling, both prover calls and the transaction with its rollbacks, the rows are swapped iff every call succeeds and the commit lands; the captured error is set iff it was not acknowledged, even where a failed rollback is returned instead |
| `Aggregation.Aggregator.Finish` | aggregator/aggregator.go:729-753 | the aggregation is unlocked unless a final proof took it or the update failed; it is dropped only when verified; unverified coverage stays |
| `Aggregation.Aggregator.AggregateLocked` | aggregator/aggregator.go:617-754 | with the deferred unlock: inputs restored, inputs left locked or inputs replaced, exactly when |
| `Aggregation.Aggregator.TryAggregateProofs` | aggregator/aggregator.go:600-754 | for every combination of call outcomes the table is as before, or only the two locks differ, or the inputs are replaced by their union, under exact conditions; covered unverified batches never change; result and error are exact |
| `AggregationRuns.TryAggregateIsRun` | aggregator/aggregator.go:600-754 | for every combination of outcomes the call is an orderly run of the worker's protocol events that leads to the table it leaves; the worker ends idle, the sender holds the union exactly when a final proof was handed over, the others do not move |
| `AggregationRuns.ReplacedIsMerged` | aggregator/aggregator.go:692-753 | the table left is the one after the aggregation transaction, with the union locked, unlocked or, if verified, dropped |
| `Aggregation.MergeReplaces` | aggregator/aggregator.go:692-724 | the transaction leaves disjoint ranges, replaces exactly the two inputs and covers exactly what was covered |
| `FinalProofResult.MonitoredTxIdRoundTrip` | aggregator/aggregator.go:1177-1211 | for all 64-bit ranges, the range read back from the monitored id is the one it was built from |
| `FinalProofResult.ParseUintOfDigits` | aggregator/aggregator.go:1177-1190 | a part made of digits is read as its value, or as the largest 64-bit number where that does not fit |
| `FinalProofResult.Cleaner.HandleMonitoredTxResult` | aggregator/aggregator.go:1171-1207 | proofs up to the end in the id are removed if and only if on some poll the stored batch had reached that end and what L1 reports, and the clean-up succeeds |
| `FinalProofResult.CleanupKeepsUnverified` | aggregator/aggregator.go:968-1003 | for any id, even one that does not parse, the clean-up a poll allows removes only verified rows and no unverified coverage |
| `FinalProofResult.HandledProofRemovesItsRange` | aggregator/aggregator.go:1171-1211 | from the id of a range to the table: exactly the rows ending at or below its end are removed, all verified |
| `L1Events.EventReader.ProcessEvent` | etherman/etherman_xlayer.go:530-956 | an event is added to the last block or opens one, with its order; an error or an ignored log changes nothing; the error condition is exact |
| `L1Events.EventReader.ReadEvents` | etherman/etherman_xlayer.go:505-528 | fails iff some log fails where it stands; otherwise the index is that of the decoded events in log order |
| `L1Events.NeedsBlockIff` | etherman/etherman_xlayer.go:530-662 | in an open block, exactly the five kinds whose handlers read the whole L1 block fail without it |
| `L1Replay.BlockIsSeen` | etherman/etherman_xlayer.go:1143-1337 | following the orders of one block gives its events one by one, although kinds share lists, up to the single UpdateEtrogSequence slot |
| `L1Replay.ReplayIsSeen` | synchronizer/synchronizer.go:761-785 | for all logs grouped by block, the replay of the whole index is the events in log order, up to that slot |
| `L1Replay.ReplayIsTheLogIff` | synchronizer/synchronizer.go:761-785 | the replay is exactly the log if and only if no block has two different UpdateEtrogSequence events |
| `L1Replay.TwoEtrogSequencesInABlock` | etherman/etherman_xlayer.go:749-766 | two different ones in a block: the replay is not the log |
| `Forks.CollectLogs` | etherman/etherman_xlayer.go:364-393 | for every genesis, last block and chunk size: where the chunks advance, the logs are collected exactly when every chunk's query is answered, and then each block of the range is queried exactly once and in order; otherwise the loop comes back to a block at or before the last chunk |
| `Forks.AdvancesIff` | etherman/etherman_xlayer.go:374 | in 64-bit arithmetic the chunks advance if and only if the first start past the last block is below 2^64 |
| `Forks.LargestChunkNeverAdvances` | etherman/etherman_xlayer.go:374 | with chunk size 2^64 - 1 every chunk starts where the one before it did |
| `Forks.GetForks` | etherman/etherman_xlayer.go:395-478 | exact conditions for error and panic; otherwise each own fork ends where the next begins and the last is open |
| `Forks.OwnForksInOrder` | etherman/etherman_xlayer.go:395-479 | the forks read are those of all logs read as forks of the rollup, in log order |
| `Forks.OwnIff` | etherman/etherman_xlayer.go:397-454 | a log is read as a fork of the rollup if and only if it is one of the four events that announce that batch, fork, version and block |
| `Forks.ForeignFirstLogPanics` | etherman/etherman_xlayer.go:452-462 | logs on which that condition for a panic holds |
| `Forks.CountIsRises` | etherman/etherman_xlayer.go:452-475 | a batch is in as many intervals as fork batches fall across it, plus one if the first fork is below it |
| `Forks.PartitionIff` | etherman/etherman_xlayer.go:452-475 | every batch after the first fork is in exactly one interval and no other in any, if and only if announced batches never decrease and none is the largest number |
| `Forks.FallingForksAreNoPartition` | etherman/etherman_xlayer.go:452-475 | forks announced with falling batches, and a batch that is in an interval it should not be in |
| `Forks.IntervalNamesLastFork` | etherman/etherman_xlayer.go:452-475 | where the numbers ascend, a batch is in the interval of the last fork announced below it, which has that fork's id, version and block |
| `ForkAgreement.ReplayedForks` | synchronizer/synchronizer.go:761-785 | the fork entries of the replayed index are those of the log, whatever else shares its blocks |
| `ForkAgreement.ForksAgreeIff` | etherman/etherman_xlayer.go:664-863 | the ForkIDs entries of the index readEvents builds are the From-1, ForkId and Version of the intervals of GetForks over the same logs, in order, if and only if no configured fork 9 batch overrides an announced one |
| `DataCommittee.Committee.Init` | dataavailability/datacommittee/datacommittee.go:74-88 | members are replaced on success only; the selected member is valid |
| `DataCommittee.Committee.GetBatchL2Data` | dataavailability/datacommittee/datacommittee.go:105-147 | data is found iff some member has the preimage, whichever member is asked first; what is returned is the preimage |
| `DataCommittee.Committee.GetSequence` | dataavailability/datacommittee/datacommittee.go:91-102 | all preimages in order, or nothing; found iff each is available |
| `Validium.SequenceBatches` | etherman/etherman_xlayer.go:1006-1021 | the calldata has, batch by batch, the data hash, the forced root only with a forced timestamp, the timestamp as unsigned and the block hash |
| `Validium.PostSequence` | dataavailability/dataavailability.go:47-56 | the data posted is that of the batches that are not forced, each once, in the order of the sequence: there are strictly increasing positions, exactly the unforced ones, with these data |
| `Validium.DataAvailability.LocalData` | dataavailability/dataavailability.go:86-109 | found iff every number is stored with data of the expected hash; returns the preimages |
| `Validium.DataAvailability.TrustedSequencerData` | dataavailability/dataavailability.go:112-140 | accepted iff as many batches as asked for, each with the expected hash |
| `Validium.DataAvailability.GetBatchL2Data` | dataavailability/dataavailability.go:62-83 | whoever answers, the result is the preimages; found iff one source has all of it |
| `Validium.DataAvailability.Decode` | etherman/etherman_xlayer.go:1430-1490 | numbers count down from the last batch, data are preimages, the rest is the calldata's; succeeds if and only if the local database under these numbers, the trusted sequencer (unless the node is that) or the committee has all of the data |
| `Validium.DecodeInvertsEncode` | etherman/etherman_xlayer.go:1430-1490 | any successful decode of what the sequencer encoded gives the original numbers, data, roots, timestamps and block hashes in order |
| `Validium.CommitteeServesIff` | dataavailability/dataavailability.go:47-83 | a committee that holds what was posted serves a batch of the sequence iff it, or one with equal data, is not forced |
| `Validium.ForcedBatchIsNotServed` | dataavailability/dataavailability.go:47-56 | a sequence of one forced batch that no such committee serves |
| `InnerTxs.Dfs.Name` | jsonrpc/endpoints_eth_xlayer.go:143-149 | the name is the type followed by the exact child-index path, read from the shared map |
| `InnerTxs.Dfs.Append` | jsonrpc/endpoints_eth_xlayer.go:143-156 | one entry is added for the frame, with its depth, index, name and error flag |
| `InnerTxs.Dfs.WalkCall` | jsonrpc/endpoints_eth_xlayer.go:158-162 | descending into a call adds that call's preorder and restores the path in the map |
| `InnerTxs.Dfs.Walk` | jsonrpc/endpoints_eth_xlayer.go:138-166 | the recursion over the shared map adds the pure preorder of known frames |
| `InnerTxs.InternalTxTraceToInnerTxs` | jsonrpc/endpoints_eth_xlayer.go:114-123 | the result is the rendered preorder of the trace |
| `InnerTxTheorems.TraceIsVisitedIff` | jsonrpc/endpoints_eth_xlayer.go:138-166 | a frame is listed iff it and all its ancestors, looked up by path, have known types, and is flagged iff it or an ancestor has an error |
| `InnerTxTheorems.CallsAreListedIff` | jsonrpc/endpoints_eth_xlayer.go:138-166 | with a listed frame each of its calls is listed if and only if it has one of the seven types |
| `CallTypes.KnownIff` | jsonrpc/endpoints_eth_xlayer.go:139-142 | a frame is recognised if and only if its type spells one of the seven names, case ignored |
| `CallTypes.CaseDoesNotMatter` | jsonrpc/endpoints_eth_xlayer.go:139-143 | types that differ in the case of letters only get the same name |
| `InnerTxTheorems.EntryDescribesFrame` | jsonrpc/endpoints_eth_xlayer.go:190-229 | depth, index, error, target and copied fields are those of the frame, the call type is the name of the seven that its type spells, the name joins that and the path's indices, and the code address is the target for callcode and empty otherwise |
| `InnerTxTheorems.VisitsOrdered` | jsonrpc/endpoints_eth_xlayer.go:156-162 | frames come before their calls and calls in the order made, each once |
| `InnerTxTheorems.NameIdentifiesPath` | jsonrpc/endpoints_eth_xlayer.go:143-149 | equal names have equal types and equal paths |
| `InnerTxTheorems.NamesAreUnique` | jsonrpc/endpoints_eth_xlayer.go:143-156 | no two inner transactions of a trace have the same name |
| `DynamicGasPrice.GetL2BatchTxsTips` | jsonrpc/dynamic_gas_price_xlayer.go:186-214 | error, nothing or the sampled tips of the batch |
| `DynamicGasPrice.FirstPositive` | jsonrpc/dynamic_gas_price_xlayer.go:198-208 | the first positive tips, at most the limit and at least one if there is one |
| `DynamicGasPrice.SampledAreSmallest` | jsonrpc/dynamic_gas_price_xlayer.go:195-208 | samples are positive tips of the batch, each at most as often as it was paid, ascending, at most as many as asked for (one if none); a positive tip left out even once is no smaller than the last sample of a full list |
| `DynamicGasPrice.SamplesAt` | jsonrpc/dynamic_gas_price_xlayer.go:124-138 | the samples of all batches are theirs one after the other, a batch without any counting as one of the minimum price |
| `DynamicGasPrice.InRangeIff` | jsonrpc/dynamic_gas_price_xlayer.go:141-144 | the percentile index is in range iff its numerator lies strictly between -100 and a hundred times the number of samples |
| `DynamicGasPrice.PercentilesAreInRange` | jsonrpc/dynamic_gas_price_xlayer.go:141-144 | it is for every percentile from 0 to 100 |
| `DynamicGasPrice.PercentilesAreOrdered` | jsonrpc/dynamic_gas_price_xlayer.go:137-141 | percentile 0 is the least sample, 100 the largest, and a higher percentile gives no lower price |
| `DynamicGasPrice.Manager.Gather` | jsonrpc/dynamic_gas_price_xlayer.go:126-138 | an error iff some goroutine failed, otherwise all samples, with the minimum price for a batch without any |
| `DynamicGasPrice.Manager.Select` | jsonrpc/dynamic_gas_price_xlayer.go:140-144 | the sample of the percentile's rank, the last price without samples, or an index out of range |
| `DynamicGasPrice.Manager.CalcDynamicGP` | jsonrpc/dynamic_gas_price_xlayer.go:90-184 | error, panic and update conditions are exact; on an update the price is the chosen sample within its bounds when the pool is congested and the last block is not empty, and otherwise half of its sum with the raw price, rounded down |
| `DynamicGasPrice.ScheduleDoesNotMatter` | jsonrpc/dynamic_gas_price_xlayer.go:120-144 | for all arrival orders of the goroutines: same failure, same panic, same price |
| `DynamicGasPrice.SettledIsBetween` | jsonrpc/dynamic_gas_price_xlayer.go:173-177 | away from congestion the price is determined by the raw and the bounded one and lies between them |
| `DynamicGasPrice.ClampedIff` | jsonrpc/dynamic_gas_price_xlayer.go:146-154 | the bounded price is the sample, the minimum for one below it, or the maximum for anything above it, and no other |
| `Ranks.SortedHasRank` | jsonrpc/dynamic_gas_price_xlayer.go:141-144 | an element of the sorted list has at most its index below it and more than its index up to it in the unsorted one |
| `Ranks.RankIsUnique` | jsonrpc/dynamic_gas_price_xlayer.go:141-144 | no other value has that rank |
| `Ranks.EndRanks` | jsonrpc/dynamic_gas_price_xlayer.go:137-141 | the first rank is the least value's, the last the largest's |
| `CoinPrices.Processor.ParseCoinPrice` | gasprice/kafka_proc_xlayer.go:238-266 | the last price of each coin asked for; an error iff the message has none of them |
| `CoinPrices.Processor.Update` | gasprice/kafka_proc_xlayer.go:178-193 | the fixed pricer takes the L2 price, the follower advances its history by the message, other types ignore it |
| `CoinPrices.Processor.UpdateL1L2CoinPrice` | gasprice/kafka_proc_xlayer.go:208-229 | what is published and held back stays what the history of messages defines |
| `CoinPrices.KeptIsPendingAndPublished` | gasprice/kafka_proc_xlayer.go:208-229 | two flags and four prices determine the pending run and the publication of the whole history |
| `CoinPrices.PublishedIsPaired` | gasprice/kafka_proc_xlayer.go:208-229 | over any history the published pair is the configured one or the last L1 and L2 prices of a segment |
| `CoinPrices.LastSegmentIsPublished` | gasprice/kafka_proc_xlayer.go:209-228 | a history of segments and a rest without both prices leaves the pair of the last segment published, and the rest held back |
| `CoinPrices.HistoryHasSegments` | gasprice/kafka_proc_xlayer.go:209-228 | every history is of that form |
| `CoinPrices.LatestIff` | gasprice/kafka_proc_xlayer.go:215-221 | the price held for a coin is that of the last message that has one |
| `CoinPrices.LastPriceIff` | gasprice/kafka_proc_xlayer.go:237-266 | the price of a coin in a message is that of its last entry for the coin |
| `CoinPrices.NoProperPrefixHasBoth` | gasprice/kafka_proc_xlayer.go:219-228 | no proper prefix of such a segment has both prices |
| `PublishedPrice.Publish` | gasprice/follower.go:68-94 | the stored price is, as far as 64 bits hold it, the largest number of at most three significant digits not above the price brought within the bounds |
| `PublishedPrice.TruncateIsFloor` | gasprice/follower.go:79-90 | cutting the decimal string takes a number to the largest one of at most three significant digits not above it |
| `PublishedPrice.KeptIffThreeDigits` | gasprice/follower.go:79-90 | it keeps a number if and only if that has at most three significant digits |
| `PublishedPrice.TruncateStep` | gasprice/follower.go:79-90 | cutting the decimal string zeroes each digit after the third |
| `PublishedPrice.LosesLessThanOnePercent` | gasprice/fixed_xlayer.go:73-84 | truncation never increases a price and loses less than 1% of it |
| `PublishedPrice.TruncateIsMonotone` | gasprice/fixed_xlayer.go:73-84 | truncation keeps the order of prices |
| `PublishedPrice.TruncateIsIdempotent` | gasprice/fixed_xlayer.go:73-84 | truncating twice is truncating once |
| `PublishedPrice.PublishedIsCapped` | gasprice/fixed_xlayer.go:61-88 | with a maximum the stored price never exceeds it, and 64 bits are enough |
| `PublishedPrice.MinimumHoldsIff` | gasprice/fixed_xlayer.go:61-88 | no price is stored below the minimum if and only if that is zero, or there is a maximum not below it and it has at most three significant digits |
| `PublishedPrice.MinimumIsCut` | gasprice/fixed_xlayer.go:73-84 | a minimum of four digits that is stored lower |
| `PublishedPrice.MinimumIsWrapped` | gasprice/fixed_xlayer.go:84-88 | a minimum of one significant digit without a maximum, and a price that is stored as zero |

## Left out

- The custodial signing service, ABI, JSON, RLP, Keccak, Kafka, gRPC and Postgres connections: foreign code, present only as answers.
- Timers, sleeps and the liveness of retry loops: all results are about safety.
- `buildInputProver` and the profitability check of the aggregator: their data comes from code that is not part of this model.
- Floating-point factors and coin-price ratios: the integer after conversion is an arbitrary input.
- TxClient.Client.MonitorTx: the method runs without interference; interleavings are covered by the row machine it is a run of.
- AggregatorRuns.ExclusiveProving: holds for runs in which locks are cleaned up only after their prover stopped or their batches were verified, and every batch added is above what was cleaned up; two lemmas show both are needed.
- Aggregation.Aggregator.TryAggregateProofs: does not model other workers during the call; AggregatorProtocol, of which it is a run, does.
- Forks.CollectLogs: ends where the source's loop variable wraps; what the loop collects from there on is not modelled.
- Validium.DataAvailability.Decode: models the validium method only; the rollup method carries its data in the calldata.
- L1Events.EventReader.ProcessEvent: the payload of an event is whatever its handler decodes; decoding itself is left out.
- InnerTxs.InternalTxTraceToInnerTxs: gas and value conversions are left out; the fields copied as they are stand as one value.
- gasprice/lastnbatches.go: the same shape as the dynamic price, it would only add easy members.
- The committee's collection of signatures and the RPC endpoints around these parts: plumbing.
