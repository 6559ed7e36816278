# Event delivery, proved

A Dafny model of the event-delivery pipeline of a domain-driven-design kit and of the protocols
beside it, with proofs of what its comments and tests promise. `dafny verify dfyconfig.toml`
checks everything.

The parts, in the order a reader may want them:

- **Commit chain to projection.** `Outboxes.dfy` states the in-memory outbox as functions
  (pre-checks, `add` loop, dispatch and failure marking); `InMemoryOutbox.dfy` is the class with
  its loops, each method proved equal to them. `OutboxChain.dfy` and `OutboxProperties.dfy` prove
  the commit chain, the agreement of the pre-checks with the loop, and the capacities;
  `OutboxVerdicts.dfy` says in the fields of candidates and records what `add` refuses, and
  `OutboxReceipts.dfy` what is remembered of acknowledged records and what a re-added event does;
  `OutboxAtomicity.dfy` and `OutboxRetries.dfy` say when `add` is all-or-nothing and what a re-added
  commit does; `OutboxLimitsOfAdd.dfy` holds the counterexamples that mark the borders.
  `Projections.dfy`, `ProjectionProperties.dfy` and `Projector.dfy` do the same for the four
  passes of `Projector.project`, over the checkpoint store of `CheckpointStore.dfy`;
  `ProjectionVerdicts.dfy` says in plain fields what they refuse.
  `Pipeline.dfy` and `PipelineTheorems.dfy` compose both: exactly-once, in-order projection from
  reordered, repeated and truncated delivery; `PipelineProgress.dfy` adds that it never stalls and
  `PipelineBatches.dfy` which batches are accepted.
  `SinkDelivery.dfy` (with `HarvestedQueues.dfy`) joins the dispatcher's queue to it: publishing
  in queue order is never refused, and a drained queue leaves nothing unapplied.
  `ConcurrentProjections.dfy` runs many `project` calls at once under the checkpoint locks.
- **Delivery.** `DispatchProtocol.dfy` is the dispatcher as a step machine interleaved with
  producers and failing calls; `OutboxDispatcher.dfy` is its pass as a loop.
- **Committing.** `CommitScope.dfy` (token registry, unit-of-work session), `WithCommit.dfy`
  (harvest, outbox write, acknowledgement), `HarvestedBatches.dfy` (what `add` makes of a harvest)
  and `CommitRuns.dfy` (many instances against one database and outbox); `CommitProgress.dfy` says
  when a commit lands and what it leaves, `CommitLimits.dfy` holds the counterexamples.
- **Idempotency.** `Idempotency.dfy` and `InMemoryIdempotencyStore.dfy` are the leased store,
  `IdempotencyTokens.dfy` its ownership rules over any calls, `IdempotencyProtocol.dfy` many
  workers running the idempotent-commit program against it, and `IdempotencyLiveness.dfy` what they
  achieve: which claims are granted, and that a confirmed command is answered from then on.
- **Checkpoint locks.** `CheckpointLocks.dfy`, with the key order in `StringOrder.dfy`.
- **Replay and paging.** `EventSourcing.dfy`, `EventSourcingVerdicts.dfy`,
  `EventSourcedAggregate.dfy`, `EventStreams.dfy`.
- **State machines and graph cloning.** `StateMachines.dfy`, `StateMachineAnalyzer.dfy`,
  `DomainStateMachine.dfy`, `ObjectGraphs.dfy`, `FirstPaths.dfy`, `GraphCloner.dfy`.
- **Deadlines and money.** `Deadlines.dfy`, `DeadlineProcessor.dfy`, `Monies.dfy`, `Decimals.dfy`.

`Common.dfy` and `OrderedMaps.dfy` (the iteration order of a JavaScript `Map`) are shared.

Conventions. A thrown error is a value of an error datatype. A class that the source updates in
place is a class here; its methods are proved against functions on its abstract value, and what the
source promises is proved about those functions. Protocols are step machines whose theorems range
over every run. An external call that may fail is a choice: success, failure without effect,
failure after taking effect. A missing or non-integer number in a position is -1 and a missing
event id the empty string; the source rejects each by the same check.

Three properties are false of the code as first imagined, and are stated with their exact border.

- *A pending event added again at another version keeps the chain.* Away from the head it can give
  two events one position (`OutboxLimitsOfAdd.RefreshCanShareAPosition`). A candidate keeps the
  chain if and only if it moves no event, or moves the one event of the commit that is still the
  head (`OutboxChain.ChainKeptIff`); a rolled-back head commit of several events moves as a whole
  batch (`OutboxRetries.RetryMovesHeadCommit`). The pipeline results are stated for histories
  without such moves.
- *`add` is all-or-nothing.* A candidate behind its source's head is rejected inside the loop,
  after its prefix was stored (`OutboxLimitsOfAdd.StaleHeadLeavesAPrefix`), and a pending event
  moved past a head that is not its own sets pre-check and loop apart
  (`OutboxAtomicity.PrecheckFollowsIff`), so that a later candidate can meet the position guard
  there as well (`OutboxLimitsOfAdd.RefreshLeavesAPrefix`). `OutboxAtomicity.AllOrNothingIff` is
  the exact condition, for every batch in every reachable state. A harvested batch is refused
  halfway if and only if an eventful aggregate is below the head the outbox retains
  (`CommitRuns.HarvestRefusedIff`), which takes an address created again after deletion
  (`CommitLimits.RecreatedBelowHead`); otherwise it is stored whole or not at all.
- *No event is committed twice.* Versions alone do not tell a row created again from the one an
  instance loaded, so an instance whose commit landed although its call threw can commit its
  events again (`CommitLimits.RetriedAfterRecreation`). When callers load again instead, as the
  repository guide says, no event is (`CommitRuns.CommittedAtMostOnce`); without deletions the
  rows enforce that (`CommitRuns.NoDeletionIsCareful`).

## Model

| member | source | states |
|---|---|---|
| `PipelineTheorems.AppliedOnceInOrder` | `src/projections/projector.ts:360-405` | for every run of adds, deliveries in any order with repeats and omissions, failing handlers, acknowledgements, failure reports and resets: per address the applied events start at genesis and follow the chain without a gap, strictly increasing, and the checkpoint names exactly the last one |
| `Pipeline.AppliedIsPrefix` | `src/projections/projector.ts:549-580` | every finalised event at or before the last applied position is itself applied, so the applied events are a prefix of the commit chain |
| `PipelineTheorems.HasReachedIsApplied` | `src/projections/in-memory-checkpoint-store.ts:157-168` | for a position of the chain, the checkpoint has reached it if and only if its event was applied |
| `PipelineTheorems.ResetThenReplayRebuilds` | `src/projections/projector.ts:441-449` | after any run, a reset followed by one replay of what had been applied is accepted, applies the same events in the same order, and leaves the same checkpoints and read model, for every handler |
| `PipelineProgress.NeverStalls` | `src/projections/projector.ts:549-580` | no stall: in every state reached by adding harvests or repeating known events, the next unapplied event of an address, delivered alone, is accepted and applied, whatever was delivered before |
| `SinkDelivery.SinkNeverRefuses` | `src/projections/projector.ts:461-467` | outbox, dispatcher order and projector together: along every run of harvests, publications in queue order, handler failures, acknowledgements of what was published and failures short of the ceiling, the sink accepts the next record, and it has been applied unless its handler threw |
| `SinkDelivery.DrainedPassAppliesAll` | `src/events/outbox-dispatcher.ts:354-381` | from every state of such a run, publishing the queue as it stands is refused nowhere, and afterwards every event ever committed has been applied |
| `SinkDelivery.SinkRunKeeps` | `src/events/outbox-dispatcher.ts:389-425` | along such a run nothing committed is lost: it was applied or waits in the queue, and the queue is in commit order per source |
| `HarvestedQueues.LoopAppends` | `src/events/outbox.ts:354-403` | an accepted batch of new events appends one record per event to the queue, in batch order, and changes no record before |
| `HarvestedBatches.HarvestKeepsWhole` | `src/app/handler.ts:446-493` | adding a harvest of events that no commit holds keeps every commit of the history whole, also when it stops halfway |
| `CommitRuns.CommitsAddHarvests` | `src/app/handler.ts:446-493` | in every reachable world of committing instances, what a commit hands to the outbox is such a harvest |
| `PipelineTheorems.NextEventIsApplied` | `src/projections/projector.ts:549-580` | the same for any history of whole commits: the next unapplied event of an address, delivered alone, is accepted and applied in every reachable state |
| `PipelineTheorems.OnePositionOneEvent` | `src/events/outbox.ts:267-403` | over a whole run with partly failed adds, dead letters and evicted receipts, records ever stored at one source and version carry one commit size and one predecessor, and at one sequence they are the same event |
| `Pipeline.RunKeepsInv` | `src/projections/projector.ts:360-405` | every reachable state satisfies the outbox invariants and the projection invariant together |
| `ProjectionProperties.SkippedIsCoveredOrRepeated` | `src/projections/projector.ts:298-393` | in a successful batch a skipped item is covered by the checkpoint stored at batch start or repeats, with the full receipt, an item this batch applied earlier |
| `ProjectionProperties.FirstUnseenIsApplied` | `src/projections/projector.ts:330-393` | in a successful batch the first item at a position unseen at batch start is applied, never skipped |
| `ProjectionProperties.EveryItemCounted` | `src/projections/projector.ts:360-393` | applied plus skipped is the batch length |
| `ProjectionProperties.BatchSplits` | `src/projections/projector.ts:230-405` | a batch that succeeds may be split anywhere: both halves succeed and together apply the same items and leave the same checkpoints and counts |
| `ProjectionProperties.OneAtATime` | `src/projections/projector.ts:461-467` | a batch that succeeds as one call succeeds one record at a time through the outbox sink, with the same applied sequence, counts and checkpoints |
| `ProjectionVerdicts.AcceptedMatchesWatermark` | `src/projections/projector.ts:265-297` | an item of an accepted batch at the stored version and sequence of its address is the stored event with the stored commit size and predecessor |
| `ProjectionVerdicts.AcceptedRepeatsReceipt` | `src/projections/projector.ts:298-329` | two items of an accepted batch at one version and sequence of one address are the same event with the same commit size and predecessor |
| `ProjectionVerdicts.EnvelopesVerdict` | `src/projections/projector.ts:141-226` | a batch of envelopes gets past validation exactly when each has a full source, an event id and a possible position and carries no event of another aggregate; the first that has not decides the error |
| `PipelineBatches.BatchIffOneByOne` | `src/projections/projector.ts:230-405` | in every reachable state a batch of chain events, with any repeats and in any order, is accepted if and only if its records are accepted one by one, which is if and only if it leaves no gap; then both end alike |
| `Projectors.LoadCheckpoints` | `src/projections/projector.ts:235-264` | succeeds if and only if every addressed checkpoint is absent or valid, reading each address once |
| `Projectors.CheckWatermarkReceipts` | `src/projections/projector.ts:265-297` | succeeds if and only if no item stands at the stored version and sequence of its address with another event, commit size or predecessor; the first item that does decides the error, identity before receipt |
| `Projectors.CheckBatchReceipts` | `src/projections/projector.ts:298-329` | succeeds if and only if items at one position of one address repeat one receipt; the first item that differs from an earlier one decides the error: identity violation when the event ids differ, receipt violation when only commit size or predecessor do |
| `Projectors.CheckOrder` | `src/projections/projector.ts:330-359` | succeeds if and only if no two unseen, distinct positions of one address stand in descending order; repeats and covered positions are ignored |
| `Projectors.PlanBatch` | `src/projections/projector.ts:360-393` | reports a gap exactly when the contiguity specification does, and otherwise plans exactly the specified checkpoints, applied items and skip count |
| `Projectors.Projector.Plan` | `src/projections/projector.ts:230-393` | the four passes together accept exactly the acceptable batches; an unreadable cursor, the first contradicted receipt, an inversion and a gap are each reported when the passes before theirs hold |
| `Projectors.Projector.Commit` | `src/projections/projector.ts:394-405` | handlers then saves in one transaction: on a throw or a capacity rejection read model, log and checkpoints are as before; it fails exactly in those two cases |
| `Projectors.Projector.Project` | `src/projections/projector.ts:141-433` | on any error nothing changed; the first malformed or foreign envelope decides the error, then the first item that contradicts its stored receipt, then the first that contradicts an earlier item; on success the log grew by exactly the specified items, the counts add up, the checkpoints are the specified ones and other projections are untouched; an acceptable batch without a throw or limit succeeds |
| `Projectors.Projector.Reset` | `src/projections/projector.ts:441-449` | clears this projection's checkpoints and read model and no other projection's |
| `CheckpointStores.InMemoryProjectionCheckpointStore.Save` | `src/projections/in-memory-checkpoint-store.ts:124-155` | overwrites a stored receipt, refuses a new one exactly at the limit and before any change, and keeps the counter equal to the number of receipts |
| `CheckpointStores.InMemoryProjectionCheckpointStore.Reset` | `src/projections/in-memory-checkpoint-store.ts:169-172` | forgets one projection, leaves all others equal, and keeps the counter right |
| `OutboxChain.AddOneKeepsChain` | `src/events/outbox.ts:267-403` | each accepted candidate that is not a version refresh keeps every chain strictly increasing and linked from null with the head last, keeps every stored record and receipt finalised, and only extends the history |
| `OutboxChain.ChainKeptIff` | `src/events/outbox.ts:319-352` | the exact condition: an accepted candidate leaves a consistent history that keeps every other finalised fact if and only if it moves no pending event, or moves the one event of the commit that is still the head |
| `OutboxChain.HistoryGrowsIffNoRefresh` | `src/events/outbox.ts:319-352` | the history merely grows, no position taken back, if and only if the candidate moves no pending event |
| `OutboxRetries.RetryMovesHeadCommit` | `src/events/outbox.ts:322-334` | the rollback case: re-adding a whole head commit of any size at a later version is accepted, keeps every invariant, and changes the history only there: same events, same predecessor, new version |
| `OutboxLimitsOfAdd.RefreshCanShareAPosition` | `src/events/outbox.ts:319-352` | four accepted adds ending in two pending events at one position of one source, with different predecessors: a refresh away from the head breaks the chain |
| `OutboxChain.PositionIdentifiesEvent` | `src/events/outbox.ts:354-403` | one source, version and sequence belongs to one event with one commit size and predecessor |
| `OutboxChain.PredecessorIsAdjacent` | `src/events/outbox.ts:354-403` | the predecessor a position names is at least every earlier eventful version, and only the first commit of a source has none |
| `OutboxChain.HeadIsNewest` | `src/events/outbox.ts:267-403` | nothing is finalised past the source head, and what is at its version is owned by it |
| `OutboxProperties.LoopKeepsInvariants` | `src/events/outbox.ts:216-403` | once the pre-checks passed, the loop keeps storage and chain invariants, moves the heads exactly as the pre-check simulated, and can only fail with a stale head |
| `OutboxProperties.StepIsSimulated` | `src/events/outbox.ts:498-550` | one loop step after passed checks moves the heads exactly as the position pre-check simulated, or is rejected for a stale head |
| `OutboxProperties.AddKeepsInvariants` | `src/events/outbox.ts:216-403` | `add` of a batch without a version refresh keeps all invariants and only extends the history, also when it fails halfway; every rejection other than a stale head leaves the state unchanged |
| `OutboxAtomicity.AddAcceptsIff` | `src/events/outbox.ts:216-317` | on any batch and any stored state whose sources have heads: `add` succeeds if and only if the pre-checks pass and no candidate meets a failing guard, stale head or disagreeing head commit, at the heads its predecessors leave; the first that does is the error, and exactly the accepted prefix before it stays |
| `OutboxAtomicity.AllOrNothingIff` | `src/events/outbox.ts:216-317` | the exact condition, on any batch: `add` is all-or-nothing if and only if a pre-check rejects it, no guard fails in the loop, or everything before the first failing guard only repeats what is stored, in the recency it has |
| `OutboxAtomicity.OnlyStaleBlocks` | `src/events/outbox.ts:267-317` | when no pending event is moved past a head that is not its own commit, the only guard that can fail is the stale head, and it fails exactly for the candidates that are stale at the heads the pre-check itself simulates |
| `OutboxAtomicity.HeadsAreKept` | `src/events/outbox.ts:216-403` | that stored sources have heads holds of the empty outbox and is kept by every operation on every input, version refreshes included |
| `OutboxAtomicity.PrecheckFollowsIff` | `src/events/outbox.ts:498-550` | the position pre-check holds the loop's heads after every accepted prefix if and only if every candidate that moves a pending event past a foreign head comes after a stale one |
| `OutboxLimitsOfAdd.RefreshLeavesAPrefix` | `src/events/outbox.ts:319-352` | such a move misleads the pre-check: a later candidate meets the position guard inside the loop and the moved event stays moved |
| `OutboxLimitsOfAdd.StaleHeadLeavesAPrefix` | `src/events/outbox.ts:283-293` | one such input: a stale head behind a good candidate is rejected yet leaves the good one stored |
| `OutboxProperties.AddKeepsCapacity` | `src/events/outbox.ts:406-449` | configured record and source limits hold after every `add`, including one that fails midway |
| `OutboxVerdicts.CapacityRefusedIff` | `src/events/outbox.ts:406-449` | `add` is refused for records if and only if receipts and positions agree and the distinct ids stored afterwards (pending, dead and the new ones of the batch) exceed the limit, and for sources likewise after that |
| `OutboxVerdicts.AddSucceedsIff` | `src/events/outbox.ts:216-403` | `add` succeeds if and only if receipts and positions agree, the stored ids and sources afterwards are within the limits, and no candidate is blocked in the loop |
| `OutboxVerdicts.ReceiptsVerdict` | `src/events/outbox.ts:451-496` | the receipt pre-check passes exactly the batches in which every candidate has the source, size and place (and, unless still pending, the version) that is stored under its event id or that an earlier candidate gave |
| `OutboxVerdicts.PositionsVerdict` | `src/events/outbox.ts:498-550` | the position pre-check passes exactly the batches in which no candidate that is newest of its source contradicts the stored head or an earlier candidate of its commit in size or in the owner of a place |
| `OutboxReceipts.AddOneEvent` | `src/events/outbox.ts:223-403` | what an accepted event changes by where the outbox knows it from: acknowledged, only the age of its receipt; dead, back at the end of the queue as stored with no attempts; pending, in its place with its attempts at the position now claimed; new, at the end and untried |
| `OutboxReceipts.RetainedIsNeverQueued` | `src/events/outbox.ts:223-243` | no batch brings an acknowledged event whose receipt is retained back into the queue |
| `OutboxProperties.MarkDispatchedKeeps` | `src/events/outbox.ts:581-613` | acknowledging any ids keeps storage, capacity and chain invariants, receipt eviction included |
| `OutboxProperties.MarkFailedKeeps` | `src/events/outbox.ts:615-640` | reporting a failure keeps storage, capacity and chain invariants, the move to the dead letters included |
| `OutboxReceipts.AckedStays` | `src/events/outbox.ts:581-592` | acknowledging a list removes exactly the listed records, pending or dead, and changes no other record and no head |
| `OutboxReceipts.AckedIsRemembered` | `src/events/outbox.ts:594-613` | an acknowledged record is remembered with its source and position, and stays among the newest receipts until as many others as the ledger keeps were acknowledged after it |
| `OutboxReceipts.RememberKeepsNewest` | `src/events/outbox.ts:594-613` | a remembered receipt becomes the newest, the oldest beyond the limit are forgotten, and no kept receipt changes |
| `InMemoryOutboxes.InMemoryOutbox.Add` | `src/events/outbox.ts:216-403` | the class's fields after `add` are exactly those of the specification, limits hold, without refresh the chain stays intact; it succeeds exactly when receipts and positions agree with storage and each other, the distinct stored ids and sources afterwards are within the limits and no candidate is blocked in the loop; it is refused for records exactly when receipts and positions agree and those ids exceed the limit; a rejection changes nothing exactly under the condition of `AllOrNothingIff` |
| `InMemoryOutboxes.InMemoryOutbox.AssertBatchEventReceiptIntegrity` | `src/events/outbox.ts:451-496` | the receipt pre-check loop passes exactly the batches that agree with what is stored and with themselves, and computes the specified rejection |
| `InMemoryOutboxes.InMemoryOutbox.AssertBatchPositionIntegrity` | `src/events/outbox.ts:498-550` | the position pre-check loop passes exactly the batches whose newest candidates contradict neither the stored head nor an earlier candidate, with the error of the simulation |
| `InMemoryOutboxes.InMemoryOutbox.AssertCapacity` | `src/events/outbox.ts:406-449` | refuses for records exactly when the distinct ids stored afterwards exceed the limit, and otherwise for sources exactly when the sources stored afterwards do |
| `InMemoryOutboxes.InMemoryOutbox.GetPending` | `src/events/outbox.ts:552-579` | the pending records in insertion order, cut at the limit; no limit means all, a limit not above zero none |
| `InMemoryOutboxes.InMemoryOutbox.MarkDispatched` | `src/events/outbox.ts:581-613` | the fields after acknowledging a list are those of the specification, one id after the other |
| `InMemoryOutboxes.InMemoryOutbox.MarkFailed` | `src/events/outbox.ts:615-640` | one more attempt; exactly at the ceiling the record becomes the returned dead letter |
| `DispatchProtocol.PublishedInInsertionOrder` | `src/events/outbox-dispatcher.ts:389-425` | over every interleaving of adds, polls, publishes, acknowledgements and reports that may fail with or without effect: when a record is published, every record inserted before it was already published or dead-lettered since |
| `DispatchProtocol.LeavesOnlyPublishedOrDead` | `src/events/outbox-dispatcher.ts:354-496` | nothing is lost: each insertion is still pending, or was published or dead-lettered since |
| `DispatchProtocol.DeadOnlyAtCeiling` | `src/events/outbox.ts:615-640` | a record is dead-lettered only when the failures counted since its insertion equal the configured ceiling |
| `DispatchProtocol.AckRemovesHead` | `src/events/outbox.ts:581-592` | acknowledging a head of the queue removes exactly that head and keeps the order and content of the rest |
| `OutboxDispatchers.OutboxDispatcher.DispatchBatch` | `src/events/outbox-dispatcher.ts:389-496` | publishes in order up to the first failure; record by record: everything before it left the queue unless the acknowledgement was lost; after a tracked permanent failure whose report took effect the failed record is pending with one attempt more and the error, or dead with as many attempts as the ceiling, exactly when it had one left; after a transient failure, an untracked outbox or a lost report it is unchanged, as is every other record; the streak is one more than before, or one after an acknowledged prefix, and at least the failed record's attempts |
| `OutboxDispatchers.OutboxDispatcher.Pass` | `src/events/outbox-dispatcher.ts:354-381` | a pass terminates; it publishes a prefix of the queue, each record once and in order; every batch before the last was acknowledged whole, and the last did to its records and the streak what `DispatchBatch` says of a batch at that place of the queue; if it drains, everything was published and the streak is zero; without failures it drains |
| `OutboxDispatchers.AddKeepsKeyed` | `src/events/outbox.ts:216-403` | every `add`, a version refresh included, keeps each record stored under its own dispatch id |
| `IdempotencyProtocol.AtMostOneCommitPerKey` | `src/app/idempotency.ts:421-571` | for every interleaving of workers, heartbeats, lost acknowledgements, crashes, late-landing transactions and truthful reconciliation, under any clock readings: at most one attempt per key commits |
| `IdempotencyProtocol.ReturnedOutcomeIsTheCommittedOne` | `src/app/idempotency.ts:421-571` | every outcome a worker returns, fresh or replayed, is the outcome of the key's committed attempt, which carried the same fingerprint |
| `IdempotencyProtocol.ReturnImpliesCommit` | `src/app/idempotency.ts:482-571` | a worker returns only after an attempt for its request committed |
| `IdempotencyProtocol.StepKeepsInv` | `src/app/idempotency.ts:421-571` | each step of the claim, work, complete, commit, confirm program keeps the protocol invariant |
| `IdempotencyTokens.EveryTokenIsDistinct` | `src/app/in-memory-idempotency-store.ts:287-313` | after any sequence of calls, under any clock, all issued tokens are distinct |
| `IdempotencyTokens.SupersededTokenIsPowerless` | `src/app/in-memory-idempotency-store.ts:171-275` | no call carrying a superseded token changes the store |
| `IdempotencyTokens.ConfirmedForever` | `src/app/in-memory-idempotency-store.ts:119-275` | a confirmed record is never changed or removed by any later calls |
| `IdempotencyTokens.LiveLeaseIsExclusive` | `src/app/in-memory-idempotency-store.ts:119-275` | while a lease has not expired, no sequence of calls without its token changes the record |
| `IdempotencyTokens.ExpiredClaimIsTakenOver` | `src/app/in-memory-idempotency-store.ts:119-169` | an expired pending claim is taken over by the next claim of the same command under a token never issued before, and the old token is powerless from then on |
| `IdempotencyLiveness.ConfirmedCommandIsAnswered` | `src/app/in-memory-idempotency-store.ts:119-228` | a granted claim completed within its lease and confirmed leaves the confirmed record of its outcome, and after any further calls every claim of the command at a valid clock reading answers completed with it |
| `IdempotencyLiveness.ClaimedCompletes` | `src/app/in-memory-idempotency-store.ts:171-197` | a granted claim completes within its lease whatever calls without its token come in between |
| `IdempotencyLiveness.StagedConfirms` | `src/app/in-memory-idempotency-store.ts:218-228` | confirming a staged outcome with its token confirms exactly it, whatever calls without that token come in between within the lease |
| `IdempotencyLiveness.ClaimGrantedIff` | `src/app/in-memory-idempotency-store.ts:119-169` | a claim is granted if and only if the key is free with room or holds an expired pending record of the same command, the clock and the lease end are dates and a token can be minted; it is in flight exactly under a live unconfirmed lease of the same command |
| `IdempotencyLiveness.ReconciliationIsAccepted` | `src/app/in-memory-idempotency-store.ts:241-275` | the reconciliation a claim hands out is accepted from then on: decided committed, every later claim answers with the staged outcome; decided not committed, the key is free again |
| `IdempotencyLiveness.UndisturbedWorkerReturns` | `src/app/idempotency.ts:421-571` | a worker whose claim is granted and whose transaction commits within the lease without a lost call returns its outcome as fresh, and every idle worker with the same request then replays it |
| `InMemoryIdempotencyStores.InMemoryIdempotencyStore.ClaimKey` | `src/app/in-memory-idempotency-store.ts:119-169` | grants a claim only on a free key or an expired pending record of the same command, and then stores a pending record under the new token; answers completed exactly for a confirmed record of the same command; any other answer leaves the records as they were |
| `InMemoryIdempotencyStores.InMemoryIdempotencyStore.CreatePending` | `src/app/in-memory-idempotency-store.ts:287-313` | a successful mint has advanced the generation within the safe range; a refused one leaves the records alone, though the generation may be spent |
| `InMemoryIdempotencyStores.InMemoryIdempotencyStore.Complete` | `src/app/in-memory-idempotency-store.ts:171-197` | stages the outcome, with the fingerprint and a new lease, exactly for the token that holds the pending record under a live lease at a valid clock reading, and touches no other key; a refusal changes nothing |
| `InMemoryIdempotencyStores.InMemoryIdempotencyStore.Renew` | `src/app/in-memory-idempotency-store.ts:199-216` | extends the lease exactly for the holder of a live one at a valid clock reading, from now by the configured duration, and changes nothing else |
| `InMemoryIdempotencyStores.InMemoryIdempotencyStore.Confirm` | `src/app/in-memory-idempotency-store.ts:218-228` | turns a record into a confirmed one, with its fingerprint and outcome, exactly if it was staged by that token, and otherwise changes nothing |
| `InMemoryIdempotencyStores.InMemoryIdempotencyStore.Abandon` | `src/app/in-memory-idempotency-store.ts:230-239` | removes exactly an unconfirmed record of that token and nothing else |
| `InMemoryIdempotencyStores.InMemoryIdempotencyStore.Reconcile` | `src/app/in-memory-idempotency-store.ts:241-275` | settles exactly the staged record described by key, fingerprint, token and expiry once it has expired: confirmed with its outcome or removed, as decided; a refusal changes nothing |
| `ConcurrentProjections.ConcurrentIsSerial` | `src/projections/projector.ts:218-433` | for any number of concurrent `project` calls interleaving locking, loading one checkpoint at a time and committing: checkpoints and applied events are those of the same calls run one after the other, each as one atomic step, in the order in which they ended |
| `CheckpointLocks.MutualExclusion` | `src/projections/in-memory-checkpoint-store.ts:66-107` | for any number of calls with any key sets, two calls that share a key are never inside their work together |
| `CheckpointLocks.FirstInFirstOut` | `src/projections/in-memory-checkpoint-store.ts:85-100` | while an earlier ticket on a key is not released, no later ticket on it has been acquired |
| `CheckpointLocks.DeadlockFree` | `src/projections/in-memory-checkpoint-store.ts:66-107` | in every reachable state with an unfinished call some call can step |
| `CheckpointLocks.RunsFinish` | `src/projections/in-memory-checkpoint-store.ts:66-107` | without new calls every run is bounded by the steps remaining, and a run that cannot be extended has finished every call and left no lock tail |
| `CheckpointLocks.SettledIffClear` | `src/projections/in-memory-checkpoint-store.ts:85-97` | a queued promise has resolved exactly when it and every ticket before it on its key were released |
| `StringOrder.SortedKeysSorts` | `src/projections/in-memory-checkpoint-store.ts:72-82` | the acquisition order is strictly ascending and holds exactly the requested keys |
| `WithCommits.HarvestIsExact` | `src/app/handler.ts:446-490` | the harvest succeeds exactly when every eventful aggregate advanced past its persisted version and every event is addressed; then it holds every pending event once, in token order, positioned 0..n-1 of n at its aggregate's version |
| `WithCommits.WithCommit` | `src/app/handler.ts:430-527` | on success every enrolled aggregate has no pending events and its old version, a saved one that version as its persisted version, a deleted one the persisted version it had; on an error no aggregate changed, and no outbox record unless the transaction landed; the error of every case: the work's own, an incomplete or foreign resolution, the harvest's, the outbox's, the transaction's |
| `WithCommits.Acknowledge` | `src/app/handler.ts:509-527` | clears the pending events of every committed aggregate and keeps its version; a saved one then persists that version, a deleted one keeps the persisted version it had |
| `CommitRuns.CommitExtendsChain` | `src/app/handler.ts:446-493` | over runs of many instances against versioned rows that may be deleted and created again, with transactions that fail before or after landing, a commit that goes through extends the chain of each eventful aggregate by exactly one whole commit, linked to the former head, holding all its events in order, at a higher version |
| `CommitRuns.HarvestRefusedIff` | `src/app/handler.ts:491-493` | the exact condition, in every reachable world: a harvest that passes the pre-checks is refused if and only if an eventful enrolled instance is below the head the outbox retains for its source, and then for that stale head; it leaves a prefix if and only if an eventful one is harvested before the first such |
| `CommitRuns.HarvestNeverStale` | `src/app/handler.ts:491-493` | a harvest whose eventful instances are above their heads is stored as a whole or changes nothing, and is never refused for a stale head |
| `CommitRuns.NoDeletionNeverStale` | `src/app/handler.ts:491-493` | as long as no row is deleted, every commit attempt is above its heads: never refused for a stale head, stored as a whole or not at all |
| `CommitProgress.CommitLandsIff` | `src/app/handler.ts:430-527` | in every reachable world a commit whose eventful instances are above the retained heads lands if and only if there is room for its events and the transaction is not refused: rows written at their versions or removed, every event in the outbox and each chain longer by one whole commit, instances clean unless the call threw all the same; otherwise nothing changes |
| `CommitRuns.NoDeletionIsCareful` | `docs/guide/repository.md:824-828` | as long as no row is deleted, an instance whose commit landed although its call threw finds its row moved on and cannot be committed again |
| `CommitLimits.RecreatedBelowHead` | `src/events/outbox.ts:276-297` | one such input: an address created again at version 1 below its retained head, harvested after another aggregate, is refused as stale and leaves the other aggregate stored |
| `CommitLimits.RetriedAfterRecreation` | `docs/guide/repository.md:476-481` | a possible run in which an instance whose commit landed unseen is committed again after its row was deleted and created again at the version it once loaded: its event stands in two commits |
| `HarvestedBatches.HarvestStaleIff` | `src/events/outbox.ts:276-297` | for any state and history of whole commits: a harvest that passes the pre-checks is refused if and only if an eventful aggregate is below its retained head |
| `HarvestedBatches.HarvestLeavesPrefixIff` | `src/events/outbox.ts:276-297` | a harvest refused after the pre-checks leaves a prefix if and only if an eventful aggregate is harvested before the first one below its head |
| `CommitRuns.RunKeepsInv` | `src/app/handler.ts:446-527` | in every world reached without committing an instance again whose commit landed unseen: every commit of every chain is whole, no event stands twice, and pending events are shared by no two instances and in no commit, unless their instance missed that it landed |
| `CommitRuns.CommittedAtMostOnce` | `src/app/handler.ts:446-527` | over every such run no event enters the commit chains twice, even when its call threw after landing, its row was deleted and created again, and the outbox forgot the event |
| `CommitScopes.CommitTokenScope.Enroll` | `src/app/handler.ts:173-222` | one token per aggregate; refused exactly when the scope is closed, the aggregate has no lifecycle, or it is saved after deletion; deletion is remembered |
| `CommitScopes.CommitTokenScope.Resolve` | `src/app/handler.ts:234-275` | accepted exactly when the list holds every minted token and nothing else; foreign and missing tokens are told apart |
| `CommitScopes.CommitTokenScope.ResolutionIsOneEach` | `src/app/handler.ts:234-275` | a resolution names each enrolled aggregate exactly once |
| `CommitScopes.Session.EnrollSaved` | `src/app/unit-of-work.ts:510-532` | succeeds exactly when the session is open, neither the aggregate nor its address was deleted, and the registry accepts; then its token joins at the end of the enrollment order or keeps its place; a refusal changes no token |
| `CommitScopes.Session.EnrollDeleted` | `src/app/unit-of-work.ts:534-561` | succeeds exactly when the session is open and the registry accepts; records deletion and tombstone and keeps the enrollment order; a refusal changes nothing |
| `CommitScopes.Session.CommitTokens` | `src/app/unit-of-work.ts:586-588` | the tokens handed to the harvest are exactly the minted ones |
| `EventSourcing.ReplayEqualsLive` | `src/aggregate/event-sourced-aggregate.ts:163-180` | replaying what a live aggregate recorded, onto what it started from, ends in its state and version |
| `EventSourcing.PagedReplayIsReplay` | `src/aggregate/event-sourced-aggregate.ts:321-350` | replaying in pages of any sizes succeeds exactly when one replay does and ends in the same aggregate |
| `EventSourcing.SnapshotPlusTailIsReplay` | `src/aggregate/event-sourced-aggregate.ts:367-418` | a snapshot after any prefix plus the rest, restored into any aggregate without pending events, succeeds exactly when the full replay does and ends in the same state and version |
| `EventSourcingVerdicts.ApplyRecordsIff` | `src/aggregate/event-sourced-aggregate.ts:163-180` | an event is recorded if and only if it is minted, of this aggregate or unaddressed, accepted by today's rules and handled; then state, one more version and one more pending event, addressed, are all that changes |
| `EventSourcingVerdicts.ApplyRefuses` | `src/aggregate/event-sourced-aggregate.ts:163-180` | what a refused event is refused with: not minted, another aggregate, today's rejection, no handler or the handler's failure, in that order |
| `EventSourcingVerdicts.LoadsIff` | `src/aggregate/event-sourced-aggregate.ts:321-350` | a load succeeds if and only if the aggregate has nothing pending and is new or persisted, and the handlers lead from its state through the whole history of events of its own; then it is in the last state, that many versions further and persisted there |
| `EventSourcingVerdicts.FirstFailureDecides` | `src/aggregate/event-sourced-aggregate.ts:321-350` | the first event that cannot be replayed decides the outcome: a domain failure is returned, any other thrown, and the aggregate is as before |
| `EventSourcingVerdicts.RestoresIff` | `src/aggregate/event-sourced-aggregate.ts:367-418` | a restore succeeds if and only if nothing is pending, the snapshot, migrated if its schema is older, opens as a state that passes its validation, and the tail replays from it |
| `EventSourcedAggregates.EventSourcedAggregate.Apply` | `src/aggregate/event-sourced-aggregate.ts:163-180` | the fields after `apply` are the specified ones and a throw changes nothing; a recorded event was minted, passed today's rules, and its handler gave the new state; an event those rules reject is refused with their rejection |
| `EventSourcedAggregates.EventSourcedAggregate.LoadFromHistory` | `src/aggregate/event-sourced-aggregate.ts:321-350` | the replay loop leaves exactly the specified aggregate and outcome; on a failure it rolls the state back, so a load that does not succeed leaves the aggregate as before |
| `EventSourcedAggregates.EventSourcedAggregate.RestoreFromSnapshotWithEvents` | `src/aggregate/event-sourced-aggregate.ts:367-418` | restore and replay of the tail leave exactly the specified aggregate and outcome; on a failure state and version are rolled back |
| `EventSourcedAggregates.FindById` | `src/repo/event-store.ts:94-123` | the documented paged read with the first head pinned, other writers appending between pages: terminates, never fails to progress, and ends as one replay of the stream as it was at the first read |
| `EventStreams.AppendExtends` | `src/repo/in-memory-event-store.ts:89-146` | a successful append found the expected version, extends its stream by its events and touches no other; every earlier stream is a prefix of the later one |
| `EventStreams.AppendAcceptsIff` | `src/repo/in-memory-event-store.ts:89-146` | events are accepted if and only if the stream is at the expected version and both limits hold afterwards; the version decides before the limits |
| `EventStreams.PageIsWindow` | `src/repo/in-memory-event-store.ts:148-176` | a page is the stretch of its stream after `fromVersion`, at most `limit` long, none past `toVersion`, and shorter only at the head or `toVersion` |
| `EventStreams.InMemoryEventStore.AppendEvents` | `src/repo/in-memory-event-store.ts:89-146` | accepted if and only if there is nothing to append, or the stream is at the expected version and stream and event count stay within their limits; then the stream has the events at its end and every other stream is as before; a rejection changes nothing; event count, no empty stream and limits are kept |
| `EventStreams.InMemoryEventStore.ReadPage` | `src/repo/in-memory-event-store.ts:148-176` | an invalid limit or position is refused and an unknown stream gives the empty answer; otherwise the head and the events after `fromVersion` in order, at most `limit`, stopping short only at `toVersion` or the head |
| `EventSourcedAggregates.PageIsNextStretch` | `src/repo/in-memory-event-store.ts:163-174` | a page of the pinned window of an extended stream is the next stretch of the stream at pin time, and not empty before its end |
| `GraphCloners.CloneMachineData` | `src/domain-state-machine/machine-data.ts:110-243` | terminates on every finite graph; it succeeds if and only if no function is reachable, a depth-first visit meets no reference below the deepest level, and node and property limits hold; then the result is a fresh copy isomorphic to exactly what is reachable, sources untouched; on an error the named reason is real |
| `FirstPaths.SeenIsNotDeep` | `src/domain-state-machine/machine-data.ts:122-129` | the depth-first order without the traversal: no first path goes through an object that was seen before, so an object met again adds no depth |
| `FirstPaths.AllPropertiesIsVisited` | `src/domain-state-machine/machine-data.ts:122-228` | visiting an object adds exactly what it reaches past the objects then open |
| `GraphCloners.Cloner.CloneValue` | `src/domain-state-machine/machine-data.ts:110-135` | one recursive clone keeps everything cloned before, extends the traversal, and returns the copy of its value |
| `GraphCloners.Cloner.CloneProperties` | `src/domain-state-machine/machine-data.ts:203-227` | clones the own properties in order onto the open copy and disturbs no other object |
| `ObjectGraphs.CopyReadsAlike` | `src/domain-state-machine/machine-data.ts:110-228` | every chain of property reads through the copy ends at the copy of where it ends in the original |
| `ObjectGraphs.CopySharesAlike` | `src/domain-state-machine/machine-data.ts:128-129` | two chains of reads meet in the copy exactly when they meet in the original: sharing and cycles survive |
| `GraphCloners.WithinLimits` | `src/domain-state-machine/machine-data.ts:230-243` | the counters bound every set of distinct reachable objects and their keys |
| `StateMachineAnalyzers.Analyze` | `src/domain-state-machine/analyzer.ts:48-137` | the reachable list holds exactly the states a path from the initial state leads to, the terminal-path list exactly those a path leads from to a terminal state, both sorted; transitions and all three kinds of diagnostics are exact |
| `StateMachineAnalyzers.VisitGraph` | `src/domain-state-machine/analyzer.ts:139-157` | the worklist visit terminates with exactly the nodes reached from the starts |
| `StateMachineAnalyzers.BuildGraph` | `src/domain-state-machine/analyzer.ts:60-96` | both adjacency maps and the transition list mirror the definition exactly |
| `DomainStateMachines.RunsStayReachable` | `src/domain-state-machine/transition.ts:149-223` | every run from the initial snapshot stays in the listed reachable states, and every snapshot on it satisfies both invariants |
| `DomainStateMachines.NoTerminalPathNeverEnds` | `src/domain-state-machine/analyzer.ts:102-106` | no run from a state outside the terminal-path list ever reaches a terminal state |
| `DomainStateMachines.TerminalIsFinal` | `src/domain-state-machine/transition.ts:160-170` | no input leaves a terminal state |
| `StateMachines.TransitionIsSound` | `src/domain-state-machine/transition.ts:149-223` | a successful transition follows an edge out of a non-terminal state into a snapshot that satisfies both invariants |
| `StateMachines.TransitionSucceedsIff` | `src/domain-state-machine/transition.ts:149-223` | a transition succeeds with an outcome if and only if the state is not terminal and lists the input, the guard allows it, and the outcome has the reducer's outputs and its context, or the old one where it gives none, all copyable and the new snapshot sound |
| `StateMachines.RefusalIsNamed` | `src/domain-state-machine/transition.ts:149-223` | the error of a refused transition by what the guard and then the reducer returned or threw |
| `StateMachines.CanAgrees` | `src/domain-state-machine/transition.ts:90-117` | `can` says yes exactly when the guard lets the input through to the reducer, no exactly when `transition` refuses the input, and throws exactly what `transition` throws otherwise; a transition that would succeed is announced |
| `StateMachines.PreparedIffSound` | `src/domain-state-machine/snapshot.ts:28-46` | a supplied snapshot is accepted, unchanged, exactly when its state is defined, its context cloneable and both invariants hold |
| `DomainStateMachines.DomainStateMachine.Dispatch` | `src/domain-state-machine/domain-state-machine.ts:143-167` | the snapshot advances exactly when the whole transition succeeded, along an edge of the graph; it succeeds exactly when the state offers the input, the guard allows it and the outcome is made of what the reducer returned; a re-entrant call is refused |
| `DomainStateMachines.DomainStateMachine.Can` | `src/domain-state-machine/domain-state-machine.ts:136-140` | on the current snapshot: yes exactly when a dispatch now gets past its guard, no exactly when it is refused, an error only if dispatch throws the same; a dispatch that would succeed gets yes; nothing changes; a re-entrant call is refused |
| `Deadlines.RunKeepsInv` | `src/deadlines/in-memory-deadline-store.ts:76-168` | in every reachable store a slot has at most one pending deadline, no two records share an incarnation, pending attempts are below and dead ones at the ceiling, and the record limit holds |
| `Deadlines.ScheduleHolds` | `src/deadlines/in-memory-deadline-store.ts:76-109` | in every reachable store scheduling is refused exactly for a new slot when the store is full; otherwise the slot holds the given time and payload, untried, under an id that named nothing before, and no other record changes |
| `Deadlines.DeliveredRemovesExactly` | `src/deadlines/in-memory-deadline-store.ts:137-147` | a delivery report removes exactly the pending deadlines and dead letters whose ids it lists |
| `Deadlines.FailureIsCounted` | `src/deadlines/in-memory-deadline-store.ts:149-168` | a failure report on a pending deadline counts one attempt of it and keeps it pending below the ceiling, dead at it; nothing else changes |
| `Deadlines.IdsAreNeverReused` | `src/deadlines/in-memory-deadline-store.ts:96-108` | no two accepted schedules of a run ever get the same delivery id |
| `Deadlines.StaleIdIsPowerless` | `src/deadlines/in-memory-deadline-store.ts:137-168` | a report on an id that names no pending deadline changes nothing; a delivery report at most forgets its own dead letter |
| `Deadlines.ReplacementMakesStale` | `src/deadlines/in-memory-deadline-store.ts:96-108` | scheduling over an occupied slot always succeeds and leaves the old id naming nothing |
| `Deadlines.GoneStaysGone` | `src/deadlines/in-memory-deadline-store.ts:76-168` | an id that names nothing never names anything again unless issued anew |
| `DeadlineProcessors.InMemoryDeadlineStore.Due` | `src/deadlines/in-memory-deadline-store.ts:115-135` | the due deadlines first in (dueAt, sequence) order, at most the limit, missing one only when full; a negative limit is refused |
| `DeadlineProcessors.InMemoryDeadlineStore.Schedule` | `src/deadlines/in-memory-deadline-store.ts:76-109` | refused exactly for a new slot at the limit; otherwise the slot holds the given due time and payload, untried, under an id that named nothing, and no other record changed |
| `DeadlineProcessors.InMemoryDeadlineStore.Cancel` | `src/deadlines/in-memory-deadline-store.ts:111-113` | the slot is empty afterwards and every other slot as before |
| `DeadlineProcessors.InMemoryDeadlineStore.MarkDelivered` | `src/deadlines/in-memory-deadline-store.ts:137-147` | removes exactly the deadlines whose ids are listed, pending or dead, and changes no other; the fields are the specified ones |
| `DeadlineProcessors.InMemoryDeadlineStore.MarkFailed` | `src/deadlines/in-memory-deadline-store.ts:149-168` | the pending deadline of that id has one attempt more and the new reason, or the old one where none is given; at the ceiling it is the returned dead letter; nothing else changes, and an unknown id changes nothing |
| `DeadlineProcessors.AckRemoves` | `src/deadlines/in-memory-deadline-store.ts:137-147` | acknowledging pending deadlines removes exactly them |
| `DeadlineProcessors.DeadlineProcessor.Pass` | `src/deadlines/deadline-processor.ts:215-325` | a pass at a fixed time terminates and handles only deadlines that were due when it began, each at most once and the earliest first; the batches before the last completed and are gone, and of the last batch each deadline is gone, has one attempt more, is a dead letter or is as before, as its handler and the calls decide; every other deadline is untouched; if it drains, exactly all due ones were handled; without failures it drains; the streak is exact |
| `DeadlineProcessors.DeadlineProcessor.HandlePage` | `src/deadlines/deadline-processor.ts:235-281` | a failing handler does not stop the batch: exactly the deadlines whose handler succeeds are handled, in order; each permanent failure whose report is not lost gives its deadline one attempt more or makes it a dead letter; every other deadline is as before |
| `Monies.ParseUndoesDecimalString` | `src/money/money.ts:295-305` | for every valid value, its decimal string fits the input limit and parses at its scale to the same value |
| `Monies.MatchesIffSpelled` | `src/money/parse.ts:16` | the matcher finds parts exactly when they spell the input: optional minus, digits, optional dot with digits |
| `Monies.ParseIsExact` | `src/money/parse.ts:51-92` | every accepted input spells a decimal number, and the result denotes exactly that number as amount / 10^scale |
| `Monies.ParseAcceptsIff` | `src/money/parse.ts:51-92` | an input is accepted if and only if scale and currency are valid, it is short enough, and it spells a number that some amount within bounds denotes at the scale |
| `Monies.PrecisionLossIffInexact` | `src/money/parse.ts:72-91` | a grammatical input is refused for precision exactly when a non-zero digit stands beyond the scale, which is exactly when no integer amount denotes it |
| `Monies.RescaleIsExact` | `src/money/arithmetic.ts:61-80` | a rescaled value denotes the same amount; it is refused for precision exactly when no integer amount at the target scale denotes it |
| `Monies.RescaleAcceptsIff` | `src/money/arithmetic.ts:61-80` | rescaling succeeds if and only if the scale is valid and some amount within bounds denotes the same there |
| `Monies.SumIsExact` | `src/money/arithmetic.ts:21-46` | equal units add to exactly the sum and subtract to exactly the difference if that is within bounds, and are invalid otherwise; unequal currencies, then unequal scales, are refused as such |
| `Monies.RescaleUndo` | `src/money/arithmetic.ts:61-80` | a successful rescale is undone by rescaling back, up then down and down then up |
| `Monies.AddSubtractUndo` | `src/money/arithmetic.ts:36-45` | subtraction undoes a successful addition and the reverse |
| `Monies.DtoRoundTrip` | `src/money/money.ts:187-226` | the wire form of a valid value fits the wire limit and comes back as the same value |
| `Monies.DtoAcceptsIff` | `src/money/money.ts:187-213` | a wire form is accepted as a value if and only if it has the value's currency and scale and spells its amount as an integer within the wire limit |
| `Decimals.ValueOfDecimal` | `src/money/money.ts:295-305` | a decimal representation denotes the number it was made from |

## Left out

- NeverStalls: a caller that adds partial commits to the outbox by hand is not covered; the projection then waits for the missing events, as `NextEventIsApplied` says for whole commits only.
- AddKeepsInvariants: batches that move pending events are covered one candidate at a time by `ChainKeptIff` and as a whole head commit by `RetryMovesHeadCommit`, not in every mixture.
- CommittedAtMostOnce, and with it the results over runs of commits: an instance whose commit landed although its call threw is loaded again, not committed again; `RetriedAfterRecreation` shows what happens otherwise, `NoDeletionIsCareful` when it cannot.
- CommitExtendsChain: the repository write is a comparison of the row's version with the instance's persisted version; a deletion is one too.
- DrainedPassAppliesAll: dead letters and resets are not part of these runs, since either leaves events unapplied on purpose.
- EnrollSaved: tombstones are kept per address rather than per class and id, and the session's check for forgotten enrollments is not modelled.
- Dispatch: guards, reducers and validators are functions, so a callback cannot call back into its machine; only the re-entrancy flag itself is modelled.
- DoCommit: a transaction is atomic, it lands whole or restores the outbox, which the in-memory outbox alone would not do.
- ConcurrentIsSerial: applying and saving inside one transaction is one step, as the transaction scope promises; `reset` is not part of these runs.
- Nested `withCheckpointLocks` calls with overlapping keys, which the source forbids and which wait for themselves.
- The idempotency program for stores that claim inside the caller's transaction, and the store's `clear` test hook.
- One dispatcher per outbox, as the source requires; adapters whose poll claims records are not modelled. In the step machine producers add one candidate at a time.
- Time: abort signals, timeouts, the poll loop's sleeps and backoff delays. The failure streak that feeds the backoff is kept.
- Observers, bus publication after a commit, error classes, codes and messages. Whether a delivery failure is transient is an input.
- An acknowledgement that fails because an aggregate was frozen after construction.
- Constructor option validation appears as preconditions; a definition's property-by-property validation appears as the structural predicate `ValidDefinition`.
- Integers are unbounded except where the source's bounds matter: the token generation, dates, and the money limits are explicit.
- Addresses are pairs instead of their string encodings, and a deadline's slot is the pair of scope and key, which the source's NUL-joined string represents only for scopes without that character.
- Strings are sequences of characters: lock keys arrive already encoded, and neither string order nor currency length accounts for surrogate pairs.
- Deep copies on store boundaries, freezing, mint brands, prototype and accessor checks, property flags and symbol keys: values are immutable, and the clone knows primitives, functions, arrays and plain objects.
- Receipt ledgers beyond the watermark, the snapshot cache, dirty tracking, retrying scopes, message encoding, money formatting and factories: correct but easy next to the rest.
