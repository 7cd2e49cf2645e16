# Verified model of the research worker

A Dafny model of the worker's stateful logic and proofs of what it promises:

- **The research work queue** (`ReceiptLog`, `ReceiptFeed`, `WorkflowTables`, `LeaseHistory`, `WorkflowCalls`, `WorkflowRuns`,
  `WorkflowAnswers`, `WorkflowProvenance`, `LoneCalls`, `LoneDecisions`, `LoneRuns`, `ReadPlane`, `WorkflowStore`): claim, submit and defer as a lease protocol over five shared tables. Every batch
  is one atomic step, every read its own step, every call a program counter with its own clock; the theorems hold in every
  world of every interleaving. `WorkflowStore` is the same queue written statement by statement over mutable tables, proved equal to
  running the state machine of one call alone. The receipt feed is followed by a consumer while writers append.
- **Canonical JSON** (`TextOrder`, `CanonicalJson`, `JsonReader`): the text that is hashed, that it decides equality of payloads, and
  that an independent reader reads it back.
- **The portfolio delta reducer** (`PortfolioDelta`, `PortfolioDeltaFeed`): observations folded into a baseline and a chain of deltas,
  the two-write store with crashes, and the composition with the authenticated status push.
- **The replica ingest** (`ReplicaQuota`, `ReplicaMonths`, `ReplicaTables`, `ReplicaIngest`, `ReplicaUsage`): the byte and write quota under interleaving and failure,
  which stored row survives, replay, content-addressed storage and recovery after crashes.
- **The LIVE overlay** (`QuoteRows`, `SnapshotRules`, `LiveUniverse`, `DynamicQuotes`, `PortfolioStatus`, `LiveOverlay`, `LiveServing`, `Redaction`): snapshot validation,
  quote completion, coverage, projection, the three-state presentation and the redaction of texts for callers.

`dafny verify dfyconfig.toml` checks the project.

## Reading the model

- Identifiers, digests and request ids of the queue are integers from a fresh supply; times are integers (milliseconds where a
  constant of the source is in seconds). A caller is a `Principal` with a formal flag.
- SHA-256 is injective: in the replica a hash is modelled by the bytes it digests and a message id by the fields it digests; the
  content hash of a universe is an arbitrary injective function of its canonical rows.
- A batch fails only on a constraint. Storage outages in the replica and in the delta store are crashes at a chosen point.
- Text that is inspected unit by unit is a sequence of UTF-16 code units (`TextOrder.Text`) or of characters (`Redaction`).

## What the proofs found

- With a clock that runs backwards the four job states do not partition: a claimed job can show as DEFERRED
  (`LoneCalls.BackwardClockTearsStatus`, reached by a run in `LoneRuns.TornStateIsReached`); `ClaimFollowsStatus` holds exactly
  when the state is not torn.
- A synthetic submit releases the lease of its job whoever holds it. Sent after a takeover it ends the new holder's period, and a
  third caller is granted an overlapping one (`LoneRuns.OverlappingGrantsAreReached`). No other call ends a lease it does not hold
  (`WorkflowProvenance.LeaseEndsBy`), and without a release in between periods never overlap (`ClaimedPeriodsNeverOverlap`).
- A retry of a defer that reads its key before the original is stored, and the job after, is answered CONFLICT instead of a replay
  (`WorkflowProvenance.RacingRetryConflicts`, reached by `LoneRuns.RacingRetryIsReached`); a retry that still
  reads its key is decided by it (`DeferKeyDecidesTheAnswer`).
- The read plane reads terminal and lease rows separately, so a job completed in between shows as QUEUED
  (`ReadPlane.TornReadHidesCompletion`); over any run and any two instants its answer is right exactly if the job was not completed
  between the reads (`ReadPlane.ReadPlaneAgrees`).
- SECOND_RESULT is never the answer of a submit that runs alone: completion deletes the lease, so a second result under a new
  key is refused as LEASE_INVALID first (`LoneSubmitAnswer`). Deferral rows are never deleted, so a job is deferred at most once ever.
- The baseline validator accepts baselines no run produces; from exactly those a delta can be emitted at the time of the last
  observation (`ValidatorAdmitsSameTimeDelta`). The chain replays step by step unless codes change under an unchanged hash
  (`StepReplaysIff`), which the cross-check of the status push rules out (`LiveChainReplays`).
- After a crash between the two writes of a delta record, another observation may publish a second delta that leaves the same
  previous hash (`CrashThenAnother`); the stored baseline follows the completed records alone (`BaselineIgnoresCrashes`).
- The monthly write limit can be exceeded in two ways: a roll that resets the row into a month already granted writes, and a
  charge that fits the row of another month, rolled in since the ingest's own roll, although its own month is full. It is kept
  as long as neither step occurs, and exactly these steps lose it (`ReplicaMonths.MonthlyLimit`, `StepStaysBoundedIff`). The second
  needs no late clock: the months may arrive in order (`RollBetweenExceeds`). Rolls that never go back together with charges in the
  row of the ingest's own month suffice (`ForwardRunsAreBounded`). The byte limit holds always.
- The accepted count of the replica is outside the commit: it falls short by one for each attempt that stops between commit and
  health update, and by nothing else (`AcceptedCountOverRuns`, `AcceptedCountIsExactIff`).
- The projection of a completed valid catalog is itself valid exactly when no active row that is not a mapping row lacks a number
  (`PipelineIsExact`); a catalog watch row may lack one until it becomes active.

## Model

| member | source | states |
|---|---|---|
| `ReceiptLog.NumberingIsBijection` | migrations/0007_research_receipt_order_v3.sql:10-24 | events and sequences are a bijection onto 1..n and the next sequence is n + 1 |
| `ReceiptLog.FeedUnique` | migrations/0007_research_receipt_order_v3.sql:10-17 | a numbered log has exactly one receipt order |
| `ReceiptLog.AppendFeed` | migrations/0007_research_receipt_order_v3.sql:43-58 | the trigger numbers a fresh event after all earlier ones and renumbers none |
| `ReceiptLog.FeedIsPrefix` | migrations/0007_research_receipt_order_v3.sql:43-58 | whatever is appended, the earlier receipt order stays a prefix of the later one |
| `ReceiptLog.MigrationNumbers` | migrations/0007_research_receipt_order_v3.sql:31-41 | the migration numbers the old events by time and id and leaves a well-numbered log |
| `ReceiptLog.MigrationIgnoresRowOrder` | migrations/0007_research_receipt_order_v3.sql:31-36 | two tables with the same events get the same numbering, in any physical order |
| `ReceiptFeed.SequenceTextIsLossless` | src/research-workflow.ts:203-219 | a text is accepted as a sequence iff it is the canonical decimal of a representable number |
| `ReceiptFeed.CursorRoundTrip` | src/research-workflow.ts:221-279 | decoding an issued cursor gives the sequence it was issued for |
| `ReceiptFeed.CursorIsAcceptedIff` | src/research-workflow.ts:225-279 | a current cursor continues at its sequence iff it is a canonical decimal, legacy ones restart at the beginning, every other one is refused |
| `ReceiptFeed.PageIsNextEvents` | src/research-workflow.ts:1273-1283 | any answer of the page query is exactly the next events of the feed, without gap or repeat |
| `ReceiptFeed.NextEventsArePage` | src/research-workflow.ts:1273-1283 | conversely the next events are an answer of the page query, so its answer exists and is unique |
| `ReceiptFeed.NumberedLogIsComplete` | src/research-workflow.ts:1256-1272 | the mapping-integrity check never fails on a log the trigger numbers |
| `ReceiptFeed.ListReceipts` | src/research-workflow.ts:1248-1341 | the request computes the specified page, cursor and error cases |
| `ReceiptFeed.FeedIsExactlyOnce` | src/research-workflow.ts:1248-1341 | following next_since through any interleaving of appends and reads yields exactly the first k events; an empty page means k = n |
| `ReceiptFeed.UnreadEventsAreServed` | src/research-workflow.ts:1248-1341 | a consumer that is behind always gets a non-empty page of the next events |
| `ReceiptFeed.RequestIsAnsweredIff` | src/research-workflow.ts:1253-1337 | a consumer's request is answered iff the limit is 1 to 500 and the page ends at a 64-bit sequence |
| `ReceiptFeed.BrokenMappingIsRefused` | src/research-workflow.ts:1256-1272 | an event without a sequence or a sequence without an event makes every well-formed request fail as STORE_UNAVAILABLE |
| `WorkflowTables.ExecuteKeepsInv` | src/research-workflow.ts:490-502 | every batch with any parameters and clock keeps every table invariant |
| `WorkflowTables.StoredRows` | src/research-workflow.ts:1039-1095 | a batch stores at most its own proposal and terminal row, under its own key and job |
| `WorkflowTables.LeaseEvolution` | src/research-workflow.ts:476-502 | a takeover raises the generation by one and starts no earlier than the previous expiry |
| `WorkflowTables.DeferralEvolution` | src/research-workflow.ts:1205-1219 | a stored deferral never changes, and a batch that adds one leaves the job without a lease |
| `WorkflowTables.PartialIndexIsNeverHit` | migrations/0003_research_workflow.sql:31-33 | a formal batch is stopped by a taken key alone, never by the one-formal-result index |
| `WorkflowTables.TerminalIffOneFormalResult` | src/research-workflow.ts:1072-1095 | the terminal row exists iff the job's one formal result does, names it, and bars a lease |
| `WorkflowTables.StaleGenerationWritesNothing` | src/research-workflow.ts:1213-1218 | a submit or defer batch with an overtaken generation writes no row or event and deletes no lease |
| `WorkflowTables.RowsAreKept` | src/research-workflow.ts:737-755 | stored proposals, terminals and deferrals never change |
| `WorkflowTables.BatchExtendsLog` | src/research-workflow.ts:331-359 | every batch extends the receipt log at its end |
| `LeaseHistory.NextKeepsHistory` | src/research-workflow.ts:490-502 | one batch keeps lease conservation, one ending per deferral and per formal result |
| `LeaseHistory.ReleasedBySynthetic` | src/research-workflow.ts:1039-1054 | a lease period is booked as released iff an unviolated synthetic accept met a lease row of its job, which it removes |
| `WorkflowRuns.CallInvIsStable` | src/research-workflow.ts:809-1140 | what a call knows at its program point survives every batch of every other call |
| `WorkflowRuns.ReachableInv` | src/research-workflow.ts:431-554 | all invariants hold in every world of every interleaving, with arbitrary clocks |
| `WorkflowAnswers.OneResultPerJob` | src/research-workflow.ts:1072-1095 | over every run a job is terminal iff it has exactly one formal result, which the terminal names, and then has no lease |
| `WorkflowAnswers.FormalIndexIsNeverHit` | migrations/0003_research_workflow.sql:31-33 | in every reachable world only a taken key can stop a formal batch |
| `WorkflowAnswers.LeaseConservation` | src/research-workflow.ts:490-502 | CLAIMED = LEASE_EXPIRED + COMPLETED + deferral rows + synthetic releases + the lease that exists now, per job over every run |
| `WorkflowAnswers.AcceptedIffOwnBatchWon` | src/research-workflow.ts:1104-1126 | ACCEPTED iff the call's own batch inserted its formal proposal, and then the terminal names it |
| `WorkflowAnswers.AtMostOneAccepted` | src/research-workflow.ts:1104-1126 | no two calls on one job are ever both answered ACCEPTED |
| `WorkflowAnswers.DeferredIffOwnBatchWon` | src/research-workflow.ts:1205-1232 | DEFERRED iff the call's own batch inserted the deferral |
| `WorkflowAnswers.WinnerReleasesTheLease` | src/research-workflow.ts:1205-1219 | at the step at which a terminal or deferral row appears the job's lease row is removed |
| `WorkflowAnswers.SubmitAndDeferNeverShareALease` | src/research-workflow.ts:1086-1094 | a winning submit and a winning defer ended two different lease periods |
| `WorkflowAnswers.EveryAnswerHolds` | src/research-workflow.ts:688-708 | each submit answer states a fact about the stored rows that stays true for the rest of the run |
| `WorkflowAnswers.ClaimAndDeferAnswersHold` | src/research-workflow.ts:1150-1240 | each claim and defer answer states a lease some world of the run held, or a terminal or deferral row that stays |
| `WorkflowAnswers.ClaimedPeriodsNeverOverlap` | src/research-workflow.ts:431-554 | two CLAIMED answers were each read from the lease row at a world of the run; of different owners and without a release in between, their periods do not overlap |
| `WorkflowAnswers.TakenKeyChangesNothing` | src/research-workflow.ts:840-856 | an access of a submit whose key another call holds changes no row and logs at most a conflict |
| `WorkflowAnswers.TakenKeyDecidesTheAnswer` | src/research-workflow.ts:757-782 | the row under a key never changes, and every submit that finds it answers the stored verdict, or CONFLICT for another payload |
| `WorkflowAnswers.ConflictIsAuditedOnce` | src/research-workflow.ts:710-735 | a call appends exactly one SUBMIT_CONFLICT event if it is answered CONFLICT, otherwise none |
| `WorkflowAnswers.LeasePeriodsNeverOverlap` | src/research-workflow.ts:476-502 | while a lease row lasts, generations only rise and a later period starts no earlier than any earlier one expires |
| `WorkflowAnswers.OvertakenGenerationIsFenced` | src/research-workflow.ts:1213-1218 | in every run a formal submit or defer batch with an overtaken generation has no effect |
| `WorkflowAnswers.RunExtendsLog` | migrations/0007_research_receipt_order_v3.sql:43-58 | over any run of the queue the receipt feed only grows at its end |
| `WorkflowProvenance.RowsCarryTheirInput` | src/research-workflow.ts:859-935 | over every run a stored proposal or deferral carries exactly the input of the call that wrote it, with the origin its caller may have; it is a VALIDATION_FAILED row iff the result is malformed |
| `WorkflowProvenance.FormalResultsAreFormalCallers` | src/research-workflow.ts:871-873 | over every run a row has origin CHATGPT iff its caller is formal and declared nothing or CHATGPT; a received row iff its caller is formal |
| `WorkflowProvenance.OnlyFormalCallersAreAccepted` | src/research-workflow.ts:861-884 | over every run only formal callers are ACCEPTED, only informal ones ACCEPTED_SYNTHETIC, and neither with a malformed result |
| `WorkflowProvenance.AnswersRestOnTheLease` | src/research-workflow.ts:937-948 | over every run a CLAIMED answer names a lease live at the claim's time, an acceptance rests on a live lease of the caller and its generation, a reported fault on a lease row that had it, a replay's status on what the tables said |
| `WorkflowProvenance.RowsAppearForTheHolder` | src/research-workflow.ts:1068-1095 | at the step at which a terminal or deferral row appears its call holds the live lease of the generation it names |
| `WorkflowProvenance.LeaseEndsBy` | src/research-workflow.ts:1054 | a lease period is ended by its holder's formal result or deferral, or by a synthetic submit of any informal caller |
| `WorkflowProvenance.ClaimSeesTheEnd` | src/research-workflow.ts:442-554 | over every run a claim that still reads the terminal row of a completed job is answered TERMINAL, one that still reads an active deferral DEFERRED or TERMINAL |
| `WorkflowProvenance.DeferKeyDecidesTheAnswer` | src/research-workflow.ts:1177-1197 | a defer that still reads its key is answered by a replay if the row under it has the same job, owner, generation, reason and recheck time, and by CONFLICT if any of the five differs |
| `WorkflowProvenance.DeferAnswersNameTheRow` | src/research-workflow.ts:1184-1195 | over every run a replay means that these five fields are stored under the key; CONFLICT, that other ones are or that the job is deferred |
| `WorkflowProvenance.RacingRetryConflicts` | src/research-workflow.ts:1196-1203 | a retry past its key read that finds the job deferred is answered CONFLICT, even if the deferral is its own |
| `WorkflowProvenance.AuditTrailIsExact` | src/research-workflow.ts:331-359 | the events of every call at every world: those of the row it stored or of the conflict it met, the grants of a claim and its denial, none for a defer |
| `LoneCalls.LoneClaim` | src/research-workflow.ts:442-554 | a claim that runs alone answers in its first pass, with at most one batch |
| `LoneCalls.ClaimFollowsStatus` | src/research-workflow.ts:413-424 | its answer is the one the job's status dictates, exactly when the state is not torn |
| `LoneCalls.BackwardClockTearsStatus` | src/research-workflow.ts:413-424 | after a claim at 0, a defer until 10 and a claim at 10, a clock at 5 meets a live lease and an active deferral, and no claim gives the answer of the status |
| `LoneCalls.StatesPartition` | src/research-workflow.ts:413-424 | for calls one after another at nondecreasing times an active deferral excludes a lease, and status and claim agree |
| `LoneCalls.AcceptableIsAccepted` | src/research-workflow.ts:1072-1126 | a well-formed formal submit of the live lease holder is ACCEPTED and completes the job |
| `LoneCalls.LoneSubmitAnswer` | src/research-workflow.ts:809-1140 | every other lone submit and its answer; a completed job gives LEASE_INVALID, never SECOND_RESULT |
| `LoneCalls.AcceptedRetryReplays` | src/research-workflow.ts:840-856 | retrying an accepted submit replays it at any later time and changes nothing |
| `LoneCalls.DeferrableIsDeferred` | src/research-workflow.ts:1150-1240 | a deferrable call is DEFERRED until its recheck time and claimable after it, by its one batch |
| `LoneDecisions.SubmitOfTakenKey` | src/research-workflow.ts:815-866 | refused input, a taken key or an unknown origin: the answer and everything stored, case by case |
| `LoneDecisions.SubmitIsRefused` | src/research-workflow.ts:875-987 | a malformed result, or a lease that is missing, expired, of another owner or generation: the fault, the stored refusal and its event |
| `LoneDecisions.SubmitOfHolder` | src/research-workflow.ts:1036-1140 | the live holder: a formal caller completes the job with a CHATGPT row, an informal one stores a SYNTHETIC row (or its declared origin) and the job stays open; all rows and events |
| `LoneDecisions.DeclaredOriginIsAccepted` | src/research-workflow.ts:861-884 | a formal caller may declare nothing or CHATGPT, an informal one any known origin |
| `LoneDecisions.DeferOfTakenKey` | src/research-workflow.ts:1165-1197 | refused input or a taken key: nothing changes, and the five fields of the request decide between replay and CONFLICT |
| `LoneDecisions.DeferOfFreshKey` | src/research-workflow.ts:1198-1240 | a fresh key: every answer in order, and the exact row stored for the live holder |
| `LoneDecisions.ClaimIsDenied` | src/research-workflow.ts:442-475 | a claim of a hidden, completed, deferred or leased job: its answer, and no row changed |
| `LoneDecisions.ClaimIsGranted` | src/research-workflow.ts:476-502 | any other claim is granted for an hour at the next generation; the lease row and the events |
| `LoneDecisions.ClaimTriesTwice` | src/research-workflow.ts:478-553 | a claim whose first batch granted nothing is granted by its second if the job is free by then, and unavailable after the second |
| `LoneDecisions.LateFormalIsSecondResult` | src/research-workflow.ts:991-1033 | a formal submit that finds the job completed after its lease read: SECOND_RESULT, stored as such |
| `LoneDecisions.LostFormalSubmit` | src/research-workflow.ts:1096-1126 | a formal submit that lost its lease before its batch stores nothing and answers SECOND_RESULT iff the job is completed, else LEASE_INVALID |
| `LoneDecisions.LostKey` | src/research-workflow.ts:737-782 | a submit whose key was taken before its batch stores nothing and answers by the row it lost to |
| `LoneDecisions.DeferByBatch` | src/research-workflow.ts:1205-1240 | a defer from its batch on, in any state: stored, stopped by a deferral the job got meanwhile, or explained by deferral, terminal or lease |
| `LoneRuns.LoneCallIsARun` | src/research-workflow.ts:431-554 | from the end of any run any call may run alone, and the run goes on to the tables it leaves |
| `LoneRuns.TornStateIsReached` | src/research-workflow.ts:413-424 | a run of three calls, each running alone, ends in the torn state |
| `LoneRuns.RacingRetryIsReached` | src/research-workflow.ts:1196-1203 | a run in which a deferral is stored and its own retry is answered CONFLICT |
| `LoneRuns.OverlappingGrantsAreReached` | src/research-workflow.ts:1054 | a run in which a late synthetic submit ends another caller's lease and two callers hold CLAIMED answers for the same hour |
| `ReadPlane.ReadPlaneAgrees` | src/research-remote-adapter.ts:441-472 | with the two reads at any two worlds of any run, the shown status is that at the second read, QUEUED standing also for DEFERRED, iff the job was not completed in between |
| `ReadPlane.TornReadHidesCompletion` | src/research-remote-adapter.ts:441-472 | the terminal read before and the lease read after a completion: the job is shown as QUEUED |
| `ReadPlane.TornReadIsReached` | src/research-remote-adapter.ts:441-472 | a run of one claim and one submit goes through both of these states |
| `WorkflowStore.Store.InsertEvent` | migrations/0007_research_receipt_order_v3.sql:46-58 | the INSERT with its trigger appends the event to the numbered log |
| `WorkflowStore.Store.ClaimBatch` | src/research-workflow.ts:490-502 | the three statements with one predicate have the effect of the atomic claim batch |
| `WorkflowStore.Store.AcceptBatch` | src/research-workflow.ts:1072-1095 | the five guarded statements have the effect of the atomic accept batch |
| `WorkflowStore.Store.DeferBatchRows` | src/research-workflow.ts:1205-1219 | the two statements have the effect of the atomic defer batch |
| `WorkflowStore.Store.ClaimJob` | src/research-workflow.ts:431-554 | the two-pass loop ends in the tables and the answer of the call run alone |
| `WorkflowStore.Store.SubmitJob` | src/research-workflow.ts:809-1140 | the whole submit ends in the tables and the answer of the call run alone |
| `WorkflowStore.Store.DeferJob` | src/research-workflow.ts:1150-1240 | the whole defer ends in the tables and the answer of the call run alone |
| `TextOrder.AscendingIsUnique` | src/research-workflow.ts:299-301 | a set of keys has exactly one ascending list |
| `TextOrder.SortAscends` | src/research-workflow.ts:299-301 | sorting distinct keys gives a strictly ascending list |
| `CanonicalJson.PrintIsInjective` | src/research-workflow.ts:295-305 | well-formed values that print alike are equal, nested strings, numbers and escapes included |
| `CanonicalJson.CanonDecidesSame` | src/research-workflow.ts:295-305 | sorting the keys of every object identifies exactly the values that are equal up to key order |
| `CanonicalJson.CanonicalTextDecidesSame` | src/research-replica.ts:47-57 | canonical texts are equal iff the values are equal up to object key order |
| `CanonicalJson.CanonicalTextIsPaired` | src/research-workflow.ts:289-305 | the canonical text never holds half of a surrogate pair, so hashing it as UTF-8 loses nothing |
| `JsonReader.ReadsQuoted` | src/research-workflow.ts:295-305 | a reader of JSON strings after RFC 8259 reads every text back from its quoted form, whatever it holds |
| `JsonReader.ReadsPrinted` | src/research-workflow.ts:295-305 | a reader of JSON values reads every printed value back, with whatever follows left over |
| `JsonReader.CanonicalTextRoundTrip` | src/research-workflow.ts:295-305 | the canonical text is read back as the value with sorted keys, which is the value up to key order |
| `JsonReader.EscapesAreNeeded` | src/research-workflow.ts:295-305 | a unit is escaped iff it is a control unit, a quote, a backslash or an unpaired surrogate; short or in lower-case hex |
| `PortfolioDelta.CanonicalListsAscend` | src/portfolio-delta.ts:160-173 | the strict list check accepts exactly the strictly ascending lists of codes |
| `PortfolioDelta.NormalizedCodes` | src/portfolio-delta.ts:148-158 | an accepted observation is stored in canonical form with the same codes |
| `PortfolioDelta.TextShapes` | src/portfolio-delta.ts:106-146 | codes are CN: or HK: and five or six digits, hashes sha256: and 64 hex digits |
| `PortfolioDelta.StoredIsValidIff` | src/portfolio-delta.ts:214-268 | a stored baseline or delta is accepted iff its lists ascend, its hashes are well formed and differ, and nothing is both added and removed |
| `PortfolioDelta.ReducerIsClosed` | src/portfolio-delta.ts:278-349 | the reducer fails exactly on invalid input, and every baseline and delta it builds passes its own validators |
| `PortfolioDelta.ReducerRefusesWith` | src/portfolio-delta.ts:190-212 | which fault: bad hash, bad code, repeated code, bad baseline, in this order; a bad delta never |
| `PortfolioDelta.ReplayIsNoOp` | src/portfolio-delta.ts:334-337 | reducing the same observation again keeps the baseline and emits nothing |
| `PortfolioDelta.RunIsAnchored` | src/portfolio-delta.ts:302-327 | in every run an eligible baseline is the last accepted observation itself |
| `PortfolioDelta.DeltaComparesNeighbours` | src/portfolio-delta.ts:328-349 | a delta compares two consecutive accepted complete observations at strictly later time, and its lists are exactly their differences |
| `PortfolioDelta.BaselineIsWhatWasSeen` | src/portfolio-delta.ts:293-333 | over any observations the baseline is the last accepted complete one, marked with state, hash and time of the last accepted one |
| `PortfolioDelta.DeltaIsEmittedIff` | src/portfolio-delta.ts:328-349 | a valid observation emits a delta iff it and the one accepted before it are complete, it is strictly later and its hash is another |
| `PortfolioDelta.ValidatorAdmitsSameTimeDelta` | src/portfolio-delta.ts:214-243 | of a valid baseline a same-time delta can arise iff it is eligible with another last hash |
| `PortfolioDelta.StepReplaysIff` | src/portfolio-delta.ts:334-349 | one step keeps the chain replayable iff it does not change codes under an unchanged hash |
| `PortfolioDelta.RunLinks` | src/portfolio-delta.ts:339-349 | the deltas since the last rebase link hash to hash at strictly increasing times up to the baseline |
| `PortfolioDelta.ChainReplays` | src/portfolio-delta.ts:278-349 | when the hash determines the codes, applying the deltas to the rebase codes gives the stored codes, over any observation sequence |
| `PortfolioDelta.StoredListIsTheReplay` | src/portfolio-delta.ts:160-173 | the stored list is the only canonical list with the replayed codes |
| `PortfolioDelta.UntrustworthyHashBreaksTheChain` | src/portfolio-delta.ts:334-337 | two observations with one hash and different codes break the chain |
| `PortfolioDelta.DeltaStore.RecordObservation` | src/portfolio-delta.ts:402-423 | validation, then delta, then baseline, with a crash at any point, as specified |
| `PortfolioDelta.RecordPublishesIff` | src/portfolio-delta.ts:402-423 | the same over any earlier records and crashes: a completed record publishes a delta exactly then, and what it stores |
| `PortfolioDelta.RecordRefusesIff` | src/portfolio-delta.ts:402-414 | a record is refused, with nothing written, iff a stored entry or the observation is invalid, and with which fault |
| `PortfolioDelta.CrashThenRetry` | src/portfolio-delta.ts:407-423 | any crashes followed by a completed retry end in the stored values and the answer of no crash |
| `PortfolioDelta.CompletedRetryIsNoOp` | src/portfolio-delta.ts:407-423 | repeating a completed record changes nothing and reports no event |
| `PortfolioDelta.CrashThenAnother` | src/portfolio-delta.ts:415-421 | after a crash between the writes another observation is recorded as if the crashed one had not been; two published deltas then leave one previous hash |
| `PortfolioDelta.BaselineIgnoresCrashes` | src/portfolio-delta.ts:407-423 | over any observations with any crashes the stored baseline is that of the completed records alone, whose chain replays to it |
| `PortfolioDeltaFeed.CompleteMeansSameHash` | src/index.ts:1461-1482 | an observation is complete only when the stored universe has the pushed hash |
| `PortfolioDeltaFeed.ObservedAs` | src/index.ts:1452-1489 | a push is observed as complete iff declared so, confirmed at most a day ago and carrying both stored hashes; hash, time and codes of the observation |
| `PortfolioDeltaFeed.ActiveIsValidIff` | src/live-universe.ts:54-72 | a universe list is valid iff it has at most 200 items with well-formed, distinct keys |
| `PortfolioDeltaFeed.ObservationsAreValid` | src/index.ts:1483-1488 | no valid push is refused by the reducer's validation |
| `PortfolioDeltaFeed.SameHashSameActive` | src/live-universe.ts:84-99 | equal content hashes stand for the same instruments |
| `PortfolioDeltaFeed.LiveChainReplays` | src/index.ts:1452-1489 | over any sequence of valid pushes the stored deltas replay to the stored codes |
| `ReplicaQuota.StepKeepsCovered` | src/research-replica.ts:69-102 | any access, start or failure of any ingest keeps held and pending bytes and writes within the reservations |
| `ReplicaQuota.QuotaHolds` | src/research-replica.ts:30-31 | over every interleaving with failures, bytes held <= stored_bytes <= 9,800,000,000, and writes reserved and made since the last reset <= r2_write_ops <= 990,000; writes reserved before a reset and made after it are counted by `MonthIsAuthorized` |
| `ReplicaMonths.MonthIsAuthorized` | src/research-replica.ts:212-227 | over every run the writes made by the ingests dated in a month stay within what the month was granted |
| `ReplicaMonths.StepAccountsIff` | src/research-replica.ts:81-102 | one step keeps every month within the limit and counted by its row iff it neither reopens a granted month nor overcharges the month of its ingest |
| `ReplicaMonths.MonthlyLimit` | src/research-replica.ts:69-102 | over every run with failures the months stay accounted up to a world iff no step so far offended, and then no month was granted more than 990,000 writes |
| `ReplicaMonths.BoundedOnwardIff` | src/research-replica.ts:88-102 | the limit holds on every further run without offences iff every month is within it and the row counts at least what its month was granted |
| `ReplicaMonths.StepStaysBoundedIff` | src/research-replica.ts:81-102 | exactly the offending steps lose the limit: a reset into a granted month, or a charge in another month's row with the own month full |
| `ReplicaMonths.ForwardRunsAreBounded` | src/research-replica.ts:81-102 | rolls that never go back and charges in the row of the ingest's own month keep the limit |
| `ReplicaMonths.MigratedIsAccounted` | migrations/0002_research_replica_quota.sql:3-11 | the row the migration inserts is a start from which all this holds |
| `ReplicaMonths.RollBetweenExceeds` | src/research-replica.ts:69-102 | a run whose months arrive in order grants a full month one write more, because another month is rolled in between a roll and its charge |
| `ReplicaMonths.RollBackExceeds` | src/research-replica.ts:81-86 | a run in which a late roll and the next one reopen a full month |
| `ReplicaMonths.SequentialLimit` | src/research-replica.ts:69-102 | one after another, requests whose months never go back are granted at most 990,000 writes in every month, from an absent row or one that counts nothing |
| `ReplicaMonths.LateClockExceedsTheMonth` | src/research-replica.ts:82-88 | one late clock between two requests lets a month exceed its limit |
| `ReplicaMonths.BackdatedRequestReopensTheMonth` | src/research-replica.ts:82-88 | a full month is granted a write again exactly after a request of another month |
| `ReplicaTables.RowsAreWinners` | src/research-replica.ts:244-262 | for every history of commits each stored row is that of its winner: the last arrival, for evidence the last of the latest generation if any |
| `ReplicaTables.MessageRowsAreFirst` | src/research-replica.ts:230-243 | a message row is that of its first arrival |
| `ReplicaTables.ObjectRowsAreLast` | src/research-replica.ts:263-277 | an object row exists iff a record of its bytes arrived, and is that of the last one |
| `ReplicaTables.EvidenceNeverRegresses` | src/research-replica.ts:247 | evidence stored as v4 stays v4 whatever arrives later |
| `ReplicaTables.MessagesAreTheArrivals` | src/research-replica.ts:230-243 | the message table holds exactly the messages committed |
| `ReplicaTables.LinksAreTheDocuments` | src/research-replica.ts:278-285 | the link table holds exactly the links of the document versions committed |
| `ReplicaTables.LinkRowsAreLast` | src/research-replica.ts:278-285 | a link has the visibility of the last document version that names it |
| `ReplicaTables.CurrentDependsOnTheSet` | src/research-remote-adapter.ts:238-250 | the current accumulator depends only on the set of arrived snapshots, not on order or repeats |
| `ReplicaTables.CurrentIsUnique` | src/research-remote-adapter.ts:240-244 | the ordered query has at most one answer |
| `ReplicaTables.CurrentExists` | src/research-remote-adapter.ts:245-250 | a subject has a current accumulator iff a snapshot of it arrived |
| `ReplicaTables.ChangedSnapshotDependsOnOrder` | src/research-replica.ts:244-260 | two payloads under one snapshot id: the order of arrival decides iff they differ |
| `ReplicaIngest.AssembleObject` | src/research-replica.ts:192-200 | copying the chunks at a moving offset gives their concatenation |
| `ReplicaIngest.ReplicaStore.ReserveQuota` | src/research-replica.ts:69-102 | the three statements reserve as specified, and the answer says whether they did |
| `ReplicaIngest.ReplicaStore.RunBatch` | src/research-replica.ts:230-287 | the statements of the batch have the effect of one commit |
| `ReplicaIngest.ReplicaStore.IngestRecord` | src/research-replica.ts:161-314 | the whole ingest, stopped at any point, ends in the specified state and answer |
| `ReplicaIngest.RunIsBacked` | src/research-replica.ts:218-286 | over every run with crashes a ready object row has exactly the bytes its hash names, and every recorded message its journal |
| `ReplicaIngest.RedeliveryIsReplay` | src/research-replica.ts:204-211 | redelivering a recorded message changes nothing and answers REPLAY |
| `ReplicaIngest.RunIsHistory` | src/research-replica.ts:230-287 | the tables of every run are a history of commits of sound records, one per message |
| `ReplicaIngest.CrashThenRetry` | src/research-replica.ts:156-160 | after any crashes an attempt that is not rate limited leaves the tables, journals and objects of one uncrashed ingest |
| `ReplicaIngest.CrashAfterCommitIsNeverCounted` | src/research-replica.ts:286-293 | the message of such an attempt is not counted by its redelivery either |
| `ReplicaIngest.AcceptedCountOverRuns` | src/research-replica.ts:286-293 | over every run messages recorded = messages counted + attempts that stopped there |
| `ReplicaIngest.AcceptedCountIsExactIff` | src/research-replica.ts:286-293 | the accepted count covers every recorded message iff no attempt stopped between commit and health update |
| `ReplicaIngest.RunsAgreeOnCurrent` | src/research-replica.ts:143-154 | two runs that recorded the same snapshots agree on every current accumulator, whatever order, repeats and crashes |
| `ReplicaUsage.AcceptedIff` | src/research-replica.ts:166-185 | a delivery is accepted iff its envelope is genuine and its chunks are the ones the manifest names; which fault otherwise |
| `ReplicaUsage.AnsweredAtOnce` | src/research-replica.ts:204-211 | what is answered before the reservation; nothing changes |
| `ReplicaUsage.IngestOutcome` | src/research-replica.ts:212-293 | everything an attempt on a new message leaves, field by field, by the point at which it stops and by whether it fits |
| `ReplicaUsage.AppliedReservesItsBytes` | src/research-replica.ts:212-217 | an APPLIED attempt reserves its journal and, for an object, exactly the bytes it stores, and one or two writes |
| `ReplicaUsage.HeldBytesAreReserved` | src/research-replica.ts:212-227 | over every run with crashes the bytes of all journals and objects held stay within stored_bytes, and this within the limit |
| `ReplicaUsage.LoneIngestEnds` | src/research-replica.ts:204-287 | the interleaved machine with one ingest alone: charged, stored and recorded iff it fits |
| `QuoteRows.KeyIsInjective` | src/portfolio-validation.ts:144-146 | an instrument key determines market and code |
| `QuoteRows.GetSnapshotCounts` | src/portfolio-validation.ts:334-363 | the counting loop computes the counts of the rows |
| `QuoteRows.CountIsCardinality` | src/portfolio-validation.ts:334-363 | a count is the number of list positions that hold a row of the class |
| `QuoteRows.IndexRows` | src/portfolio-validation.ts:420-430 | rows are indexed by key iff all are valid and no key repeats |
| `QuoteRows.MatchUniverse` | src/portfolio-validation.ts:431-439 | the loop accepts iff both lists hold the same instruments with the same fields |
| `QuoteRows.ValidateSnapshot` | src/portfolio-validation.ts:400-464 | the validator accepts iff the snapshot is valid and meets the options |
| `QuoteRows.UniverseHoldsEveryRow` | src/portfolio-validation.ts:421-439 | though only one direction is compared, every row is in the universe list of a valid snapshot |
| `SnapshotRules.RowIsValidIff` | src/portfolio-validation.ts:148-332 | which rows are accepted, as one table per bucket, market and holding; a position needs all twelve numbers |
| `SnapshotRules.SnapshotIsValidIff` | src/portfolio-validation.ts:400-464 | which snapshots are accepted: valid rows of distinct instruments, two lists of the same items, and totals that are the numbers of their rows |
| `SnapshotRules.OptionsAreMetIff` | src/portfolio-validation.ts:443-446 | the expected number of quoted rows and the demand for a watch row |
| `LiveUniverse.CoverageIsExact` | src/live-universe.ts:228-240 | coverage is complete iff every active instrument has a row, and lists exactly the others |
| `LiveUniverse.ApplyLiveUniverse` | src/live-universe.ts:260-321 | the push loop and the counters compute the specified projection |
| `LiveUniverse.ProjectionKeepsRows` | src/live-universe.ts:260-281 | the projection invents no row, changes only the three holding fields, and keeps a catalog row iff it is a mapping or watch row or active |
| `LiveUniverse.ProjectedPositions` | src/live-universe.ts:263-281 | the positions are the active instruments with a row that is not a mapping row |
| `LiveUniverse.ProjectionIsExact` | src/live-universe.ts:260-321 | positions, totals and the exact condition under which the validator accepts the projection |
| `DynamicQuotes.NormalizedRowIsValid` | src/dynamic-quotes.ts:438-540 | a normalized quote is a valid watch row of its instrument without nulls |
| `DynamicQuotes.NormalizedFiguresMean` | src/dynamic-quotes.ts:438-540 | every number of a normalized quote is the provider's, and a missing change or percentage satisfies what it means |
| `DynamicQuotes.CanonicalIff` | src/dynamic-quotes.ts:126-166 | an identity is canonical iff on SH or SZ with six digits or in Hong Kong with five; which refusal otherwise |
| `DynamicQuotes.ValidIsCanonicalIff` | src/dynamic-quotes.ts:126-166 | a valid active instrument cannot be quoted iff it is on BJ or its code has the other market's length |
| `DynamicQuotes.NormalizesIff` | src/dynamic-quotes.ts:438-540 | which provider answers give a row, every text and status of it, and the code of each refusal |
| `DynamicQuotes.FetchDynamicQuoteRows` | src/dynamic-quotes.ts:576-667 | both loops compute the specified batch or the specified failures |
| `DynamicQuotes.FetchIsAllOrNothing` | src/dynamic-quotes.ts:576-667 | the fetch succeeds iff all identities are canonical and distinct and all quotes normalize; each row is the quote of its identity |
| `DynamicQuotes.FetchRefusal` | src/dynamic-quotes.ts:563-667 | the code of a refused fetch, and that it lists exactly the identities refused or the instruments not quoted |
| `DynamicQuotes.PartialMeansSomeAnswered` | src/dynamic-quotes.ts:563-568 | a failed batch is called partial iff some instrument was quoted |
| `DynamicQuotes.MergeDynamicQuoteRows` | src/dynamic-quotes.ts:696-785 | the map, the set and the loop compute the specified merge |
| `DynamicQuotes.MergeSucceedsIff` | src/dynamic-quotes.ts:696-785 | a merge succeeds iff the batch is complete, without repeats and only of its own identities |
| `PortfolioStatus.MostConservative` | src/portfolio-status.ts:191-198 | the loop returns the most conservative state, unknown without any |
| `PortfolioStatus.StateIsExact` | src/portfolio-status.ts:262-313 | which state is presented at which age, hash match and declared state |
| `PortfolioStatus.PresentationIsExact` | src/portfolio-status.ts:262-313 | every other field: declared, reconciled, stale, mismatch, the anchor and its ten-day window |
| `PortfolioStatus.OverlayIffKnown` | src/index.ts:286-338 | the overlay is applied iff the presented state is not PORTFOLIO_UNKNOWN, at every instant |
| `PortfolioStatus.NeverLessConservative` | src/portfolio-status.ts:200-214 | the state is never less conservative than declared or recomputed, and never complete on a mismatch |
| `PortfolioStatus.MoreConservativeWithTime` | src/portfolio-status.ts:176-188 | from 300 s before the confirmation on the state only gets more conservative |
| `PortfolioStatus.MonotoneExactlyFromTolerance` | src/portfolio-status.ts:184 | for a known declared state that holds from exactly that instant on |
| `LiveOverlay.FetchedBatchMerges` | src/index.ts:356-360 | merging what was fetched for the missing instruments never fails and adds every row |
| `LiveOverlay.CompletionSucceedsIff` | src/index.ts:346-366 | completion returns iff the missing instruments are canonical and all quoted |
| `LiveOverlay.MergedIsValid` | src/dynamic-quotes.ts:762-784 | merging a fetched batch into a valid snapshot gives a valid snapshot |
| `LiveOverlay.CompletionIsSound` | src/index.ts:346-366 | completion keeps every catalog row and adds exactly the missing instruments as valid watch rows |
| `LiveOverlay.PipelineIsExact` | src/index.ts:346-366 | coverage complete, positions = active minus mapping rows, totals right, and validity of the projection iff no active row lacks a number |
| `LiveOverlay.CompleteCatalogGivesValidProjection` | src/portfolio-validation.ts:400-464 | a valid catalog without nulls always gives a projection the validator accepts |
| `LiveOverlay.ServingIsConsistent` | src/live-overlay.ts:228-255 | the overlay is applied iff the gate is open and the state known, otherwise the catalog is returned as it is, and the coverage failure never occurs |
| `LiveServing.CompletedRows` | src/index.ts:346-366 | completion appends the provider's quotes of the instruments the catalog lacks, each of them and nothing else |
| `LiveServing.AppliedRows` | src/live-universe.ts:260-281 | the applied answer shows every catalog row that stays and every appended quote, with the right holding, and nothing else |
| `LiveServing.ServingIsExact` | src/index.ts:384-418 | an answer is the overlay iff every lacking instrument can be quoted, else the code of the refused quotes; while the gate is closed or the state unknown the catalog with the reason |
| `LiveServing.GateIsExact` | src/live-overlay.ts:228-255 | the gate alone: each reason not to apply, and a coverage failure with the number of lacking instruments exactly when there is a gap |
| `Redaction.MatchIsPattern` | src/live-overlay.ts:142-143 | what the scan matches at a place is exactly what the pattern says, at one length |
| `Redaction.PatternInText` | src/live-overlay.ts:142-143 | the pattern at a place of the text, by code points: digits, market, and what may stand before and after |
| `Redaction.NoCodeRemains` | src/live-overlay.ts:150-153 | no match of the pattern remains anywhere in the output |
| `Redaction.RedactionIsIdempotent` | src/live-overlay.ts:145-153 | a second pass changes nothing, and the first changes exactly the texts with a match |
| `Redaction.MatchesAreDisjoint` | src/live-overlay.ts:142-143 | matches never overlap |
| `Redaction.RedactionIsSpliced` | src/live-overlay.ts:150-153 | each match becomes one placeholder and every character outside all matches is kept in order |

## Left out

- OAuth, consent pages, diagnostics, GitHub identity, MCP registration, HTTP routing, cron and the issue bridge: plumbing around the modelled logic.
- Field-by-field payload and envelope validators: one validity flag of the submit input, and the checks of an envelope that the replica's own state depends on.
- Malformed job ids, owners and timestamps of queue calls, which the source refuses before any access.
- SHA-256, UUIDs, base64, JSON parsing and number printing: an injective function, a fresh supply, and the text of a number as given.
- Storage outages of the queue other than constraint failures; the source does not promise its answers there.
- Concurrent ingests of one record: the quota covers every interleaving, the answers of the replica are those of ingests one at a time.
- The `reason` detail and the `origin` of receipts and events, and overflow of 64-bit counters below the cursor's own limit.
- The order of `localeCompare` on instrument codes is assumed to be that of their code units; codes are ASCII: upper-case letters, a colon and digits.
- Clocks as text: parsing of timestamps, and the check that a normalized UTC text sorts like its instant.
- Trimming and upper-casing of provider identities and blank texts made of spaces; a blank text is the empty one.
- Floating point: prices are reals, so a provider's finite numbers never overflow when a change is derived from them.
- `getDocument`, `searchDocuments` and the public projections: read-only views without state.
- The live-universe metadata that the projection carries along, and which error message a refused snapshot gets.
