# Verified model of the quip dashboard's durable indexing protocol

The dashboard indexes a proof-of-work chain into a local database. Four domains (winners,
difficulty, participation, authorship) are filled independently, forwards by live work and
backwards by a backfill driver, while the process may restart, tasks may be cancelled, and an
operator may reindex a domain at any time. What must never happen is that a height is recorded
as complete although its winner was never committed.

This project models that protocol and proves it.

| file | contents |
|---|---|
| `Coverage.dfy` | the `low / high / gaps` form of a set of heights, its validator and `cover` |
| `Planning.dfy` | uncovered intervals, subtraction of points, gap totals |
| `Decimal.dfy`, `Retry.dfy` | canonical decimal text and its order; the successor-column search over absence markers |
| `Winners.dfy`, `Difficulty.dfy`, `Participation.dfy`, `Authorship.dfy` | the record tables and the simple definitions they must agree with |
| `Store.dfy` | the whole store as a value, every write operation as one transaction on it, and runs |
| `Protocol.dfy`, `Soundness.dfy`, `Idempotence.dfy`, `RecordRuns.dfy` | what every transaction keeps and what therefore holds over whole runs |
| `Effects.dfy`, `Origins.dfy` | what every call answers and stores, and where the values of a reachable store come from |
| `RecordExamples.dfy` | runs from the fresh store on which a natural property of the records fails |
| `Enumeration.dfy` | paged enumeration of a pinned map, and completeness of finished scans |
| `DurableStore.dfy` | the store as an object with mutable tables, each method proved to be its transaction |
| `Backfill.dfy` | facts a chunk of backfill relies on, stable under whatever other tasks commit |
| `Convergence.dfy` | the world around the driver: what it takes of others, of processing and of the node, and the measure by which backfill ends |
| `Driver.dfy` | `sparse_chunk` as code over the store object under arbitrary interference, and its rounds |
| `Transactions.dfy`, `AtomicStore.dfy` | the writer's transactions as interleaved steps, and why a store operation is one step |
| `Admission.dfy`, `Caches.dfy`, `SingleFlight.dfy`, `CacheAnswers.dfy` | permits, caches, single flight and what the caches serve, as interleaved steps |
| `Prelude.dfy`, `Ordering.dfy` | shared types; finite sets and ascending lists |
| `Logs.dfy` | the supervisor's line splitter |

Heights, generations and counters keep their `u64` bound: `u64` is a subset type, and the
saturating and checked operations of the program appear where the program uses them. Hashes and
storage keys are numbers, floating-point columns are reals, tables are maps.

Concurrency is modelled by steps. A store operation is one transaction (that the writer makes it
one is proved in `Transactions.dfy` and `AtomicStore.dfy`), a run is any sequence of them, and
statements about runs hold for every sequence from the fresh store. In `Driver.dfy` the driver is
real code over the store object, and before each of its reads and writes the `World` lets other
tasks commit any sequence of transactions at all; processing a height is likewise any sequence of
transactions. Safety of the driver needs no assumption about the `World`. Three hypotheses appear
by name where a result needs them: `Handles` (processing leaves a height complete or marked),
`Calm` (others and processing may commit, mark, prune and complete ranges, but begin no scan, append
no page and reindex nothing, and nothing fails) and `TruthfulWorld` (the node answers with the next
keys of the pinned snapshot, and others do not append false pages). `ConvergenceApplies` shows that
everything convergence needs can be met together, for every domain.

Where a natural property is false of the code, the model keeps the code, shows an input on which
it fails and states exactly when it holds:

- The miner summary goes stale when a stored block hash is written again with another miner
  (`StaleSummaryExample`); from agreeing tables a write keeps agreement if and only if the hash
  keeps its miner (`WriteAgreesIffMinerKept`).
- The authorship cutover compares only authored blocks, so a validator can lose counted wins
  (`CutoverLosesPowExample`); wins survive if and only if no validator with facts has a larger
  legacy count (`CutoverKeepsPublicPowIff`).
- A repeated commit never changes a table, but it reports `Applied` again if and only if its
  participation entries contradict each other on one key (`CommitRepeated`,
  `ContradictoryBatchExample`).
- A reindex of authorship can lower a public count to nothing (`ReindexDropsCountsExample`, from
  the fresh store); each column is kept if and only if facts were not ahead of the floor or the
  cutover had happened (`ReindexKeepsPublicIff`).
- The first finalized target is stored without the `u64` check that later calls apply to it
  (`OversizedTargetExample`); a stored target moves if and only if both heights fit `u64` and the
  new one is greater (`TargetMovesIff`), so an oversized one stays in every later state
  (`OversizedTargetSticks`).
- A failed load can leave its empty cell behind: always in the block cache
  (`FailedBlockLoadExample`), and in the response cache when the future is dropped while it waits
  for the lock before its cleanup (`CancelledFailureExample`). The entry survives if and only if
  the cache keeps failures or the step is a cancellation (`FailedEntrySurvivesIff`); without
  cancellations every entry of the response cache is filled or in flight
  (`EntriesFilledOrInFlight`).
- Loads are single-flight per cell, not per key: after a reported failure has dropped the entry,
  a task that still waits on the dropped cell and one that looks the key up anew both load it
  (`TwoLoadsOfOneKeyExample`). At most one of them holds the entered cell (`OneOwnerPerKey`), and
  where no reported failure drops an entry, always so in the block cache, a key is loaded once at a
  time (`KeySingleFlightOverRuns`).

## Model

| member | source | states |
|---|---|---|
| `CoverageAlgebra.Validate` | crates/dashboard-store/src/coverage.rs:88-115 | the reload check accepts exactly the well-formed coverages of the expected generation |
| `CoverageAlgebra.ContainsIsPointwise` | crates/dashboard-store/src/coverage.rs:30-35 | `contains(a, b)` holds if and only if every height of [a, b] is in the set |
| `CoverageAlgebra.CoverIsUnion` | crates/dashboard-store/src/coverage.rs:36-73 | `cover` accepts exactly proper intervals at or above the start, keeps the validator's form, denotes the union with [a, b], and reports a change exactly when a height was added; no bound wraps |
| `CoverageAlgebra.CoverageIsCanonical` | crates/dashboard-store/src/coverage.rs:36-73 | well-formed coverages that denote the same set are the same value |
| `CoverageAlgebra.CoverCommutes` | crates/dashboard-store/src/coverage.rs:36-73 | covering two intervals gives the same record in either order |
| `CoverageAlgebra.Rebuild` | crates/dashboard-store/src/coverage.rs:50-61 | the gap loop keeps, trims or splits every gap as specified |
| `CoverageAlgebra.Ledger.Cover` | crates/dashboard-store/src/coverage.rs:36-73 | the in-place method computes the specified coverage and result and keeps the record valid |
| `Planning.Uncovered` | crates/quip-dashboard/src/indexer/coverage.rs:10-40 | the plan is sorted, non-empty, non-touching intervals holding exactly the uncovered heights from the start, above the pruning floor, to the head |
| `Planning.PlanIsUnique` | crates/quip-dashboard/src/indexer/coverage.rs:10-40 | there is only one such list |
| `Planning.CoveringThePlanClosesIt` | crates/quip-dashboard/src/indexer/coverage.rs:10-40 | covering every planned interval succeeds and leaves the empty plan |
| `Planning.SubtractPoints` | crates/quip-dashboard/src/indexer/coverage.rs:44-70 | the result is the maximal sorted pieces of the range, without exactly the given points |
| `Planning.GapBlocks` | crates/quip-dashboard/src/lifecycle.rs:388-396 | the total is the sum of the gap lengths, with an error exactly for a reversed gap or a sum beyond `u64`; on every stored coverage it is the number of uncovered heights between the bounds |
| `Decimal.Parse` | crates/dashboard-model/src/decimal.rs:101-126 | parsing accepts exactly the canonical decimals and reports the first defect otherwise |
| `Decimal.ToU64` | crates/dashboard-model/src/decimal.rs:82-90 | conversion succeeds exactly for values that fit and returns the value |
| `Decimal.DecimalOrderIsNumeric` | crates/dashboard-model/src/decimal.rs:20-26 | length-then-text order, in Rust and in SQL, is numeric order on all canonical strings |
| `Decimal.PrintedOrderIsNumeric` | crates/dashboard-store/src/backend.rs:314-321 | the same for printed heights, which is what the SQL conditions compare |
| `Decimal.ToTextRoundTrip` | crates/dashboard-model/src/decimal.rs:155-160 | a printed number is canonical and reads back as itself |
| `Decimal.ValueRoundTrip` | crates/dashboard-model/src/decimal.rs:101-126 | a canonical text is the printed form of its value |
| `Decimal.MulAdd` | crates/quip-dashboard/src/chain/decode.rs:430-440 | one byte step multiplies the digit vector by 256 and adds the byte, with every digit in range |
| `Decimal.BytesToDecimal` | crates/quip-dashboard/src/chain/decode.rs:427-442 | any little-endian byte string becomes the canonical decimal of its value |
| `Decimal.BytesParse` | crates/quip-dashboard/src/chain/decode.rs:406-442 | that text is always accepted by the decimal parser |
| `Retry.MarkingKeepsRows` | crates/dashboard-store/src/coverage.rs:913-921 | marking a height keeps the text rows the image of the marked set, with exact successors |
| `Retry.NextStart` | crates/dashboard-store/src/coverage.rs:966-981 | the stored-successor query finds the first unmarked height after a marked one, or that there is none |
| `Retry.EndOf` | crates/dashboard-store/src/coverage.rs:985-995 | the interval ends at the bound or right before the next marked height, with no mark inside |
| `Retry.RetryableRange` | crates/dashboard-store/src/coverage.rs:955-996 | the result is the first maximal unmarked interval; nothing exactly when all is marked; an error exactly for a reversed range |
| `WinnerTables.RefreshSummary` | crates/dashboard-store/src/blocks.rs:14-19 | the refreshed row is the miner's count, least energy, mean time, latest time and numerically latest win, ties by hash |
| `WinnerTables.AggregateUnique` | crates/dashboard-store/src/blocks.rs:14-19 | those five facts determine the row |
| `WinnerTables.WriteWinner` | crates/dashboard-store/src/blocks.rs:21-53 | the writer stores the merged row, refreshes one summary and says whether a row changed |
| `WinnerTables.WriteStores` | crates/dashboard-store/src/blocks.rs:30-53 | a write loses no row and touches no other; a first record is stored as it is; a later one replaces every column but topology and device time, which it may fill or replace and never erases; the flag says whether a row changed |
| `WinnerTables.RowsOverRuns` | crates/dashboard-store/src/blocks.rs:30-53 | over every run a hash has a row exactly when a record was written since the last reindex, and the row is the last such record with the last topology and device time any of them brought |
| `WinnerTables.WriteAgreesIffMinerKept` | crates/dashboard-store/src/blocks.rs:21-53 | from agreeing tables, one write agrees again exactly when the hash keeps its miner |
| `WinnerTables.SummaryAgreesOverRuns` | crates/dashboard-store/src/coverage.rs:691-695 | over any run of writes and reindexes with stable miners, every summary row is its miner's aggregate and nobody else has one |
| `DifficultyTables.OverlayOverRuns` | crates/dashboard-store/src/blocks.rs:64-139 | over every run the visible row of a height is the block row of this generation, else the first recorded poll row |
| `DifficultyTables.BlockRowOnlyGainsTopology` | crates/dashboard-store/src/blocks.rs:68-96 | until a reindex a block row changes only from no topology to a topology |
| `DifficultyTables.WriteBlockRefuses` | crates/dashboard-store/src/blocks.rs:68-96 | a block row is refused exactly when it contradicts the stored one in more than a missing topology; otherwise the flag says whether the tables changed |
| `DifficultyTables.WriteBlockStores` | crates/dashboard-store/src/blocks.rs:68-113 | an accepted block row is visible with a topology the stored one had, changes no other height, and preserves a poll row it hides |
| `DifficultyTables.HiddenPollReturns` | crates/dashboard-store/src/blocks.rs:92-104 | from any tables, also those older than the poll table, a poll row hidden by a block row is visible again after a reindex |
| `DifficultyTables.ReindexRestoresPolls` | crates/dashboard-store/src/coverage.rs:699-701 | a reindex after any run restores precisely the preserved poll rows |
| `ParticipationTables.RepeatedBatch` | crates/dashboard-store/src/blocks.rs:144-163 | repeating a batch never changes the table and reports a change exactly when two entries contradict on a key |
| `ParticipationTables.BatchDeclares` | crates/dashboard-store/src/blocks.rs:144-163 | a batch leaves for each key what was declared last, column by column, and other keys alone |
| `ParticipationTables.BudgetsAreWhole` | crates/dashboard-store/src/blocks.rs:148-154 | the accepted budgets are exactly the whole numbers of a signed 32-bit column |
| `AuthorshipTables.ValidatorAuthorship` | crates/dashboard-store/src/miners.rs:309-354 | the merge loop yields every validator's public count: the floor raised by facts until cutover |
| `AuthorshipTables.AttemptCutover` | crates/dashboard-store/src/miners.rs:397-434 | the row loop performs the cutover exactly when every legacy count is represented by facts |
| `AuthorshipTables.WriteLearns` | crates/dashboard-store/src/miners.rs:13-28 | a fact is refused exactly on another author or time for its height; otherwise it is stored once, learns that its block had a winner and never forgets it |
| `AuthorshipTables.CutoverKeepsValid` | crates/dashboard-store/src/miners.rs:397-434 | the cutover leaves one author per height and makes the summary of every validator with facts its fact aggregate, in every column |
| `AuthorshipTables.CutoverKeepsPublicBlocks` | crates/dashboard-store/src/miners.rs:397-434 | the cutover changes no public count of authored blocks |
| `AuthorshipTables.CutoverKeepsPublicPowIff` | crates/dashboard-store/src/miners.rs:412-431 | public win counts survive exactly when no validator with facts has a larger legacy count |
| `AuthorshipTables.AuthorshipNeverLosesBlocks` | crates/dashboard-store/src/coverage.rs:412-419 | over any run of commits and cutover attempts no public count falls, and after cutover the summary is the fact aggregate in both columns |
| `AuthorshipTables.FactCountsSumToHeights` | crates/dashboard-store/src/miners.rs:13-28 | all fact counts sum to the number of authored heights |
| `AuthorshipTables.ReindexKeepsPublicIff` | crates/dashboard-store/src/coverage.rs:702-707 | exactly when a reindex keeps the public counts, for each column |
| `Protocol.CompleteAllSpec` | crates/dashboard-store/src/coverage.rs:400-411 | completing domains adds exactly the height to exactly those domains and keeps starts, floors and validity |
| `Protocol.StepKeepsInv` | crates/dashboard-store/src/coverage.rs:322-932 | every transaction keeps coverage valid for its generation, scans and markers current, and winner rows in agreement with finalized hashes |
| `Protocol.AfterFollows` | crates/dashboard-store/src/coverage.rs:322-932 | every later state keeps identity, target and generations monotone, and within a generation coverage and markers grow and finished scans are frozen |
| `Soundness.CoverageOrigin` | crates/dashboard-store/src/coverage.rs:322-724 | for every transaction, where a covered height comes from |
| `Soundness.CoverageSoundness` | crates/dashboard-store/src/coverage.rs:573-636 | in every reachable state a covered height was completed by a commit of the current generation, or a finished scan of that domain and generation pinned at or above it holds no winner there |
| `Soundness.AuthorshipCoverageIsCommits` | crates/dashboard-store/src/coverage.rs:604-608 | authorship coverage is exactly what commits of the generation completed |
| `Soundness.FencedForever` | crates/dashboard-store/src/coverage.rs:351-355 | a commit, range, scan, floor, initialization or absence call with an outdated generation changes nothing in any later state |
| `Soundness.GenerationMovesByOne` | crates/dashboard-store/src/coverage.rs:672-678 | a generation moves only by a successful reindex of its domain, by one |
| `Soundness.ReindexedScanRefusesPages` | crates/dashboard-store/src/coverage.rs:486-495 | in every later state of every run that does not begin its identifier again, a page for a reindexed scan is refused and changes nothing |
| `Soundness.IdentityForever` | crates/dashboard-store/src/coverage.rs:356-361 | a finalized hash never changes, even across reindex; every winner row agrees with it; the target never moves down or changes hash |
| `Soundness.TargetMovesIff` | crates/dashboard-store/src/coverage.rs:837-870 | a stored target moves exactly when both heights fit `u64` and the new one is greater |
| `Effects.TargetAnswers` | crates/dashboard-store/src/coverage.rs:837-870 | every answer with its exact condition; `Applied` means that exactly this pair is the target now |
| `Origins.TargetOrigin` | crates/dashboard-store/src/coverage.rs:837-870 | the target of every reachable state is a pair that one call of the run carried |
| `Origins.TargetIsGreatest` | crates/dashboard-store/src/coverage.rs:837-870 | as long as heights fit `u64`, no target given to a bound store exceeds the stored one |
| `Soundness.OversizedTargetExample` | crates/dashboard-store/src/coverage.rs:837-870 | a first target beyond `u64` is applied |
| `Soundness.OversizedTargetSticks` | crates/dashboard-store/src/coverage.rs:837-870 | once the target exceeds `u64` it is the target of every later state |
| `Idempotence.CommitRepeated` | crates/dashboard-store/src/coverage.rs:387-426 | from every state the protocol reaches, repeating a successful commit changes nothing and reports `AlreadyApplied` exactly when its participation entries do not contradict each other |
| `Idempotence.DistinctKeysRepeat` | crates/dashboard-store/src/coverage.rs:387-426 | with distinct keys the repeat is `AlreadyApplied`, before and after cutover |
| `Idempotence.ContradictoryBatchExample` | crates/dashboard-store/src/coverage.rs:397-399 | a batch that reports `Applied` on every repeat |
| `Effects.CommitAcceptedIff` | crates/dashboard-store/src/coverage.rs:322-411 | a commit succeeds exactly when every touched domain has one current guard, network and hash agree, its records belong to the block and contradict nothing stored, and no completed domain starts above it |
| `Effects.CommitRefusals` | crates/dashboard-store/src/coverage.rs:322-386 | every other commit changes nothing, and each answer has its exact condition |
| `Effects.ChangedIsGuarded` | crates/dashboard-store/src/coverage.rs:324-355 | whatever domain a commit changes, the batch carries its current generation |
| `Effects.CommitReports` | crates/dashboard-store/src/coverage.rs:387-426 | a successful commit fixes the hash of its height; it reports `AlreadyApplied` only when records and coverage stay as they are, and always then unless its participation entries contradict each other |
| `RecordRuns.StepEvents` | crates/dashboard-store/src/coverage.rs:387-426 | every transaction is at most one event of each record table |
| `RecordRuns.DifficultyOverlayOverStoreRuns` | crates/dashboard-store/src/blocks.rs:331-357 | the overlay holds over every run of the whole store |
| `RecordRuns.SummaryAgreesOverStoreRuns` | crates/dashboard-store/src/blocks.rs:14-53 | the summary agreement holds over every run of the whole store |
| `RecordRuns.WinnerRowsOverStoreRuns` | crates/dashboard-store/src/blocks.rs:30-53 | the winner rows of every reachable store, column by column, from the commits of the run |
| `RecordRuns.ParticipationOverStoreRuns` | crates/dashboard-store/src/blocks.rs:144-163 | in every reachable store a participation row exists exactly when a commit declared it since the last reindex, and says what was declared last |
| `RecordRuns.FactsOverStoreRuns` | crates/dashboard-store/src/miners.rs:13-28 | in every reachable store the authorship facts are exactly what commits taught since the last reindex |
| `RecordRuns.AuthoredBlocksNeverFall` | crates/dashboard-store/src/miners.rs:309-354 | from every reachable state, no public count falls over a run without an authorship reindex |
| `RecordRuns.CutoverCountsAreFacts` | crates/dashboard-store/src/miners.rs:39-48 | in every reachable state public block and win counts after cutover are the fact counts, which sum to the authored heights |
| `RecordExamples.ReindexDropsCountsExample` | crates/dashboard-store/src/coverage.rs:702-707 | one authored block from the fresh store, then a successful reindex that takes the public counts from 1 to 0 |
| `RecordExamples.CutoverLosesPowExample` | crates/dashboard-store/src/miners.rs:412-431 | a run from the fresh store (a block with a win, cutover, reindex, a block without) after which a successful cutover takes a counted win away |
| `RecordExamples.StaleSummaryExample` | crates/dashboard-store/src/blocks.rs:21-53 | two commits from the fresh store that leave a summary row of a miner without blocks |
| `Enumeration.KeyPage` | crates/quip-dashboard/src/chain/snapshots.rs:241-300 | a response is accepted exactly when it is bounded, all keys, ascending and beyond the cursor |
| `Enumeration.ReadPage` | crates/quip-dashboard/src/chain/snapshots.rs:165-240 | a page is built exactly from an acceptable response; short pages end the enumeration, full ones continue from their last key |
| `Enumeration.PagesServed` | crates/quip-dashboard/src/chain/snapshots.rs:225-230 | a map of n keys takes n / limit + 1 pages, also when n is a multiple of the limit |
| `Enumeration.StepKeepsEnumerated` | crates/dashboard-store/src/coverage.rs:470-540 | every transaction keeps each scan's winners equal to the heights of the keys its cursor has passed |
| `Enumeration.FinishedScanIsComplete` | crates/dashboard-store/src/coverage.rs:470-540 | over every run whose pages come from the pinned snapshots, with restarts, retries and competing appenders, a finished scan holds exactly the heights of its snapshot's map |
| `Enumeration.NoWinnerIsSkipped` | crates/dashboard-store/src/coverage.rs:573-636 | with pages from the pinned snapshots, every covered real winner of a sparse domain was committed in the current generation |
| `DurableStore.CompleteDomains` | crates/dashboard-store/src/coverage.rs:400-411 | the loop over completed domains computes the specified coverage map, change flag and first error |
| `DurableStore.WriteParticipants` | crates/dashboard-store/src/coverage.rs:397-399 | the loop over participation records computes the specified table, change flag and first error |
| `DurableStore.HasDuplicateGuards` | crates/dashboard-store/src/coverage.rs:324-329 | the guard loop finds exactly the batches that name a domain twice |
| `DurableStore.ReindexExtends` | crates/dashboard-store/src/coverage.rs:668-718 | reindexing one more domain continues a reindex and depends only on that domain |
| `DurableStore.ReindexDomains` | crates/dashboard-store/src/coverage.rs:662-724 | the loop over sorted, deduplicated domains is the specified all-or-nothing reindex; its guards come in domain order, each once |
| `DurableStore.TakeFirst` | crates/dashboard-store/src/coverage.rs:791-812 | the rows are the first ones above the bound, in order, up to the limit |
| `DurableStore.Store.CommitBlock` | crates/dashboard-store/src/coverage.rs:322-427 | the method is the transaction of that name, on every input and state |
| `DurableStore.Store.BeginScan` | crates/dashboard-store/src/coverage.rs:432-463 | likewise; a scan row's identity is immutable |
| `Effects.BeginAnswers` | crates/dashboard-store/src/coverage.rs:432-463 | every answer with its exact condition, and the row stored, column by column |
| `DurableStore.Store.AppendPage` | crates/dashboard-store/src/coverage.rs:470-540 | likewise, with the loop over heights and all-or-nothing failure |
| `Effects.AppendAnswers` | crates/dashboard-store/src/coverage.rs:470-540 | exactly the next bounded page of an unfinished scan is stored, with its cursor and heights; every refusal has its exact condition |
| `DurableStore.Store.AnyWinnerMissing` | crates/dashboard-store/src/coverage.rs:609-625 | the 512-row paged pass finds exactly whether a discovered winner of the range is incomplete |
| `DurableStore.Store.CommitRange` | crates/dashboard-store/src/coverage.rs:573-636 | the method is the transaction of that name; a stored winner height beyond `u64` is an incomplete scan |
| `Effects.RangeAnswers` | crates/dashboard-store/src/coverage.rs:573-636 | a current range is completed exactly when a finished scan of the domain generation reaches its end and every discovered winner in it is complete; `Applied` exactly when a height was added |
| `DurableStore.Store.InsertSnapshot` | crates/dashboard-store/src/blocks.rs:331-357 | a poll snapshot is recorded against the latest stored poll, which the method finds itself |
| `Effects.SnapshotAnswers` | crates/dashboard-store/src/blocks.rs:331-357 | a polled value is recorded exactly when it differs from the latest one in a value column |
| `DurableStore.Store.Reindex` | crates/dashboard-store/src/coverage.rs:662-724 | the method is the transaction of that name, with its guards in domain order |
| `Effects.ReindexAnswers` | crates/dashboard-store/src/coverage.rs:662-724 | what a reindex leaves of its domains (no coverage but a kept authorship start in the next generation, no records but poll rows and the authorship floor, no scans, winners or markers), that all else is untouched, when it fails, and that its guards are the current generations |
| `Effects.FloorAnswers` | crates/dashboard-store/src/coverage.rs:641-657 | the floor stored is the floor given, and nothing else changes |
| `Effects.InitializeAnswers` | crates/dashboard-store/src/coverage.rs:732-757 | coverage is created once, empty, with the start given |
| `Effects.MarkAnswers` | crates/dashboard-store/src/coverage.rs:878-932 | exactly an incomplete height of the domain its reason belongs to is marked, once, with its evidence and exact successor |
| `Effects.CutoverAnswers` | crates/dashboard-store/src/miners.rs:397-434 | the cutover answers true exactly when it was done or every legacy count is reached by facts, and changes nothing otherwise |
| `Origins.MarkerOrigin` | crates/dashboard-store/src/coverage.rs:878-932 | every marker of a reachable state was set by a call for its domain, generation and height, with its evidence and a reason of its domain |
| `Origins.ParametersOrigin` | crates/dashboard-store/src/coverage.rs:641-757 | in every reachable state a domain starts at zero or where a call started it, and its floor is one a call for this domain gave |
| `DurableStore.Store.ActiveScan` | crates/dashboard-store/src/coverage.rs:762-786 | the scan returned is the one of the domain generation with the greatest pinned height and, among those, the greatest identifier; none exactly when there is none |
| `DurableStore.StoredRowsAreRows` | crates/dashboard-store/src/coverage.rs:913-921 | in every protocol state the stored `height` and `next_height` columns are exactly the rows the search relies on |
| `DurableStore.Store.NextRetryStart` | crates/dashboard-store/src/coverage.rs:966-981 | the successor query over the stored columns: after a marked height, everything before the start found is marked, and none is found exactly when all is marked |
| `Backfill.RangeAccepted` | crates/quip-dashboard/src/indexer/backfill.rs:256-269 | a range whose discovered winners are complete passes every check of `commit_range` |
| `Convergence.ScanNameInjective` | crates/quip-dashboard/src/indexer/backfill.rs:149-151 | a scan identifier determines domain, generation and snapshot |
| `Convergence.NewScanTruthful` | crates/quip-dashboard/src/indexer/backfill.rs:148-156 | the scan begun at a target is pinned to the hash its identifier spells |
| `Convergence.ResumedScanTruthful` | crates/quip-dashboard/src/indexer/backfill.rs:142-146 | a scan resumed from a truthful run is pinned as it was begun |
| `Convergence.AppendedPageHonest` | crates/quip-dashboard/src/indexer/backfill.rs:227-246 | an honest answer of the node makes the page that `enumerate_page` appends honest |
| `Convergence.HandlingExists` | crates/quip-dashboard/src/indexer/backfill.rs:87-114 | for every domain there is a calm world whose processing leaves every height it is given complete or marked |
| `Convergence.ConvergenceApplies` | crates/quip-dashboard/src/indexer/backfill.rs:80-83 | everything the convergence of the rounds needs can be met together, from the first bound state on |
| `Convergence.StepKeepsFloor` | crates/dashboard-store/src/coverage.rs:322-932 | no transaction but a floor call or a reindex changes which heights a plan ranges over |
| `Convergence.PageAdvances` | crates/quip-dashboard/src/indexer/backfill.rs:227-246 | the page of a serving node is accepted and leaves strictly fewer keys to pass |
| `Convergence.BeginServable` | crates/quip-dashboard/src/indexer/backfill.rs:142-162 | beginning the chosen scan succeeds, makes it the active one and does not raise the measure |
| `Convergence.AdvanceLowersStage` | crates/quip-dashboard/src/indexer/backfill.rs:221-255 | getting the active scan further strictly lowers the measure and keeps the state servable |
| `Backfill.PendingDrops` | crates/quip-dashboard/src/indexer/backfill.rs:115-220 | handling one pending height while the generation lasts leaves strictly fewer pending |
| `Backfill.ChunkProgress` | crates/quip-dashboard/src/indexer/backfill.rs:115-220 | whatever others commit meanwhile, a chunk that handles the height it picked leaves strictly fewer pending |
| `BackfillDriver.Driver.FinishRange` | crates/quip-dashboard/src/indexer/backfill.rs:256-269 | under any interference the call is never refused, and the range is settled afterwards |
| `BackfillDriver.Driver.EnumeratePage` | crates/quip-dashboard/src/indexer/backfill.rs:221-255 | it reports finished only for a frozen scan; the inconsistent-page error is unreachable; the scan disappears only by a reindex; the page appended keeps the trace truthful; in a calm world a served scan gets strictly further |
| `BackfillDriver.Driver.RetryableRange` | crates/dashboard-store/src/coverage.rs:955-996 | with other transactions between its three queries: an interval found starts at a height unmarked before, and nothing is found only when all of the range is marked; undisturbed, it is the first maximal unmarked interval |
| `BackfillDriver.Driver.PickRange` | crates/quip-dashboard/src/indexer/backfill.rs:121-141 | the range picked starts at a pending height; nothing is picked only when everything asked for by the coverage as it was read is handled, and while no floor moves by the coverage as it is stored now |
| `BackfillDriver.Driver.Initialize` | crates/quip-dashboard/src/indexer/backfill.rs:121-126 | the domain has coverage afterwards; undisturbed, coverage it creates starts at zero; it fails only on an unbound store or after a reindex |
| `BackfillDriver.Driver.Begin` | crates/quip-dashboard/src/indexer/backfill.rs:142-162 | the scan begun or resumed reaches the range, is pinned to the hash its identifier spells, and is refused as stale only after a reindex |
| `BackfillDriver.Driver.Replay` | crates/quip-dashboard/src/indexer/backfill.rs:168-219 | the loop over discovered winners never has a range refused; it settles every height up to the ceiling below which at most fifteen discovered winners lie, except winners that processing did not handle |
| `BackfillDriver.Driver.SparseChunk` | crates/quip-dashboard/src/indexer/backfill.rs:115-220 | for every schedule: no range refused, overtaken only by reindexes, idle only when everything the store asked for at a moment of this chunk is handled; a page, a store error, a chain error and a processing error are reported only for what the last transaction, the node or processing did; if processing handles its heights a chunk that works leaves strictly fewer pending; in a calm world it does not fail and every page lowers the measure; every outcome is recorded |
| `BackfillDriver.Driver.Rounds` | crates/quip-dashboard/src/indexer/backfill.rs:80-83 | for every schedule, within a generation and through any number of pages, at most as many recorded chunks work as heights were pending; in a calm world every number of rounds above pending heights plus measure ends idle, and then everything the store asked for is complete or marked, by the stored coverage itself while no floor moves |
| `BackfillDriver.Driver.FinishedIsComplete` | crates/quip-dashboard/src/indexer/backfill.rs:221-255 | in every store state the driver reaches beside an honest node, a finished scan holds exactly the heights of its snapshot's map |
| `BackfillDriver.Driver.SkipsNoWinner` | crates/quip-dashboard/src/indexer/backfill.rs:115-220 | in every store state the driver reaches beside an honest node, every covered real winner of a sparse domain was committed in the current generation |
| `Transactions.AtomicOverRuns` | crates/dashboard-store/src/store.rs:17-56 | over every run with failures and cancellation at any await: an open transaction implies the flag, BEGIN never nests, embedded ROLLBACK never strays, and the committed state is the result of whole transactions |
| `Transactions.AcknowledgedIsDurable` | crates/dashboard-store/src/store.rs:43-48 | an acknowledged commit has the effect of its whole program and stays in every later history |
| `Transactions.AbandonedLeavesNothing` | crates/dashboard-store/src/store.rs:50-56 | abandoning a transaction anywhere leaves no trace after the next recovery |
| `Transactions.StepHistory` | crates/dashboard-store/src/store.rs:30-49 | only the COMMIT of a completed program adds to the history |
| `Transactions.WriteSucceeds` | crates/dashboard-store/src/store.rs:17-56 | from every reachable free state, whatever an interrupted write left behind: when every await completes, the whole program takes effect, is acknowledged, and leaves nothing to roll back |
| `AtomicStore.CommittedIsRun` | crates/dashboard-store/src/store.rs:17-56 | with failures and cancellation at any await, the committed database is at all times the state after a run of store operations, those of the committed transactions in order |
| `Transactions.Writer.Recover` | crates/dashboard-store/src/store.rs:18-24 | recovery, with the embedded autocommit test, is the specified step |
| `Transactions.Writer.Begin` | crates/dashboard-store/src/store.rs:31-39 | arming before BEGIN is the specified step |
| `Transactions.Writer.Commit` | crates/dashboard-store/src/store.rs:43-48 | clearing only after COMMIT is the specified step; the caller is told of success exactly when an acknowledged transaction was added, whose work is then the committed state |
| `Transactions.Writer.Drop` | crates/dashboard-store/src/store.rs:50-56 | dropping an unfinished write re-arms the flag |
| `Admission.CountsOverRuns` | crates/quip-dashboard/src/indexer/admission.rs:68-115 | over every interleaving each counter equals the owners of its slots, stays within its limit and never wraps |
| `Admission.CreateAnswers` | crates/quip-dashboard/src/indexer/admission.rs:52-64 | an admission exists exactly for a positive total that covers the reserve, and begins empty |
| `Admission.ReserveServesLive` | crates/quip-dashboard/src/indexer/admission.rs:68-74 | live work is admitted whenever fewer than the reserved live permits are held |
| `Admission.BackfillPermitsBounded` | crates/quip-dashboard/src/indexer/admission.rs:78-88 | backfill permits never exceed the total less the reserve, nor all permits the total |
| `Admission.Counters.TryBackfill` | crates/quip-dashboard/src/indexer/admission.rs:78-88 | with any steps of others in between, a permit is granted exactly when a backfill slot is free at the first step and a global one at the second; otherwise the task ends with nothing |
| `Admission.Counters.TryLive` | crates/quip-dashboard/src/indexer/admission.rs:68-74 | admitted exactly when a slot is free, and always within the reserve |
| `Admission.Counters.Drop` | crates/quip-dashboard/src/indexer/admission.rs:108-115 | with any steps of others between the decrements, both slots return and no counter wraps |
| `Caches.CacheOverRuns` | crates/quip-dashboard/src/chain/transport.rs:260-356 | over every interleaving entries stay within the limit, the room left never underflows, each counter is the sum of live charges within its limit, and a charge lives exactly as long as its value |
| `CacheAnswers.KeptValueIsServed` | crates/quip-dashboard/src/chain/transport.rs:260-356 | over every run, a value loaded and kept is what every later lookup of its key gets until a step takes its entry away |
| `CacheAnswers.EntryStays` | crates/quip-dashboard/src/chain/transport.rs:328-354 | an entry leaves the map only to make room while nobody holds it, by a return that is not kept or is oversized, or by the report of its failed load |
| `CacheAnswers.ReturnedValueIsServed` | crates/quip-dashboard/src/chain/transport.rs:328-347 | after a kept value is returned, the next lookup of its key shares that value |
| `CacheAnswers.UnkeptValueIsForgotten` | crates/quip-dashboard/src/chain/mod.rs:393-406 | a value that is not kept, an absence among them, is forgotten: the next lookup of its key gets a new empty cell or none |
| `CacheAnswers.OversizedValueIsServed` | crates/quip-dashboard/src/chain/transport.rs:334-347 | an oversized value leaves the map and is handed to a later lookup of its key while somebody holds it |
| `CacheAnswers.WeakReferenceStays` | crates/quip-dashboard/src/chain/transport.rs:267-272 | its weak reference stays while the value is charged and no other return for the key replaces it |
| `CacheAnswers.LookAnswers` | crates/quip-dashboard/src/chain/transport.rs:267-278 | a lookup gets a live oversized value, else the cell of its key, else a new cell exactly when there is room or a free entry |
| `CacheAnswers.LoadAnswers` | crates/quip-dashboard/src/chain/transport.rs:282-333 | a finished request fills its cell with a charge of its size and kind exactly when the bytes fit, and fails otherwise |
| `Caches.InFlightIsKept` | crates/quip-dashboard/src/chain/mod.rs:583-597 | making room never removes the entry of a load in flight |
| `Caches.FailedEntrySurvivesIff` | crates/quip-dashboard/src/chain/transport.rs:348-354 | after a failed load ends, its entry survives exactly when it was still the entry of its key and the cache keeps failures or the future was dropped before the cleanup |
| `Caches.CancelledFailureExample` | crates/quip-dashboard/src/chain/transport.rs:348-354 | a failed response load cancelled at the lock before its cleanup keeps its empty entry |
| `SingleFlight.EntriesFilledOrInFlight` | crates/quip-dashboard/src/chain/transport.rs:348-354 | along every run of the response cache without cancellations, every entry is filled or a task holds its cell |
| `SingleFlight.SingleFlightOverRuns` | crates/quip-dashboard/src/chain/transport.rs:282-334 | over every interleaving no cell has two loads in progress and no filled cell is loaded again |
| `SingleFlight.KeySingleFlightOverRuns` | crates/quip-dashboard/src/chain/transport.rs:282-354 | over every run in which no reported failure drops an entry, a key is loaded by one task at a time |
| `SingleFlight.OneOwnerPerKey` | crates/quip-dashboard/src/chain/transport.rs:282-354 | over every interleaving, of several loads of one key at most one holds the cell entered under it |
| `SingleFlight.TwoLoadsOfOneKeyExample` | crates/quip-dashboard/src/chain/transport.rs:348-354 | eight steps of the response cache after which two tasks load one key |
| `Caches.FailedBlockLoadExample` | crates/quip-dashboard/src/chain/mod.rs:361-408 | the block cache keeps the empty cell of a failed load |
| `Caches.MakeRoom` | crates/quip-dashboard/src/chain/mod.rs:583-597 | room is made by removing the first free entry in key order, and refused exactly when full with every entry in use |
| `Caches.ChargeLoop` | crates/quip-dashboard/src/chain/transport.rs:314-326 | the loop removes, in key order, the first entries that nobody holds until the bytes fit, and is busy only when every remaining entry is in use |
| `Caches.FreeKeepsAccounts` | crates/quip-dashboard/src/chain/budget.rs:91-98 | returning a charge keeps each counter the sum of live charges |
| `Caches.FillKeepsAccounts` | crates/quip-dashboard/src/chain/budget.rs:63-79 | reserving within the limit keeps each counter the sum of live charges, within the limit |
| `Logs.Read` | crates/quip-dashboard/src/supervisor.rs:384-423 | for every stream and every division into reads, exactly its log lines come out and the counter rises by the pieces left out |
| `Logs.SplitInverts` | crates/quip-dashboard/src/supervisor.rs:397-403 | splitting loses nothing |
| `Logs.SplitUnique` | crates/quip-dashboard/src/supervisor.rs:397-403 | the pieces are the only newline-free list that spells the stream |

## Left out

- SQL engines, drivers, migrations, connection pools and text binding; tables are maps and each store method is one atomic transaction.
- `bind_network_with` verification of retained history, legacy unbound databases, `committed_target` and read-only stores: binding records a genesis once.
- `backfill_difficulty_topology`, `delete_difficulty_history_by_source`, `recompute_authorship_summary`, `set_block_topology` and `mark_block_finalized`: maintenance writers outside the protocol's runs.
- `updated_at`, `observed_at` formatting, `last_authored_block` and `last_authored_at`: carried data that no modelled branch depends on.
- Timestamp range errors of `iso` and `canonical_timestamp`: timestamps are numbers, so these error paths do not arise.
- NaN, infinities and rounding of `f64` columns: columns are reals, and no floating-point bound is claimed.
- Processing a height (`Indexer::process`, decoding, file writing): any sequence of transactions; convergence assumes of it only that the height it is given ends complete or marked.
- Wall-clock pacing, the sync gate and the permit a chunk takes before processing: they only delay or fail a chunk.
- SCALE, metadata, SS58 and hash decoding: a key decodes to a height or fails.
- Semaphores that bound concurrent requests, response metrics and subscriptions of the transport; the metadata budget and the peak of the budget, which follow the same reserve and return steps.
- Datagram and stderr forwarding of a log line, with its drop counters.
- HTTP routes, GeoIP, the miner client, process supervision, configuration and the frontend.
- BackfillDriver.Driver.SparseChunk: the sparse-work and pause checks of the surrounding loop are not modelled; a chunk may start at any time.
- Caches.CacheOverRuns: the two maps behind their mutex are values that each critical section replaces, not fields of an object; the entry removed to make room is any free one, of which the program takes the first in key order.
- Transactions.AtomicOverRuns: a cancelled statement has either happened or not when the connection is used next; `close` is a recovery followed by a restart.

Nothing here executes the dashboard; the results are about the model.
