# LedgerLoop reconciliation: a verified model

LedgerLoop stores payment transactions from a gateway and entries from a ledger, pairs them,
and reports what does not pair. This project models that engine in Dafny and proves what its
documentation promises of it: every raw row gets one correct result, whatever crashes, is
redelivered or goes stale, and the counts equal an independent ground truth.

## What is modelled

| file | part of the system |
|---|---|
| `Matching.dfy` | the pure matcher: layers 1-3, choice of the best counterparty, the lookup prefilter |
| `Tables.dfy`, `TablesProofs.dfy` | tables, unique indexes as insert guards, foreign keys as abort conditions; every transaction keeps the invariants |
| `Protocol.dfy` | the whole system as a state machine of 22 steps: clients, relays, stream, workers, sweepers, retention, crashes, a lost consumer group |
| `Safety.dfy`, `Delivery.dfy`, `Progress.dfy`, `Breaks.dfy`, `Atomic.dfy`, `FirstReceipts.dfy`, `Submissions.dfy` | theorems over all runs |
| `History.dfy` | which step every result, exception, timestamp and last visit comes from |
| `Races.dfy`, `Stuck.dfy` | concrete runs in which a promise fails |
| `Workload.dfy`, `Accuracy.dfy`, `Schedule.dfy`, `BrowserRun.dfy` | the generators' own classifiers, keys and tallies, schedule independence, and the browser's injected-against-detected panel |
| `Stats.dfy`, `Conservation.dfy` | the stats counts and what they add up to |
| `Store.dfy`, `Processing.dfy`, `Worker.dfy`, `Sweeping.dfy`, `Retention.dfy` | the processes: database methods in place, relay pass, worker batch, sweeper and its drain loop, tenant deletion |
| `Batches.dfy`, `Ingest.dfy`, `Accepted.dfy` | ingestion, the ledger batch and its answers |
| `Keyset.dfy`, `RateLimit.dfy`, `Money.dfy`, `DerivedKeys.dfy`, `Upload.dfy`, `Decimals.dfy` | paging, the write limiter, money text, uploaded files, their keys and their form on the wire |
| `Basics.dfy` | option type and the facts about finite sets the counting theorems use |

A run (`Protocol.IsRun`) is any finite sequence of enabled steps from the empty system, with
any number of relays, workers and sweepers. Each step is one statement, transaction or Redis
command. Reading counterparties and committing a decision are two steps, which is what READ
COMMITTED allows, so a decision may be stale when it is written. Theorems about atomic
processing say so in their precondition (`Atomic.AtomicRun`).

Amounts are exact decimals (`real`), instants are integers, integers are unbounded. In
`Money.dfy` arithmetic is exact although JavaScript numbers are floats: below 2^53 every
intermediate value is exact, and a true value of 2^53 or more cannot round to a safe integer,
because rounding is monotone, so the safe-integer test decides alike. From scale 309 on
`10 ** scale` is infinite and nothing parses, and the model follows that.

## What the proofs found

- `worker/sweeper.py:16-17` promises that every break was checked against live data when it
  was declared. Under READ COMMITTED a counterparty can arrive between a sweeper's read and
  its commit: `Races.SplitStepsCanBreakAPair` is a run of eleven steps that ends with both
  halves of a matchable pair unmatched. What makes it so is exactly a give-up written on one
  half while the other is pending too: without one no such pair ends that way, in any run
  (`Breaks.BreaksOnlyByStaleGiveUp`), and for a pair with distinct txn_ids and both halves
  settled it is an if and only if (`Breaks.BrokenPairExactly`). Interleaving as such is
  harmless.
- The counterparty prefilter is lossless exactly when the exact window lies inside the drift
  window (`Matching.LookupLosslessExactly`); the settings do not enforce it
  (`config.py:90-91`).
- `accepted` in a ledger batch's answer is documented as the entries stored for the first time
  (`api/schemas.py:107`). It is that number exactly when the batch repeats no new key
  (`AcceptedCount.AcceptedExactly`).
- A ledger row first stored by a batch that repeats its key gets one message only, flagged
  duplicate, so layers 1-3 never run for it. A row has a first-receipt message if and only if
  the transaction that stored it submitted its key once (`FirstReceipts.FirstReceiptExactly`),
  and `Stuck.RepeatedKeyGetsStuck` is a run that ends with a matchable pending pair and no
  message left: the sweeper decides that pair.
- With txn_ids repeated and read and commit split, a pair can also be left with both first
  receipts processed. That is so if and only if the commit of one row's message was refused
  its chosen partner, which somebody else had paired or given up first, and the other row was
  refused too or had found nobody (`Progress.BothProcessedExactly`). Both cases occur:
  `Stuck.StaleChoicesGetStuck` is a run with two refusals, `Stuck.DeferredAndRefusedGetStuck`
  one with a single refusal. Atomic processing never refuses (`Atomic.AtomicNeverRefused`).
- A row of an uploaded file that survives validation is meant to be one the API accepts
  (`lib/csv.ts:278-283`). It is exactly when its txn_id has at most 128 characters and its
  instant lies in the years 1 to 9999, neither of which the reader checks
  (`Upload.SurvivorAcceptedExactly`, `Upload.LongIdSurvives`). Keys are cut to 255 characters on
  the way and references to 128 (`api/ingest.ts:84-89`), so the reference is not unique per row
  as `api/ingest.ts:81-83` says (`Upload.ReferencesCollide`), while derived keys survive the cut
  (`Upload.WireKeysFaithful`).
- Retention is meant never to sweep an active visitor (`services/tenancy.py:217-226`). Because
  `last_seen_at` is refreshed lazily the guarantee after a request is the retention period less
  the refresh interval (`Retention.VisitorKept`), and no more (`Retention.LateVisitSwept`).
- The comparison panel agrees on every line of a complete run if and only if its window takes in
  all of the tenant's results (`BrowserRun.InjectedIsDetected`).
- The retention clock starts at zero so that the first sweep after a restart runs retention
  (`worker/sweeper.py:71-72`); `Sweeping.Sweeper.MaybeSweepDemoAccounts` follows the code,
  which skips it while the monotonic clock is below the interval.

## Model

| member | source | states |
|---|---|---|
| `Matching.ClassifyPairSymmetric` | backend/ledgerloop/matching/core.py:141-183 | the verdict on a pair does not depend on which row is the candidate, so both sides' workers agree |
| `Matching.ViableAgrees` | backend/ledgerloop/matching/core.py:150-160 | a matchable pair shares tenant, txn_id and currency, has one row on each side, and gets one of three status/layer combinations |
| `Matching.BestPartnerUnique` | backend/ledgerloop/matching/core.py:186-247 | the choice of counterparty is a function of the set of rows: any two workers seeing the same rows in any order choose alike |
| `Matching.LaterLayersOnlyAsLastResort` | backend/ledgerloop/matching/core.py:162-183 | amount drift is declared only when no viable row has the same amount, a time-drift match only when no exact one exists |
| `Matching.Decide` | backend/ledgerloop/matching/core.py:186-247 | the loop returns, among the viable counterparties of the earliest layer, the one closest in time, then in amount, then of the lowest row id; none exactly when none is viable |
| `Matching.ChosenIsClosest` | backend/ledgerloop/matching/core.py:186-247 | no other counterparty with the same verdict is nearer in time; at equal time none is nearer in amount, at equal time and amount none has a lower id |
| `Matching.BestPartnerExists` | backend/ledgerloop/matching/core.py:204-247 | every set of counterparties has a best choice |
| `Matching.LookupLossless` | backend/ledgerloop/worker/persist.py:68-106 | deciding on the indexed lookup equals deciding on every pending row of every tenant, side and txn_id |
| `Matching.LookupLosslessExactly` | backend/ledgerloop/config.py:90-91 | the prefilter loses nothing for any candidate and pool if and only if the windows nest |
| `TablesProofs.WriteFindsRowFree` | backend/ledgerloop/db/models.py:440-470 | with tenants in agreement, indexes keyed by (tenant, row) are unique per row outright, so a successful insert finds its rows unreconciled |
| `TablesProofs.ApplyKeepsInv` | backend/ledgerloop/worker/persist.py:123-180 | committing any sound decision, however stale, keeps every table invariant |
| `TablesProofs.IngestKeepsInv` | backend/ledgerloop/services/ingest.py:66-108 | storing or counting a key keeps every table invariant |
| `TablesProofs.CloseKeepsInv` | backend/ledgerloop/services/queries.py:223-245 | closing an exception keeps every table invariant |
| `TablesProofs.CloseIsOwn` | backend/ledgerloop/services/queries.py:223-245 | a close changes one case at most, and that one only when it is the caller's and open; it then carries the given notes and clock |
| `TablesProofs.DeleteKeepsInv` | backend/ledgerloop/worker/sweeper.py:194-204 | deleting a tenant keeps every table invariant |
| `TablesProofs.DeleteLeavesOthers` | backend/ledgerloop/worker/sweeper.py:194-204 | what is left is exactly the other tenants' records, and the outbox |
| `Safety.StepEvolves` | backend/ledgerloop/worker/persist.py:153-199 | no step rewrites facts, keys, results or closed cases, lowers a counter or clears a timestamp, except by deleting a tenant |
| `Safety.RunKeepsInv` | backend/ledgerloop/db/models.py:386-470 | all invariants hold in every state of every run |
| `Safety.EffectivelyOnce` | backend/ledgerloop/db/models.py:436-470 | every raw row has at most one non-duplicate result and at most one marker, and reconciled_at is set exactly when a non-duplicate result names it |
| `Safety.ResultsJustified` | backend/ledgerloop/matching/core.py:141-183 | every pairing names one gateway and one ledger row of its tenant with the verdict classify_pair gives on them; every unmatched row waited longer than the window; every marker marks a resubmitted row |
| `Safety.ResultsAreFinal` | backend/ledgerloop/worker/persist.py:153-199 | until its tenant is deleted no step changes a result, the facts or the reconciled_at of the rows it names, and no other active result ever names them |
| `Safety.StampNeverMoves` | backend/ledgerloop/worker/persist.py:183-199 | until its tenant is deleted a row stays, and its reconciled_at once set is never moved or cleared |
| `Safety.RowFactsFixed` | backend/ledgerloop/services/ingest.py:87-106 | a row id denotes the same facts for ever; ids are not reused |
| `Safety.ClosedStaysClosed` | backend/ledgerloop/services/queries.py:223-245 | a closed exception keeps its notes and closing time |
| `History.ResultHistory` | backend/ledgerloop/worker/persist.py:123-180 | in every run each stored result was written by one commit, with that commit's decision, tenant and clock |
| `History.StampHistory` | backend/ledgerloop/worker/persist.py:183-199 | a row's reconciled_at is the clock of the commit whose decision names it |
| `History.CaseHistory` | backend/ledgerloop/services/queries.py:223-245 | an exception is closed if and only if an earlier close of its own tenant found it open, and it carries that close's notes and clock |
| `History.CaseOpening` | backend/ledgerloop/worker/persist.py:169-173 | every exception was opened by the commit of a result that needs a human, for that result and its tenant |
| `History.ClosedOnce` | backend/ledgerloop/services/queries.py:223-245 | of all closes of one exception in a run only one wins |
| `History.OpenExceptionsCounted` | backend/ledgerloop/services/queries.py:99-107 | the open exceptions reported are the tenant's exceptions less the closes that won |
| `History.LastSeenIsLastVisit` | backend/ledgerloop/services/tenancy.py:217-234 | last_seen_at is the clock of the step that created or last refreshed the account |
| `Delivery.NoLostEvent` | backend/ledgerloop/queue/streams.py:66-133 | without stream loss every event is unpublished, undelivered, in the pending list, or processed by a committed transaction |
| `Delivery.EveryRowAnnounced` | backend/ledgerloop/services/ingest.py:214-247 | in every reachable state every raw row has its outbox event |
| `Delivery.ClaimsDisjoint` | backend/ledgerloop/queue/relay.py:58-64 | two relays never hold the same outbox row |
| `Delivery.PublishedCopies` | backend/ledgerloop/queue/relay.py:52-80 | a published event is in the stream at least once, exactly once while no relay crashed; copies are only ever added |
| `Delivery.PublishedOnceInTheOutbox` | backend/ledgerloop/queue/relay.py:71-75 | attempts is one for a published row and zero otherwise, in every run |
| `Delivery.AnyEventCanBePublished` | backend/ledgerloop/queue/relay.py:52-80 | from every reachable state a free relay can claim, publish and mark any unpublished row nobody has claimed, which leaves its message in the stream |
| `Progress.BothProcessedExactly` | backend/ledgerloop/worker/loop.py:102-135 | the first receipts of two compatible pending rows have both been processed if and only if one was refused its chosen partner by the indexes and the other was refused too or had found nobody |
| `Progress.NoStuckPair` | backend/ledgerloop/worker/loop.py:89-135 | for any txn_ids and with read and commit split, two compatible pending rows still have a first-receipt message open, unless one of those messages was refused its chosen partner and the other was refused too or found nobody |
| `Progress.StuckMeansSpent` | backend/ledgerloop/worker/persist.py:123-153 | so a pair without an open message has had another possible partner of one of its rows settled under it |
| `Progress.NoStuckPairDistinct` | backend/ledgerloop/worker/loop.py:89-135 | with distinct txn_ids there is no such other row, so a message is open |
| `Progress.AnyEntryCanBeFinished` | backend/ledgerloop/worker/loop.py:182-232 | from every reachable state any idle worker can take over, process and ack any entry still in the stream, whoever holds it |
| `Atomic.NoStuckPairAtomic` | backend/ledgerloop/worker/loop.py:85-143 | for all txn_ids, repeated or not, and without exception, when processing is atomic |
| `Atomic.AtomicNeverRefused` | backend/ledgerloop/worker/loop.py:102-135 | when no step comes between a read and its commit, no pending row is ever refused its chosen partner |
| `FirstReceipts.FirstReceiptExactly` | backend/ledgerloop/services/ingest.py:157-206 | each stored row was stored by one step, and it has a first-receipt message if and only if that step submitted its key once |
| `FirstReceipts.StoredPairNotStuck` | backend/ledgerloop/services/ingest.py:197-206 | for two compatible pending rows whose own storing transactions submitted their keys once: both of those messages are processed if and only if the pair was left waiting by such a refusal, and otherwise a first receipt of one of them is open |
| `FirstReceipts.StoredPairNotStuckAtomic` | backend/ledgerloop/worker/loop.py:85-143 | with atomic processing they have one open, for any txn_ids and whatever other batches repeat |
| `FirstReceipts.SingleSubmissionsAnnounce` | backend/ledgerloop/services/ingest.py:87-95 | when no transaction submits a key twice every row has a first-receipt message |
| `Stuck.RepeatedKeyGetsStuck` | backend/ledgerloop/services/ingest.py:157-206 | a run whose ledger row came from a batch that repeats its key: a matchable pending pair with no message open |
| `Stuck.StaleChoicesGetStuck` | backend/ledgerloop/worker/loop.py:102-135 | a run with a repeated txn_id: a matchable pending pair with both first receipts processed and both refused |
| `Stuck.DeferredAndRefusedGetStuck` | backend/ledgerloop/worker/loop.py:102-135 | a run with a repeated txn_id and no message open: one row of the pair had found nobody, only the other was refused |
| `Breaks.BreaksOnlyByStaleGiveUp` | backend/ledgerloop/worker/sweeper.py:84-111 | in any run, two rows once pending together both end as unmatched only if some sweeper committed a give-up on one while both were pending |
| `Breaks.BrokenPairExactly` | backend/ledgerloop/worker/sweeper.py:84-111 | for two compatible rows with distinct txn_ids, once pending together and both settled since: both are unmatched if and only if such a give-up was committed |
| `Atomic.HonestBreaks` | backend/ledgerloop/worker/sweeper.py:80-111 | when no step comes between a read and its commit, two compatible rows that were ever pending together never both end as unmatched |
| `Races.SplitStepsCanBreakAPair` | backend/ledgerloop/worker/sweeper.py:84-111 | a concrete run with a stale give-up in which they do |
| `Submissions.CounterIsSubmissions` | backend/ledgerloop/services/ingest.py:87-106 | over a whole run duplicate_count + 1 is the number of submissions of the tenant's key, and a key never submitted has no row |
| `Submissions.FirstPayloadKept` | backend/ledgerloop/services/ingest.py:87-89 | the stored payload and arrival time are those of the first submission |
| `Submissions.MarkedExactlyWhenRetried` | backend/ledgerloop/worker/loop.py:103-104 | with its retries processed, a row has a duplicate marker if and only if its key was submitted again |
| `Workload.GeneratorAgrees` | backend/scripts/generate_load.py:176-197 | the generator's independent classifier and the matcher agree on every planned transaction |
| `Workload.IntegerRulesAgree` | frontend/src/lib/generate.ts:127-146 | the integer basis-point rules and the decimal rules classify alike |
| `Workload.RulesPredictExactly` | frontend/src/lib/generate.ts:127-146 | for any configured windows and tolerances the browser's rules predict the matcher on every transaction if and only if the exact window lies inside the drift window |
| `Workload.GroundTruth.Record` | backend/scripts/generate_load.py:200-219 | recording a transaction moves each stats column's counters by what the matcher will make of that transaction, and the exact matches by its layer-1 verdicts |
| `Workload.RecordedFollowsMatcher` | backend/scripts/generate_load.py:200-219 | the generator's tally, written with its own classifier, moves column by column with the matcher's verdict |
| `Workload.RecordAll` | backend/scripts/generate_load.py:346-348 | the planner's loop accumulates exactly the tally of its plan |
| `Schedule.CountsWithinWindow` | backend/ledgerloop/services/queries.py:51-107 | for any workload with distinct txn_ids and keys and any complete run, with crashes, redelivery, stale decisions and stream loss, each count the stats endpoint reports for a window is the generator's less the results resolved before the window |
| `Schedule.CountsEqualGroundTruth` | backend/scripts/generate_load.py:200-219 | so every count equals the generator's when the window takes in all of the tenant's results |
| `Schedule.ScriptCountsEqualGroundTruth` | backend/scripts/generate_load.py:138-170 | for the load script's plans distinct txn_ids suffice for both, because its keys are made of them |
| `Schedule.CountsAfterDrainedSweep` | backend/ledgerloop/worker/sweep.py:54-88 | both at the end of any conforming run whose last sweep found no stale row once every row had waited out the window |
| `BrowserRun.GeneratedKeysFaithful` | frontend/src/lib/generate.ts:228-256 | two generated rows share a key if and only if they are the same side of the same transaction of one run, whatever characters the run id holds |
| `BrowserRun.PlanIdsDistinct` | frontend/src/lib/generate.ts:181-256 | a generated run never repeats a txn_id or a key of one side |
| `BrowserRun.Generate` | frontend/src/lib/generate.ts:181-264 | the tally equals the load script's on the same transactions, with pairs of two orphans counted once; each side of each transaction is in the file as often as it is submitted, and nothing else is |
| `BrowserRun.InjectedIsDetected` | frontend/src/lib/generate.ts:293-334 | after any complete run of a generated plan under the default settings every line of the comparison agrees if and only if the window takes in all of the tenant's results |
| `BrowserRun.PanelIsExact` | frontend/src/lib/generate.ts:293-334 | a line agrees exactly when its two numbers are equal, and all lines do exactly when the engine reports what was injected |
| `Stats.UnmatchedSplits` | backend/ledgerloop/services/queries.py:70-96 | unmatched is the sum of its two one-sided counts |
| `Stats.WindowIsFilter` | backend/ledgerloop/services/queries.py:93-96 | the figures of a window are the figures over all time of the tables without the results resolved before it |
| `Stats.WindowSplits` | backend/ledgerloop/services/queries.py:93-96 | each figure over all time is the window's figure and the results resolved before it |
| `Conservation.RowsConserved` | backend/ledgerloop/services/queries.py:70-96 | in every reachable state a tenant's rows of one side are its pending, matched, drifted and one-sided rows, each once |
| `Conservation.ExceptionsConserved` | backend/ledgerloop/services/queries.py:99-107 | a tenant's exceptions number the drifts and breaks of the window and those resolved before it, and time-drift matches are among its matches |
| `Store.Database.FindCounterparties` | backend/ledgerloop/worker/persist.py:68-106 | returns each pending row the query's predicates admit, once, and no other |
| `Store.Database.ApplyDecision` | backend/ledgerloop/worker/persist.py:123-199 | written, silently skipped or rolled back; a written decision adds its result at that clock, and an open exception exactly when it is a drift or one-sided |
| `Store.Database.CloseException` | backend/ledgerloop/services/queries.py:223-245 | compare-and-set: true exactly when the case is the tenant's own and open, which then gets the notes and clock; nothing else changes |
| `Store.Process` | backend/ledgerloop/worker/loop.py:80-143 | one message's transaction chooses the best current counterparty and leaves the tables that choice leads to |
| `Store.DrainOnce` | backend/ledgerloop/queue/relay.py:52-80 | publishes the oldest unpublished rows' messages in id order, then stamps exactly those rows and counts the attempt |
| `Processing.ReadThenCommit` | backend/ledgerloop/worker/loop.py:86-143 | a read step followed at once by its commit is that transaction |
| `Processing.ReprocessingIsNoOp` | backend/ledgerloop/worker/loop.py:102-135 | processing the same message again at once changes nothing, at any later clock |
| `Worker.MatcherWorker.HandleBatch` | backend/ledgerloop/worker/loop.py:182-190 | commits run in order and each is acked before the next entry; a failed ack leaves one committed entry pending; after a failure or stop the rest are still pending |
| `Worker.MatcherWorker.MaybeClaim` | backend/ledgerloop/worker/loop.py:214-232 | at most one scan per interval; it adopts exactly the idle entries among those examined, which stay pending under the new owner, idle since now |
| `Worker.Group.ClaimStale` | backend/ledgerloop/queue/streams.py:109-127 | examines the oldest pending entries, at most ten per entry asked for, and makes the consumer owner of exactly the idle ones among them, idle since now; all others are untouched; it stops early only when it has enough or the list ends |
| `Worker.ReclaimFindsNothing` | backend/ledgerloop/queue/streams.py:109-127 | until the minimum idle time has passed again no scan by any consumer hands out an entry just taken over |
| `Sweeping.FindStalePending` | backend/ledgerloop/worker/persist.py:202-229 | lists the longest-waiting stale rows of one side, each once, as many as the limit allows |
| `Sweeping.SweepAlwaysWrites` | backend/ledgerloop/worker/sweeper.py:91-114 | a listed row still pending at its turn is always written: neither refused nor aborted |
| `Sweeping.SweepShrinksBacklog` | backend/ledgerloop/worker/sweeper.py:84-114 | exactly that row leaves its side's backlog and nothing enters the other side's |
| `Sweeping.SweepReadThenCommit` | backend/ledgerloop/worker/sweeper.py:90-111 | a sweeper's read and commit steps without interleaving are that transaction |
| `Sweeping.AnyPendingRowCanBeSettled` | backend/ledgerloop/worker/sweeper.py:75-127 | from every reachable state an idle sweeper can settle any pending row once its window is over |
| `Sweeping.SweepSide` | backend/ledgerloop/worker/sweeper.py:80-114 | run alone with a fixed clock the pass settles every row it lists and counts exactly that many |
| `Sweeping.Sweeper.SweepOnce` | backend/ledgerloop/worker/sweeper.py:75-151 | the gateway list then the ledger list in order, then retention when it is due; each side's backlog loses a full batch or all of it; the returned number is the results written, and with a positive batch size is zero only when nothing was stale |
| `Sweeping.Sweeper.MaybeSweepDemoAccounts` | backend/ledgerloop/worker/sweeper.py:130-151 | retention runs at most once per interval and retires the longest-idle demo tenants; a failure inside it is swallowed, keeps what was deleted before it and uses up the interval |
| `Sweeping.Sweep` | backend/ledgerloop/worker/sweep.py:54-88 | the tables are those of that many passes one after the other; with a positive batch size B drained means no stale row is left and max(ceil(g/B), ceil(l/B)) + 1 passes suffice; the total is the results written |
| `Retention.DeletionOrderKeepsReferences` | backend/ledgerloop/worker/sweeper.py:159-164 | after each of the five statements every foreign key is satisfied |
| `Retention.RowsFirstRefused` | backend/ledgerloop/db/models.py:397-402 | deleting a tenant's raw rows first is refused exactly when one of its results names them |
| `Retention.DeleteAccount` | backend/ledgerloop/worker/sweeper.py:194-204 | the five statements are all accepted and leave exactly the database without the tenant |
| `Retention.ListIdleDemos` | backend/ledgerloop/worker/sweeper.py:175-185 | the longest-idle demo tenants in order of last visit, each once, up to the limit; below the limit all of them |
| `Retention.SweepDemoAccounts` | backend/ledgerloop/worker/sweeper.py:153-208 | run alone, the longest-idle demo tenants are gone up to the transaction that fails, if any, nothing else changed, and their number is returned; accounts in use are kept, and below the limit no others |
| `Retention.RetireAllLeavesOthers` | backend/ledgerloop/worker/sweeper.py:187-204 | retiring a list of tenants removes exactly their records |
| `Retention.RealAccountsKept` | backend/ledgerloop/worker/sweeper.py:156-157 | a real account and its records survive, whatever its last visit, and so does a demo account seen since the cutoff |
| `Retention.VisitorKept` | backend/ledgerloop/services/tenancy.py:217-234 | in every run, for the retention period less the refresh interval after a request its account is no idle demo |
| `Retention.LateVisitSwept` | backend/ledgerloop/services/tenancy.py:217-234 | a visitor swept less than the retention period after its last request, which the lazy refresh had not recorded |
| `Retention.DeletedStaysDeleted` | backend/ledgerloop/worker/sweeper.py:194-204 | a deleted row never comes back under its id |
| `Retention.InFlightDecisionDies` | backend/ledgerloop/db/models.py:397-402 | a decision about a deleted row changes nothing when it is committed |
| `Retention.InFlightMessageIgnored` | backend/ledgerloop/worker/loop.py:90-100 | a message about a deleted row is acked without touching the tables |
| `Batches.GroupsAreExact` | backend/ledgerloop/services/ingest.py:123-129 | collapsing a batch keeps each key once, its first payload and its exact tally |
| `Batches.BatchIsOneByOne` | backend/ledgerloop/services/ingest.py:111-195 | the tables after a batch equal the tables after its entries one at a time |
| `Batches.GroupsCount` | backend/ledgerloop/services/ingest.py:155-182 | a stored row's counter moves by the submissions of its key, a new row's by one less |
| `Batches.OneEventPerKey` | backend/ledgerloop/services/ingest.py:197-206 | one event per distinct key is appended and no other event touched |
| `Batches.MessageOfGroup` | backend/ledgerloop/services/ingest.py:197-205 | each message carries the final tally, and is flagged duplicate when the row was there before or the batch repeats the key |
| `Batches.GroupIsStep` | backend/ledgerloop/services/ingest.py:111-211 | each key's transaction is a step of the system, so the theorems over runs cover batches |
| `Ingestion.IngestGateway` | backend/ledgerloop/services/ingest.py:52-108 | lands on the row that holds the key or on a new one, stores or counts, and answers and enqueues the row's id, txn_id, whether it was there and how often its key has been submitted; aborts and changes nothing exactly when the account is gone and a new row is needed |
| `Ingestion.IngestLedgerBatch` | backend/ledgerloop/services/ingest.py:111-211 | the bulk statements leave what one transaction per key leaves, and result i is the receipt of the row holding entry i's key; the batch aborts and changes nothing exactly when the account is gone and some key is new |
| `AcceptedCount.AcceptedExactly` | backend/ledgerloop/api/routes_ingest.py:123 | accepted never exceeds the new rows and equals them if and only if no new key repeats in the batch |
| `AcceptedCount.ResultCounts` | backend/ledgerloop/services/ingest.py:183-211 | result i carries the txn_id first submitted in the batch under entry i's key and the number of all its submissions so far |
| `AcceptedCount.RepeatedNewKeyUncounted` | backend/ledgerloop/api/schemas.py:107 | a batch that submits one new key more than once, and nothing else, stores one row and reports none accepted |
| `Keyset.FetchPage` | backend/ledgerloop/services/queries.py:124-165 | the leading matching ids below the cursor; next_cursor is none exactly when nothing smaller remains |
| `Keyset.FetchResultsPage` | backend/ledgerloop/services/queries.py:132-165 | that page over one tenant's results, optionally of one status: only such results, and all of those between its cursor and the next |
| `Keyset.FetchExceptionsPage` | backend/ledgerloop/services/queries.py:168-202 | that page over one tenant's exceptions, open, closed or both: only such, and all of those between its cursor and the next |
| `Keyset.SeenDescends` | backend/ledgerloop/services/queries.py:124-129 | over all pages of a walk ids strictly descend, so no row is returned twice |
| `Keyset.WalkEnds` | backend/ledgerloop/services/queries.py:162-165 | a walk takes at most two more pages than its first cursor's value |
| `Keyset.WalkIsComplete` | backend/ledgerloop/services/queries.py:124-165 | a finished walk returns each row that matched throughout exactly once, whatever changed meanwhile |
| `Keyset.ResultsFeedComplete` | backend/ledgerloop/services/queries.py:132-165 | over a running system, every result present at the start is returned exactly once unless its tenant is deleted |
| `Keyset.ExceptionQueueComplete` | backend/ledgerloop/services/queries.py:168-202 | every case that matches when the walk starts, and if open ones are asked for is still open when it ends, is returned exactly once while others are opened and closed; also for the closed and the unfiltered queue |
| `RateLimit.KeysDiffer` | backend/ledgerloop/api/ratelimit.py:51-54 | two callers or two windows never share a counter, even with colons in a bucket name |
| `RateLimit.Limiter.Check` | backend/ledgerloop/api/ratelimit.py:49-74 | counts, sets the expiry and answers as INCR and EXPIRE do; allows with the whole limit to spare when no reply comes back |
| `RateLimit.RetryAfterIsExact` | backend/ledgerloop/api/ratelimit.py:51-53 | the advised wait ends exactly when the next window begins |
| `RateLimit.CounterIsTally` | backend/ledgerloop/api/ratelimit.py:56-64 | with a monotone clock a counter equals the requests of its bucket and window: it never expires inside its window |
| `RateLimit.AnswerFollowsTally` | backend/ledgerloop/api/ratelimit.py:56-74 | an answered request is refused exactly when it is past the limit in its window and is told exactly how many more fit; without an answer it is admitted |
| `RateLimit.WindowBound` | backend/ledgerloop/api/ratelimit.py:69-74 | at most limit requests are admitted per window, and exactly the first limit when every reply arrives |
| `RateLimit.SpanBound` | backend/ledgerloop/api/ratelimit.py:8-13 | at most twice the limit in any sixty seconds |
| `Money.DecimalRoundTrip` | frontend/src/lib/money.ts:25-63 | parseMinor undoes toDecimalString on every safe integer at every scale up to 308, and above it accepts nothing |
| `Money.FormatRoundTrip` | frontend/src/lib/money.ts:25-73 | parseMinor undoes the comma-grouped display form likewise |
| `Money.PrintIsCanonical` | frontend/src/lib/money.ts:25-63 | parse, print, parse is parse; accepted texts print alike exactly when they mean one amount |
| `Money.MagnitudeTruncates` | frontend/src/lib/money.ts:37-42 | the magnitude is the written number scaled and truncated, never rounded |
| `Money.ReadsWritten` | frontend/src/lib/money.ts:25-45 | a cell that is, blanks and commas aside, an optional sign, digits and an optional dot and digits reads as that number scaled and truncated, unless it has no digit or leaves the safe range |
| `Money.AcceptedIsWritten` | frontend/src/lib/money.ts:25-45 | nothing else is accepted |
| `Money.BlanksIgnored` | frontend/src/lib/money.ts:25-30 | spaces and commas mean nothing, wherever they stand |
| `Money.DecimalShape` | frontend/src/lib/money.ts:57-73 | the wire format has exactly the scale's digits after its one point, and no leading zero |
| `Money.GroupedInThrees` | frontend/src/lib/money.ts:66-73 | in the display form a comma stands before every third digit from the right and nowhere else |
| `DerivedKeys.KeysFaithful` | frontend/src/lib/csv.ts:359-368 | under one prefix keys are equal if and only if side, txnId, amount and occurredAt are, even with colons in txnId |
| `DerivedKeys.PrefixesCollideExactly` | frontend/src/lib/csv.ts:359-368 | two different prefixes without colons can give one key if and only if one is absent and the other is the name of a side |
| `DerivedKeys.PrefixesSeparate` | frontend/src/lib/csv.ts:264-273 | so distinct prefixes without colons, none of them the name of a side, keep their rows apart; the option exists for this and no caller sets it |
| `DerivedKeys.CoerceRows` | frontend/src/lib/csv.ts:284-350 | returns the kept rows in order, the exact number refused, and the first fifty refusals |
| `DerivedKeys.EveryRowAccounted` | frontend/src/lib/csv.ts:301-349 | every row is kept or refused, never both, in file order with its own line number |
| `DerivedKeys.KeptIsAcceptable` | frontend/src/lib/csv.ts:308-331 | a kept row has a txn_id, a non-zero safe amount, a three-letter currency and a key |
| `DerivedKeys.KeptKeysFaithful` | frontend/src/lib/csv.ts:342-345 | without a key column two kept rows share a key if and only if they repeat one transaction; currency plays no part |
| `DerivedKeys.KeptExactly` | frontend/src/lib/csv.ts:308-331 | a row is kept if and only if it has a txn_id, a non-zero amount, an instant and a currency that can be read |
| `DerivedKeys.RefusalIsTrue` | frontend/src/lib/csv.ts:301-331 | the reason given for a refusal is true of the row and quotes its text |
| `DerivedKeys.CurrencyFallsBack` | frontend/src/lib/csv.ts:322-325 | the file's currency when it has one, the chosen default otherwise |
| `DerivedKeys.TrimIsExact` | frontend/src/lib/csv.ts:308-333 | trimming takes the blanks off both ends, all of them and nothing else |
| `DerivedKeys.FileRoundTrip` | frontend/src/lib/generate.ts:337-347 | a row written to a file and read back through its key column is the same row |
| `DerivedKeys.FileRoundTripDerived` | frontend/src/lib/generate.ts:337-347 | without that column it is the same row under the derived key |
| `Upload.AmountOnTheWire` | frontend/src/api/ingest.ts:79-103 | the one decimal the request model reads off the wire is the row's amount, exactly |
| `Upload.SurvivorAcceptedExactly` | frontend/src/lib/csv.ts:278-283 | a row that survives the reader is accepted by the API if and only if its txn_id fits and its instant has a four-digit year |
| `Upload.LongIdSurvives` | backend/ledgerloop/api/schemas.py:23-57 | a row that survives the reader and is refused |
| `Upload.WireKeysFaithful` | frontend/src/api/ingest.ts:79-103 | accepted rows of a file without a key column carry one key to the API if and only if they repeat one transaction |
| `Upload.WireKeysExactly` | frontend/src/api/ingest.ts:79-103 | any two rows carry one key, or one reference, if and only if their keys are equal or agree on all that is kept of them |
| `Upload.ReferencesCollide` | frontend/src/api/ingest.ts:81-84 | two accepted rows of different transactions, with different keys, that share the reference |
| `Upload.GeneratedRowSubmits` | frontend/src/api/ingest.ts:79-103 | a generated row's request submits its side of the planned transaction and nothing else |

## Left out

- One clock: `now` stands for the application's clock and the database's, so a result's resolved_at and the reconciled_at of its rows, which the code reads from different clocks, are equal in the model; the history theorems speak of that one clock.
- Ids in commit order: the model numbers results, rows and exceptions as their transactions commit, while an identity column can commit a lower id after a higher one; a walk over a feed can then miss a row that commits late below its cursor, and `Keyset.ResultsFeedComplete` does not cover rows committed after the walk began.
- Page limits below one: the routes refuse them (`api/routes_read.py:35`), so the page methods ask for a positive limit.
- PostgreSQL and Redis internals: locks, index scans, percentile_cont and radix trimming appear only as guarded steps; trimming may drop any entry still in the stream, and recreating a lost consumer group may deliver again any entry ever added, which allows more than Redis does.
- Identity gaps: the `Burn` step lets sequences skip any values; the ingestion methods themselves number new rows without gaps.
- Account ids: the model may create an account under an id that was used before, which allows more than the identity column does.
- Batch transactions: over runs a ledger batch is a sequence of per-key steps, so other steps may come between its keys, which allows more than one transaction does.
- Ingestion by an account deleted meanwhile is not a step of a run: the ingestion methods show that it aborts and leaves nothing behind.
- Retention does not recheck last_seen_at between listing and deleting; the theorems about idle tenants are about the listing, or about retention running alone.
- Message JSON, notes text of decisions, latency figures, metrics, gauges, logging: no effect on decisions.
- The `time_drift` status: reserved by the schema; no layer writes it, and no reachable state holds it.
- FastAPI routing, request validation beyond the two ingestion models, API keys, HMAC signatures, webhook adapters, settings parsing, migrations, shutdown, sleeps and backoff.
- Decimal context precision: Python's Decimal is taken as exact, which it is at the column's numeric(18,2).
- Random number generation and pacing of the generators: any plan with distinct txn_ids and keys is covered, and the browser's draws are a parameter.
- Timestamp parsing, upper-casing, column guessing and tokenising of uploaded files: the first two are parameters, the others are not modelled; `toFixed(2)` of a generated amount is taken as its exact decimal string.
- Text width: a character counts once, where JavaScript counts code points outside the basic plane twice; what an HTTP header can carry is not modelled.
- The upload's own request pool, progress reports and error summary.
- The rate limiter's clock: API processes and Redis are taken to share one monotone clock.
- React screens, hooks, HTTP client and tenant context.
