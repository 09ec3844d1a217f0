# Verification model of the feature store

A Dafny model of the parts of the feature store that must agree with one another under crashes, retries and
stale workers, and proofs about them. `dafny verify dfyconfig.toml` checks the whole project.

| files | part of the system |
|---|---|
| `Jobs`, `JobInvariants`, `JobProtocol`, `JobRows`, `Scheduling`, `JobSession` | the job table, materialization states and stream ledger: one function per database transaction, what every run keeps, the claim loop, and the methods that update rows in place |
| `Materialization`, `MaterializationRuns` | incremental materialization over view tables and online hashes that no lease protects |
| `StreamPipeline`, `StreamDelivery`, `SplitAppend`, `StreamConsumer`, `UnseenRows` | ledger, buffers, staging, offset commits, recovery, the duplicate filter in front of an append, and the append as the two steps it is |
| `Instants`, `TextOrder`, `OnlineRows`, `Online`, `OnlineReads` | the online upsert script over text hashes, what any sequence of upserts leaves, and what a reader is served |
| `FeatureRequests`, `PointInTime`, `PointInTimeCells` | resolving and grouping requested features, the point-in-time join, the loop over views, and its agreement with the online store |
| `Quality`, `Chunks`, `Backfill`, `BackfillRun`, `BackfillResults`, `BackfillRaces` | row validation, the chunked backfill with checkpoints, quarantine and resume, and its chunk writes as the two steps they are |
| `Artifacts`, `PublishedResults`, `ArtifactRuns` | inputs and results of asynchronous historical queries |
| `Registry`, `ManifestApplies`, `Lifecycle` | preflight plan, apply, deprecation and the replacement graph |
| `JsonPointer`, `Differences`, `DiffResults`, `DiffValues` | the recursive specification diff and the patch that undoes it |
| `Common`, `Orders`, `Numbers` | options, results, time; least elements; numbers as Python compares them |

How it is built. A database transaction is one step; a transaction the source rolls back returns the database
it was given. Clock readings are arbitrary values. A `uuid4` that is not fresh makes its step do nothing, so
statements over arbitrary sequences of steps are statements over all runs. A crash is an attempt that makes no
further step, and stale attempts stay in the world for ever. A consumer session is calm when no call into another
system raises in it, and a backfill attempt is left alone when nothing interrupts it; what then has to happen is
proved too. Where the source changes things in place the model has a class or a loop, tied by its contract to a
function of the old state about which the properties are proved.

Where the code does not keep what one might expect, the code is modelled as it is:

- Retrying an old failed incremental job can lower the watermark (`JobProtocol.RetryCanLowerWatermark`); exactly
  when is `JobProtocol.RetriedSuccessWatermark`. Coverage survives it (`Materialization.WatermarkSound`).
- Comparing and appending are two steps in the source, and a worker may stall between them. A view then never
  repeats an event if and only if every write with something to add lands before any other write of its job
  (`SplitAppend.SplitExactly`), and delivery is exactly once in those runs (`SplitAppend.SplitExactlyOnce`);
  `SplitAppend.StalledWriterRepeats` is a run in which it is not. `StreamPipeline` takes the two as one step.
- Creating a missing view table in a backfill repeats a chunk exactly when an attempt that found no table writes
  after another write of that chunk (`BackfillRaces.RaceExactly`, `BackfillRaces.TwoCreatorsRepeat`); an existing
  table may be overwritten from any stale load.
- An artifact sweep deletes before it commits, and a retry checks before it updates. An input is lost exactly when
  the update lands on a job whose artifacts are gone (`Artifacts.RetentionExactly`): after a crashed sweep and a
  clock behind the expiry (`Artifacts.CrashedSweepLosesInput`), or with all clocks right and a complete sweep
  between check and update (`Artifacts.SweepBetweenCheckAndUpdate`).
- The diff compares as Python does, so `1` and `1.0` have different fingerprints and an empty difference list
  (`DiffResults.EmptyListForConflict`).
- When the online write raises after buffering, an event is dead-lettered and also staged; the offset theorem
  does not treat these outcomes as exclusive.
- An observation with a null join key never matches in the join, while the online store looks the null key up;
  `PointInTime.TrainServeAgreement` says exactly when the two still agree.
- Status columns are named after the view alone, so a resolved request can give two columns of one name; exactly
  when is `FeatureRequests.ColumnsDistinctExactly`. `PointInTime` therefore keeps columns by position and looks
  every key up in the first column of its name.

## Model

| member | source | states |
|---|---|---|
| `JobInvariants.StepKeepsJob` | src/feature_store/jobs.py:242-357 | No transaction deletes a job, changes its kind or payload, or takes it out of `succeeded`; only a success transaction puts it there |
| `JobInvariants.LeaseStep` | src/feature_store/jobs.py:480-540 | Every transaction keeps: a job is running exactly when it carries a token, and that token was issued for it |
| `JobInvariants.DeadStep` | src/feature_store/jobs.py:480-517 | A token that no job carries any more is never carried again |
| `JobInvariants.BudgetStep` | src/feature_store/jobs.py:431-507 | Every transaction keeps attempts within the snapshotted budget, a retrying job below it, and `finished_at` set exactly on terminal jobs |
| `JobInvariants.SucceedReservation` | src/feature_store/jobs.py:688-713 | A fenced success of an incremental job keeps the reservation invariant and never answers that the reservation was lost |
| `JobInvariants.CreateIncrementalReservation` | src/feature_store/jobs.py:167-230 | Creating an incremental job, reusing the active one or being refused all keep the reservation of the view exact |
| `JobInvariants.RetryReservation` | src/feature_store/jobs.py:297-319 | A manual retry keeps the reservation exact, so it can take it only from nobody or from a job that is no longer active |
| `JobInvariants.FailReservation` | src/feature_store/jobs.py:780-788 | A failure keeps the reservation exact: given up when the job ends, held while it waits for another attempt |
| `JobInvariants.ReservationStep` | src/feature_store/jobs.py:180-229 | Every transaction keeps: a view's `active_job_id` is j exactly when j is an incremental job of that view in pending, retrying or running |
| `JobInvariants.LedgerStep` | src/feature_store/jobs.py:714-716 | Every transaction keeps: a pending record has no job, any other has an append job of its view, and it is applied exactly when that job succeeded |
| `JobInvariants.RunKeepsInv` | src/feature_store/jobs.py:95-788 | All of these hold after every sequence of transactions |
| `JobProtocol.LeaseFencing` | src/feature_store/jobs.py:519-540 | Once a token is replaced or cleared, no later heartbeat, checkpoint, success or failure carrying it changes anything, for any clock and after any further run |
| `JobProtocol.DeadForever` | src/feature_store/jobs.py:480-517 | A dead token stays dead over every run |
| `JobProtocol.DeadTokenIsIgnored` | src/feature_store/jobs.py:623-643 | A worker update that presents a dead token leaves the whole database as it is |
| `JobProtocol.RunningMeansLeased` | src/feature_store/jobs.py:601-617 | In every reachable state a job runs exactly when it is leased, and no two jobs share a token |
| `JobProtocol.SucceededIsForever` | src/feature_store/jobs.py:653-687 | `succeeded` is never left over any run, whatever token or clock is presented |
| `JobProtocol.ReservationExactness` | src/feature_store/jobs.py:363-372 | In every reachable state the reservation is exact, at most one incremental job of a view is active, and the lost-reservation branch of a fenced success cannot be taken |
| `JobProtocol.WatermarkMoves` | src/feature_store/jobs.py:694-710 | Watermark, freshness and last success of a view move only in the success of its reservation holder, and then to that job's cutoff |
| `JobProtocol.ReservationFreezesState` | src/feature_store/jobs.py:1037-1067 | While one incremental job stays active on a view, nothing moves the watermark or freshness its attempts read |
| `JobProtocol.RetriedSuccessWatermark` | src/feature_store/jobs.py:283-357 | A retried job's success, after any transactions in which the job stays active, sets the watermark to its own cutoff; the watermark has not gone down if and only if that cutoff was not below it when the retry was accepted |
| `JobProtocol.WatermarkMonotone` | src/feature_store/jobs.py:196-198 | In runs in which no accepted retry revives a job with a cutoff below the watermark, the watermark never goes down between any two moments |
| `JobProtocol.CutoffsRun` | src/feature_store/jobs.py:196-229 | In such runs the cutoff of every active incremental job is at or above its view's watermark |
| `JobProtocol.RetryCanLowerWatermark` | src/feature_store/jobs.py:283-357 | A run of nine transactions in which a retry that passes its check revives an old failed job after a newer success, and the watermark goes from 20 to 10 |
| `JobProtocol.LedgerLifecycle` | src/feature_store/ledger.py:46-103 | Over any run a record keeps its first payload, its state only moves pending, staged, applied, and the job it was staged for never changes |
| `JobProtocol.KeepsPayload` | src/feature_store/jobs.py:205-217 | A job's kind and payload are those it was created with |
| `JobRows.ReachedColumns` | src/feature_store/jobs.py:205-788 | In every reachable state every column of a job is what its status says: lease, due time, failure kind, attempts, end, result and expiry |
| `JobRows.RowMoves` | src/feature_store/jobs.py:431-643 | A job's creation time never changes, its checkpoints change only by its own checkpoint, and its attempts only by a claim, which adds one, or a retry, which starts over |
| `JobRows.CreationAddsOneRow` | src/feature_store/jobs.py:100-165 | Creating a ranged job or a historical query adds one pending row with what was asked and changes nothing else |
| `JobRows.CreationExactly` | src/feature_store/jobs.py:167-230 | Creating an incremental job answers the active job of the view if there is one, is refused exactly when the cutoff is before the watermark, and otherwise adds a job with the requested cutoff and lookback or the defaults |
| `JobRows.RetryExactly` | src/feature_store/jobs.py:297-349 | The update of a retry goes through exactly for a failed, exhausted or cancelled job, unless another incremental job of its view is active |
| `JobRows.RetriedIsNew` | src/feature_store/jobs.py:320-349 | In every reachable state a retried job is, column by column, what creating it now would give, except that it keeps its creation time and checkpoints |
| `JobRows.OwnedOrTaken` | src/feature_store/jobs.py:404-427 | At any clock a running job either still belongs to its worker or is there to be taken by a claim, and never both |
| `JobRows.TakenExactly` | src/feature_store/jobs.py:404-421 | A claim query takes exactly the jobs that are pending, retrying and due, or running with their lease over |
| `JobRows.BackoffDelaysClaims` | src/feature_store/jobs.py:740-748 | After a retryable failure the job is claimed at a later clock exactly when the base delay, doubled for every earlier attempt and capped, has passed, whatever happens to other jobs |
| `JobRows.RetentionWindow` | src/feature_store/jobs.py:291-296 | Once a historical query has ended, it is swept exactly at clocks its retention time or more after its end; before that and only then it may be retried, unless it succeeded |
| `JobRows.SweptIsFinal` | src/feature_store/jobs.py:812-848 | A swept job is not swept again and may not be retried |
| `JobSession.Session.CreateIncrementalMaterialization` | src/feature_store/jobs.py:167-230 | Both attempts, with any transactions of others in front of either: an accepted job is active and holds its view, an existing one is still active and this call writes nothing |
| `JobSession.Session.CreateLocked` | src/feature_store/jobs.py:180-229 | One attempt on a found state row: the active job of the view is answered, and a job that is no longer active loses the view to the new one |
| `JobSession.Session.CancelJob` | src/feature_store/jobs.py:242-281 | Accepted exactly for an active job; afterwards it is cancelled, holds no reservation, and the token it ran under is dead |
| `JobSession.Session.RetryJob` | src/feature_store/jobs.py:283-357 | The check on an unlocked read, then any transactions of others, then the guarded update: a failed check changes nothing, and an accepted update leaves a pending job without attempts or token that holds its view |
| `JobSession.Session.LandRetry` | src/feature_store/jobs.py:297-349 | The guarded update alone: refused while another active job holds the view or when the status is not retryable any more; else the row is reset and the reservation taken |
| `JobSession.Session.ReleaseReservation` | src/feature_store/jobs.py:363-372 | Afterwards this job reserves no view and every other reservation, watermark, freshness and last success is as it was |
| `JobSession.Session.SelectCandidate` | src/feature_store/jobs.py:404-427 | The claim query answers the first by creation time and id of the jobs that are pending, retrying with no due time left, or running with their lease over; none exactly when there is no such job |
| `JobSession.Session.ClaimNext` | src/feature_store/jobs.py:398-517 | The loop ends; its pick was pending, retrying and due, or running with its lease over, had budget left, and now runs under a token no other job carries for exactly one lease; without a pick every such job has spent its budget, and exactly the spent ones before the pick are exhausted |
| `JobSession.Session.Lease` | src/feature_store/jobs.py:480-508 | The job runs under the fresh token, which no other job carries, within its budget, and its worker owns it at exactly the clocks before the lease is over; the token it ran under before is dead |
| `JobSession.Session.ExhaustCandidate` | src/feature_store/jobs.py:431-478 | A job whose budget is spent ends, holds no reservation, and its last token is dead |
| `JobSession.Session.Beat` | src/feature_store/jobs.py:519-540 | It holds exactly for the owner, who then owns the job at exactly the clocks before one full lease has passed; a dead token changes nothing |
| `JobSession.Session.CommitCheckpoints` | src/feature_store/jobs.py:623-643 | Written exactly by the owner, who goes on owning the job; a dead token changes nothing |
| `JobSession.Session.FinalizeSuccess` | src/feature_store/jobs.py:645-717 | It goes through exactly for the owner and never finds its reservation lost; the token dies, the view is free with its cutoff as watermark, every record of an append job is applied; a dead token changes nothing |
| `JobSession.Session.FinalizeFailure` | src/feature_store/jobs.py:719-788 | It goes through exactly for the owner and the token dies; a job that waits for another attempt has budget left and keeps its reservation, any other gives it up; a dead token changes nothing |
| `JobSession.Session.MarkStreamEventsApplied` | src/feature_store/jobs.py:1121-1132 | Exactly the staged records of the job become applied |
| `JobSession.Session.RegisterEvent` | src/feature_store/ledger.py:46-83 | New, duplicate or conflict by identity and payload; a stored record never changes |
| `JobSession.Session.MarkStaged` | src/feature_store/ledger.py:97-103 | Exactly the given records become staged for the job |
| `JobSession.Session.StageEvents` | src/feature_store/streaming.py:334-344 | The staging transaction creates the job and stages all records, or refuses when one is not pending |
| `Scheduling.ClaimOutcomeUnique` | src/feature_store/jobs.py:398-517 | What a claim does and picks is determined by the database, the clock and the fresh token |
| `Scheduling.ClaimingSpends` | src/feature_store/jobs.py:432-478 | Each pass over a spent job shrinks the eligible set and keeps the rest behind it, which is why the loop ends |
| `Scheduling.ClaimingPicks` | src/feature_store/jobs.py:480-517 | The pass that leases has exhausted exactly the spent jobs before its pick |
| `Scheduling.ClaimingEndsEmpty` | src/feature_store/jobs.py:428-429 | When no candidate is left every eligible job was spent and all of them are exhausted |
| `Scheduling.AttemptsWithinBudget` | src/feature_store/jobs.py:431-507 | In every reachable state attempts do not exceed the snapshotted budget and a retrying job has budget left |
| `Scheduling.HistoryTerminates` | src/feature_store/jobs.py:398-517 | Without a manual retry of it a job moves at most twice its budget plus two times, however its workers crash and compete |
| `Scheduling.BackoffMonotone` | src/feature_store/jobs.py:740-747 | The delay is nondecreasing in the attempt, capped, and doubles below the cap |
| `UnseenRows.IndexTarget` | src/feature_store/jobs.py:1138-1150 | The first pass fails exactly when the target holds two different rows of one id, and otherwise indexes it |
| `UnseenRows.Unseen` | src/feature_store/jobs.py:1134-1171 | Raises exactly when an id column is missing or one id has two different rows within the target, within staging or across them; otherwise returns in order the first staging row of each id the target lacks |
| `UnseenRows.UnseenAgainst` | src/feature_store/jobs.py:1152-1171 | The same for the second pass, over a target already indexed |
| `UnseenRows.FirstUnseenIds` | src/feature_store/jobs.py:1152-1171 | The returned rows are staging rows, have distinct ids, and carry exactly the ids the target lacks |
| `UnseenRows.AppendTwice` | src/feature_store/jobs.py:1103-1119 | After the rows have been appended the same staging table is accepted again and contributes nothing |
| `OnlineRows.UpsertAllKeepsGreatest` | src/feature_store/online.py:17-28 | After any sequence of upserts an entry is one of its competitors and none of them is later |
| `OnlineRows.UpsertsConverge` | src/feature_store/online.py:17-28 | Order and repetition of the same events do not matter |
| `OnlineRows.LatestSuffices` | src/feature_store/jobs.py:1050-1082 | Upserting the latest row of each entity ends in the same store as upserting every scanned row |
| `Instants.EarlierIsLessElapsed` | src/feature_store/online.py:50 | Field by field order of valid calendar instants is the order of elapsed time |
| `Instants.TextOrderIsTimeOrder` | src/feature_store/online.py:20-22 | Comparing the fixed-width UTC texts byte by byte is comparing the instants |
| `Online.Redis.RunUpsertScript` | src/feature_store/online.py:17-28 | The script rejects exactly an event that is not newer and otherwise overwrites stamp and pairs of that hash, touching no other |
| `Online.Redis.Upsert` | src/feature_store/online.py:48-69 | An upsert replaces the stamp and every given value of the entity's hash, or nothing |
| `Online.Redis.ReadView` | src/feature_store/online.py:105-130 | Each view adds its presence, and every requested value or nothing |
| `Online.Redis.ReadEntity` | src/feature_store/online.py:105-130 | Refuses exactly when a join key of some view is missing, naming such keys; otherwise every view's status and values |
| `Online.Redis.ReadAll` | src/feature_store/online.py:105-130 | One row per entity in order, or a refusal exactly when some entity lacks a join key |
| `Online.SortedPairs` | src/feature_store/online.py:52-53 | The flattened values come in name order and carry exactly the map |
| `Online.ScriptComparesStamps` | src/feature_store/online.py:20-22 | The script's text comparison is the (timestamp, event id) order of the rows |
| `Online.UpsertRefines` | src/feature_store/online.py:23-27 | For events carrying exactly the view's features the hash is always one whole row, that of the online entry: no torn mix |
| `Online.UpsertsRefine` | src/feature_store/online.py:17-59 | The same after any sequence of upserts |
| `Online.HashesConverge` | src/feature_store/online.py:17-69 | Any two sequences of the same events, flattened and sent in any order and with any repetition, leave every hash the same when distinct events of an entity have distinct stamps |
| `Online.WholeRowIsServed` | src/feature_store/online.py:105-130 | In a served row every value of a view is that of the one winning event of its entity, or nothing when there is none, unless a later view reuses the output name |
| `OnlineReads.ServedFromEvents` | src/feature_store/online.py:105-130 | For the events a store got of a view: an entity without any is missing with every feature null, any other is present and shows the values of its winning event, looked up by exactly the view's join keys |
| `OnlineReads.KeysAreEchoed` | src/feature_store/online.py:106 | The entity's own keys are echoed, unless a view of the request has an output of that name |
| `Materialization.ActKeepsInv` | src/feature_store/jobs.py:1031-1083 | Every step of every attempt, stale ones included, keeps: an attempt that still owns its job read the current watermark, and each scanned row is dominated online or still to be written |
| `Materialization.WatermarkSound` | src/feature_store/jobs.py:1031-1101 | In every run whose late rows stay within the lookback, every row of the last successful run's table below the watermark is dominated by its entity's online entry, even when a retry lowers the watermark |
| `Materialization.SuccessCoversItsTable` | src/feature_store/jobs.py:694-710 | At the moment of a success every row that run's table held below its cutoff is dominated online |
| `Materialization.FreshnessMonotone` | src/feature_store/jobs.py:1056-1067 | A view's source freshness never goes down between any two moments of any run |
| `MaterializationRuns.ScannedExactly` | src/feature_store/jobs.py:1040-1046 | Over every run, an attempt that has scanned has exactly the rows of its table that lie before its job's cutoff and, if it read a watermark, not before that watermark less its job's lookback |
| `MaterializationRuns.WritesBeforeCutoff` | src/feature_store/jobs.py:1069-1082 | Every row a run writes online is a row of its table before its cutoff, written to its job's view |
| `MaterializationRuns.PublishedFreshness` | src/feature_store/jobs.py:1056-1067 | The freshness a success publishes is the one before it or the time of a row of its table before its cutoff, and at least that of every scanned row |
| `MaterializationRuns.LeftAloneItFinishes` | src/feature_store/jobs.py:1031-1083 | A run that is left alone with its lease succeeds: watermark at its cutoff, freshness the greatest of the old one and the rows due, every row due dominated online, and nothing else written online |
| `StreamPipeline.ExactlyOnce` | src/feature_store/streaming.py:309-350 | Over every run with crashes, replays and stale attempts: first payload kept, states only move forward, at most one job, applied exactly when it succeeded, and then exactly one view row with the first payload |
| `StreamPipeline.NoPhantomRows` | src/feature_store/jobs.py:1103-1119 | Every view row is the only one of its identity, carries the registered payload and was staged |
| `StreamPipeline.AppendsAreAccepted` | src/feature_store/jobs.py:1134-1171 | No append of a reachable pipeline is refused for conflicting content; what it then does is StreamDelivery.AppendHappens |
| `StreamDelivery.AppendHappens` | src/feature_store/jobs.py:1103-1110 | An append whose staging table is there happens: the attempt moves on, the view keeps its rows in front, and every staged identity and every record of the job has exactly one row there with its registered payload |
| `StreamDelivery.HolderFinishes` | src/feature_store/jobs.py:1111-1132 | The lease holder that has appended records and finishes: its job succeeds, every record of it becomes applied, and no other record moves |
| `StreamDelivery.FinisherCleansUp` | src/feature_store/jobs.py:597-599 | Afterwards its worker deletes the staging table of its job, and no other |
| `StreamDelivery.FlushStages` | src/feature_store/streaming.py:326-344 | A flush stages all or nothing: if every buffered record is pending there is a pending append job over exactly the buffered rows, with exactly those records staged for it; otherwise jobs and records are as they were |
| `StreamDelivery.PendingGetsDelivered` | src/feature_store/streaming.py:227-236 | In every reachable state a registered, pending event gets delivered by recovering, flushing, claiming, appending and finishing: it is applied and its view holds exactly one row of it, with the payload it was registered with |
| `StreamPipeline.AppliedOnce` | src/feature_store/jobs.py:1121-1132 | A record is applied exactly when its job has succeeded, and then its view holds exactly one row of its identity, with the registered payload |
| `SplitAppend.DistinctExactly` | src/feature_store/jobs.py:1107-1119 | Comparing and writing as two steps: a write keeps the identities of the view distinct exactly when no row it adds has turned up since the comparison |
| `SplitAppend.CompareThenWriteAppends` | src/feature_store/jobs.py:1103-1110 | Comparing and writing with nothing in between happens, and is the one-step append |
| `SplitAppend.ClearExactly` | src/feature_store/jobs.py:1107-1119 | In a run that is distinct so far, that holds exactly when no write of the same job has landed since the comparison or there is nothing to add |
| `SplitAppend.SplitExactly` | src/feature_store/jobs.py:1103-1119 | Over every run of the two-step pipeline, no view ever holds an identity twice if and only if every write that has something to add lands before any other write of its job since its comparison |
| `SplitAppend.SplitExactlyOnce` | src/feature_store/streaming.py:309-350 | In such runs delivery is exactly once, as for the one-step append |
| `SplitAppend.StalledWriterRepeats` | src/feature_store/jobs.py:1103-1119 | A run in which a worker compares and stalls, its lease lapses, a second worker compares and writes, the first one writes, and the view holds the event twice |
| `StreamPipeline.RunKeeps` | src/feature_store/ledger.py:46-103 | Buffers hold registered payloads, staging tables hold exactly their job's records, and delivered jobs are in the view, in every reachable state |
| `StreamConsumer.LatestByPartition` | src/feature_store/streaming.py:352-364 | The greatest offset of each partition among the messages |
| `StreamConsumer.Consumer.Buffer` | src/feature_store/streaming.py:248-258 | Exactly the entry of that identity changes: it is created once and gains the message |
| `StreamConsumer.Consumer.StageView` | src/feature_store/streaming.py:333-344 | Accepted exactly when every buffered identity is pending; then none is any more, and otherwise ledger and jobs are as they were |
| `StreamConsumer.Consumer.FlushView` | src/feature_store/streaming.py:309-350 | The messages returned are exactly those of the staged buffer |
| `StreamConsumer.Consumer.Flush` | src/feature_store/streaming.py:288-307 | Offsets are safe at every intermediate point; on success every buffered identity is staged, no buffer holds anything and every waiting message is at or below its committed offset; in a calm session it succeeds |
| `StreamConsumer.Consumer.CommitLatest` | src/feature_store/streaming.py:352-366 | Afterwards every staged message is at or below its partition's committed offset, and no commit went back |
| `StreamConsumer.Consumer.DeadLetter` | src/feature_store/streaming.py:260-276 | The message is handed to the producer or the call raises with nothing changed |
| `StreamConsumer.Consumer.Process` | src/feature_store/streaming.py:106-206 | When nothing raises, a new or pending event is registered, buffered and written online once, a duplicate is committed, a conflicting or quarantined one is dead-lettered and a rejected one dropped, and nothing else becomes of any of them; it raises for an unreadable message and otherwise only because another system does |
| `StreamConsumer.Consumer.Handle` | src/feature_store/streaming.py:95-225 | If nothing raises inside, the message comes to exactly what it is; if something does, it is dead-lettered and committed, or a second failure escapes; in a calm session only unreadable messages raise |
| `StreamConsumer.Consumer.RecoverPending` | src/feature_store/streaming.py:227-236 | Unless something raises, every record an earlier session left pending is staged afterwards |
| `StreamConsumer.Consumer.Session` | src/feature_store/streaming.py:81-93 | Whatever step a crash falls on, every message at or below a committed offset is staged, applied, dead-lettered or dropped by policy, and committed offsets never went back; a session in which no other system raises ends with empty buffers and every delivered message settled |
| `PointInTime.AnswerShape` | src/feature_store/pit.py:191-204 | Any answer the query allows has one row per observation, in order, with the greatest (timestamp, event id) row at or before it, or none when none matches |
| `PointInTime.AnswerIsUnique` | src/feature_store/pit.py:199-203 | Where stamps identify rows the engine has no choice |
| `PointInTime.FutureRowsDoNotMatter` | src/feature_store/pit.py:196-198 | Two tables that agree on the rows at or before an observation give it the same row |
| `PointInTime.StatusByRows` | src/feature_store/pit.py:176-185 | Missing when no row matches; present exactly when some matching row is within a nonzero TTL, the boundary included |
| `PointInTime.MissingIsEmptyJoin` | src/feature_store/pit.py:210-215 | Appending null columns is what joining with an empty table does |
| `PointInTime.AddView` | src/feature_store/pit.py:125-157 | One turn of the loop adds the view's columns in either branch |
| `PointInTime.QueryTable` | src/feature_store/pit.py:102-160 | Refuses exactly when a join key of a view is no column by that view's turn; otherwise one line per observation, its own fields followed by one block per view, whatever columns the views join on |
| `PointInTime.JoinAll` | src/feature_store/pit.py:125-157 | The same for the loop over views, from any starting table |
| `PointInTime.BlockStandsAlone` | src/feature_store/pit.py:125-157 | A view that joins on columns of the observations gets the block it would get if it were requested alone |
| `PointInTimeCells.OwnColumns` | src/feature_store/pit.py:108-119 | A query starts with one line per observation, in order and at its time, whose cells are the observation's own fields under the names of the first observation |
| `PointInTimeCells.MatchesExactly` | src/feature_store/pit.py:175-198 | A feature row matches a line exactly when it agrees on every join key, none of them null, and is not later |
| `PointInTimeCells.BlockShows` | src/feature_store/pit.py:162-208 | With no agreeing row the status is missing and every feature null; otherwise the latest agreeing row is present with its values, or expired and every feature null when it is older than a nonzero TTL |
| `PointInTimeCells.QueryShows` | src/feature_store/pit.py:125-157 | Each view's block stands under the view's names after the observation's columns and the earlier views' blocks |
| `PointInTime.MoreViewsKeepEarlierColumns` | src/feature_store/pit.py:125-157 | Requesting further views keeps row count, order and every earlier column |
| `PointInTime.TrainServeAgreement` | src/feature_store/pit.py:162-208 | After upserting exactly the entity's rows up to a time, the online entry is the row the join picks at that time, if and only if the key holds no null or the entity has no row by then |
| `FeatureRequests.Resolve` | src/feature_store/registry.py:454-475 | Answers the requested features unchanged, exactly when the service is known, there are any, every one exists and no two have the same output name |
| `FeatureRequests.GroupByView` | src/feature_store/pit.py:120-123 | The views in the order they are first named, each with its features in request order |
| `FeatureRequests.GroupingIsFaithful` | src/feature_store/online.py:100-103 | Grouping loses no requested feature, invents none and repeats none |
| `FeatureRequests.ColumnsDistinctExactly` | src/feature_store/registry.py:462-474 | The columns of a resolved request are distinct if and only if it names no view in two versions and no feature whose column is a status column |
| `FeatureRequests.StatusColumnClashes` | src/feature_store/registry.py:462-474 | An instance: feature `b__status` of view `a` next to view `a__b` |
| `Quality.DuplicateRows` | src/feature_store/quality.py:74-89 | Exactly the rows whose value another row carries too, by value and type |
| `Quality.FindDuplicates` | src/feature_store/quality.py:73-89 | The duplicate sets of exactly the features that ask for uniqueness |
| `Quality.CheckCell` | src/feature_store/quality.py:92-156 | Exactly the constraints the cell breaks, in enumeration order |
| `Quality.Validate` | src/feature_store/quality.py:59-165 | Exactly the violations there are, each once, sorted by row, declared feature and constraint, so the final sort moves nothing |
| `Quality.ReportedInOrder` | src/feature_store/quality.py:157-164 | The list is already in report order when it is built |
| `Quality.ValidAndInvalidPartition` | src/feature_store/quality.py:23-31 | A row is invalid exactly when some contract of it is broken; both sides together are every row once |
| `Quality.ReportedByValues` | src/feature_store/quality.py:92-156 | What is reported of a cell, by the values: a null that may not be, a number out of bounds, a value no accepted value equals, one another row carries too, a row too old at the reference time |
| `Quality.NothingElseReported` | src/feature_store/quality.py:92-156 | Only rows of the batch and features with a contract are reported |
| `Quality.CountsAddUp` | src/feature_store/quality.py:33-39 | The counts by constraint add up to all violations |
| `Chunks.CursorStep` | src/feature_store/jobs.py:955-962 | The cursor visits the dates of the range one by one and the fallback for a chunk that does not advance is never taken |
| `Chunks.ChunksPartition` | src/feature_store/jobs.py:955-962 | The chunks partition the range, each is nonempty and within one UTC date, and no date has two |
| `Backfill.OverwriteCounts` | src/feature_store/jobs.py:1010-1019 | Overwriting a date with what was loaded outside the chunk plus its rows changes the chunk and nothing else, even when the load is stale |
| `Backfill.ViewWriteSettles` | src/feature_store/jobs.py:1004-1021 | Writing a chunk, for the first time or again, leaves exactly the written chunks over the initial table |
| `Backfill.QuarantineWriteSettles` | src/feature_store/jobs.py:918-945 | The same for the job's quarantine table |
| `BackfillRun.QualitySummary` | src/feature_store/jobs.py:886-903 | The summary of the newest checkpoint that carries one, in either form |
| `BackfillRun.ResumesNext` | src/feature_store/jobs.py:1022-1027 | Checkpointing a chunk moves the resume point by exactly one |
| `BackfillRun.LegacyResumesNext` | src/feature_store/jobs.py:875-895 | A chunk checkpointed in the older form resumes just the same |
| `BackfillRun.Job.PutQuarantine` | src/feature_store/jobs.py:918-945 | The quarantine table holds exactly the invalid rows of the chunks any attempt has parked |
| `BackfillRun.Job.PutView` | src/feature_store/jobs.py:1010-1021 | The view holds exactly the chunks any attempt has written over the initial table |
| `BackfillRun.Job.ProcessChunk` | src/feature_store/jobs.py:964-1027 | A chunk is written before it is checkpointed and counted exactly once; one that is rejected or whose transform raises leaves both tables as they were |
| `BackfillRun.Job.Attempt` | src/feature_store/jobs.py:947-1029 | From any state an interrupted attempt may leave, one that returns has every chunk written and a summary that counts each chunk exactly once; left alone it returns exactly when every chunk still to be done runs and is not rejected |
| `BackfillRun.Job.Live` | src/feature_store/jobs.py:947-1029 | The same over any number of interrupted attempts, with stale attempts in between that load the view at one moment and overwrite it from that load at any later one |
| `BackfillResults.FinalView` | src/feature_store/jobs.py:1004-1028 | The final view is the old rows outside the range plus every chunk's rows, each exactly once |
| `BackfillResults.FinalQuarantine` | src/feature_store/jobs.py:918-945 | The final quarantine table is every chunk's invalid rows, each exactly once |
| `BackfillResults.RerunChangesNothing` | src/feature_store/jobs.py:955-1028 | Running the same backfill over its own result changes nothing |
| `BackfillResults.SummaryAccountsForEverything` | src/feature_store/jobs.py:988-1001 | Evaluated counts every row once, valid plus invalid is evaluated, quarantined matches the policy, and constraint counts add up to all violations |
| `BackfillResults.QuarantineConserves` | src/feature_store/jobs.py:1007-1009 | What goes into the view and what goes into quarantine is together the whole output, no row lost or repeated |
| `BackfillResults.OutputExactly` | src/feature_store/jobs.py:975-979 | Over the whole range a row is in the output as often as the transform of its own date gives it, the first instant of the date included; no row outside the range is |
| `BackfillResults.ViewAndQuarantine` | src/feature_store/jobs.py:975-1021 | In the range, a row is in the view and in quarantine together as often as the transform gives it; outside, as often as before the job |
| `BackfillResults.JudgedByValues` | src/feature_store/jobs.py:982-984 | A chunk's rows are judged by their own cells and timestamps, the other rows of the chunk, and their age at the end of the chunk |
| `BackfillResults.OnlyCleanRowsAreWritten` | src/feature_store/jobs.py:1007-1009 | Under quarantine a row goes into the view exactly when nothing is found in it |
| `BackfillResults.QuarantinedRowsCarryTheirErrors` | src/feature_store/jobs.py:918-945 | A quarantined row is a row of the chunk with at least one error, and carries exactly what was found in it |
| `BackfillResults.ErrorsAreTheViolations` | src/feature_store/jobs.py:929-937 | A quarantined row carries exactly the violations found in it |
| `BackfillRaces.AppendSettles` | src/feature_store/jobs.py:1010-1021 | Appending a chunk that is not in the view settles it |
| `BackfillRaces.AppendRepeats` | src/feature_store/jobs.py:1010-1021 | Appending one that is there, and not empty, does not |
| `BackfillRaces.RaceExactly` | src/feature_store/jobs.py:1010-1021 | Looking and writing as two steps: over every run of any attempts the view is always the initial table with exactly the written chunks in place, if and only if every attempt that found no table writes before any other write of its chunk or has nothing to write |
| `BackfillRaces.ExistingViewAlwaysSettles` | src/feature_store/jobs.py:1010-1021 | When the view exists from the start every run settles, however stale the loads |
| `BackfillRaces.TwoCreatorsRepeat` | src/feature_store/jobs.py:1010-1021 | A run in which two attempts both find no table and write every row of a chunk twice |
| `BackfillResults.RunToTheEnd` | src/feature_store/jobs.py:947-1029 | A job that finishes leaves these tables and this summary, against the transform row by row; left alone it finishes exactly when every chunk still to be done runs and is not rejected |
| `Artifacts.OnlyTheSweepDeletes` | src/feature_store/jobs.py:593-596 | A published result disappears only through the expiry sweep and only once expired, whatever losing attempts do and whatever any clock says |
| `Artifacts.StoreExactly` | src/feature_store/jobs.py:812-848 | Over every run and for arbitrary clocks: a historical job has its input exactly until a sweep of it deletes, and the published result of a succeeded one is in place exactly until a sweep takes it |
| `Artifacts.RetentionExactly` | src/feature_store/jobs.py:283-349 | Over every run, every pending, retrying or running historical job has its input at every moment if and only if no retry's update lands on a job whose artifacts a sweep has deleted; for a retry checked at once, that is the expiry check refusing it |
| `PublishedResults.ResultsExactly` | src/feature_store/jobs.py:812-848 | Over every run, every published result whose job is not marked as cleaned is in place at every moment if and only if no sweep of a job with a published result crashes between deleting and committing |
| `Artifacts.UndisturbedRunsRetain` | src/feature_store/jobs.py:283-349 | When no sweep crashes halfway and every retry is checked and lands at once, every input is kept for arbitrary clocks |
| `Artifacts.CrashedSweepLosesInput` | src/feature_store/jobs.py:291-296 | A run in which a sweep crashes after deleting, and a retry whose clock is one microsecond behind the expiry revives the job without an input |
| `Artifacts.SweepBetweenCheckAndUpdate` | src/feature_store/jobs.py:284-349 | A run with correct clocks in which a complete sweep commits between the check and the update of a retry, and the update revives the job without an input |
| `Artifacts.Store.CleanupExpired` | src/feature_store/jobs.py:812-848 | The sweep deletes and marks exactly the expired jobs, each once, and says how many |
| `ArtifactRuns.CreationHappens` | src/feature_store/jobs.py:130-165 | Creation writes the input before the row and then adds a pending job, so the job never exists without it |
| `ArtifactRuns.HolderPublishes` | src/feature_store/jobs.py:571-596 | The lease holder that writes its result and publishes it succeeds: the job names that result and it is in place |
| `ArtifactRuns.LoserCleansUp` | src/feature_store/jobs.py:593-596 | An attempt that has lost its lease publishes nothing and deletes its own result and no other |
| `ArtifactRuns.SweepHappens` | src/feature_store/jobs.py:812-848 | Sweeping an expired job deletes its input and every result of its attempts, marks it and touches nothing else |
| `Registry.AdmittedExactly` | src/feature_store/registry.py:180-247 | An object is admitted exactly when it changes no stored object and refers only to available ones |
| `Registry.Registry.Plan` | src/feature_store/registry.py:164-264 | The loop that grows what is available computes that plan |
| `Registry.Registry.Apply` | src/feature_store/registry.py:120-159 | Succeeds exactly when nothing is rejected and no key is created twice; otherwise the store is untouched and the error names a missing reference before any conflict |
| `Registry.ApplyKeepsClosed` | src/feature_store/registry.py:194-241 | Every apply keeps: stored views and services refer only to stored objects and existing features |
| `Registry.RegistryOverRuns` | src/feature_store/registry.py:120-159 | Over any sequence of applies the registry is closed and nothing stored ever changes |
| `Registry.UnchangedExactly` | src/feature_store/registry.py:242-247 | A manifest plans as entirely unchanged exactly when all its objects are stored as given |
| `Registry.ApplyTwice` | src/feature_store/registry.py:120-159 | After a successful apply the same manifest plans as unchanged and applying it again does nothing |
| `Registry.RepeatedKeyIsRefused` | src/feature_store/registry.py:140-153 | A manifest that creates one key twice is refused as a whole |
| `ManifestApplies.AppliesExactly` | src/feature_store/registry.py:120-264 | Without the plan: a manifest is accepted exactly when it changes nothing stored, no list creates a key twice, and every reference leads to something stored or in the manifest, wherever it stands; then exactly the old store and every object of every list are stored |
| `Lifecycle.ReplacementGraph` | src/feature_store/registry.py:334-386 | In every reachable state a replacement exists, matches kind and granularity and is directly active; walks along replacements have length at most one, so there is no cycle |
| `Lifecycle.DependentsStay` | src/feature_store/registry.py:343-354 | No other operation pulls a replacement from under its dependents |
| `Lifecycle.DeprecatesExactly` | src/feature_store/registry.py:334-374 | Deprecation goes through exactly when the target exists, nobody depends on it, and the replacement is another existing target of the same kind and granularity that is not deprecated, nor is its view; then nothing but that target changes |
| `Lifecycle.ReactivatesExactly` | src/feature_store/registry.py:376-386 | Afterwards the target is active without a replacement, and nothing else has changed |
| `Lifecycle.Session.ValidateReplacement` | src/feature_store/registry.py:552-578 | Accepts exactly an admissible replacement; the cycle walk ends on its first pass |
| `Lifecycle.Session.DeprecateTarget` | src/feature_store/registry.py:334-374 | Goes through exactly when the target exists, the replacement is admissible and nobody depends on the target |
| `Lifecycle.Session.ReactivateTarget` | src/feature_store/registry.py:376-386 | Clears the deprecation of an existing target and changes nothing else |
| `Lifecycle.Session.PatchMetadata` | src/feature_store/registry.py:307-332 | Refused exactly for an unknown target; otherwise its metadata is the given one, while the store, every deprecation, every replacement and every other target are as they were and the replacement graph stays sound |
| `Lifecycle.Session.HasDependent` | src/feature_store/registry.py:343-350 | Finds a deprecated target with this replacement exactly when there is one |
| `Lifecycle.RunKeepsLife` | src/feature_store/registry.py:307-386 | Those facts hold after every sequence of operations and applies |
| `JsonPointer.EscapeRoundTrip` | src/feature_store/registry.py:52-54 | Escaping leaves no slash and can be undone (section 3 of RFC 6901) |
| `JsonPointer.PointerRoundTrip` | src/feature_store/registry.py:52-54 | Reading a rendered pointer back gives its tokens, so different paths have different pointers |
| `JsonPointer.DecimalRoundTrip` | src/feature_store/registry.py:53 | Different list indexes have different tokens |
| `Differences.ReportsAreLocated` | src/feature_store/registry.py:57-113 | The list of the source is the list by token paths with every path rendered |
| `DiffResults.ReportsAreFaithful` | src/feature_store/registry.py:57-113 | The list is empty exactly when the two values are equal as the source compares them, and its pointers are pairwise distinct |
| `DiffValues.ReportsHold` | src/feature_store/registry.py:57-113 | Every reported difference is one: what it calls added, removed or changed stands at its path in the one specification, the other, or both, and changed values differ |
| `DiffResults.PatchIsMerge` | src/feature_store/registry.py:57-113 | Patching the existing value with its list gives the proposed one, keeping the existing spelling of equal numbers |
| `DiffResults.ListRebuildsProposed` | src/feature_store/registry.py:57-113 | The reported list rebuilds an object-rooted proposal up to equality, and exactly if and only if no number is spelled in two ways |
| `DiffResults.ListDeterminesProposed` | src/feature_store/registry.py:57-113 | The existing specification and the list determine the proposed one |
| `DiffResults.EmptyListForConflict` | src/feature_store/registry.py:184-193 | A changed fingerprint comes with an empty list exactly when the two differ only in the spelling of equal numbers |
| `DiffResults.IntegerForFloat` | src/feature_store/registry.py:104 | An instance: a bound of 1 proposed as 1.0 |

## Left out

- Materialization.WatermarkSound: assumes, as the lookback setting is meant to ensure, that a row older than the watermark less the lookback in a successful run's table was already in the table of the previous success.
- Materialization.ActKeepsInv: a materialization of an explicit range has no reservation and no watermark; it appears only as online writes of others.
- StreamPipeline.ExactlyOnce: no backfill writes the view, and reading, comparing and appending are one step; `SplitAppend` is the same pipeline with two.
- StreamConsumer.Consumer.Session: one consumer with in-order delivery per partition; group rebalances and consumer error events are not part of this model, and handing a message to the producer counts as dead-lettering it.
- Artifacts.StoreExactly: a commit and the refresh after it are one step, in creation and in finalization; in the source a refresh that raises after its commit would delete the input or result just committed.
- JobSession.Session.RetryJob: the error texts of refusals are not distinguished.
- JobSession.Session.FinalizeFailure: the classification of exceptions into terminal and retryable is a parameter; worker ids, error texts, start and heartbeat times and result metadata other than freshness are omitted.
- BackfillRun.Job.Attempt: creating a missing view is one step there (`BackfillRaces` has two); the transform over the fixed source is a deterministic parameter that gives typed rows or raises; the lookback of its load and the checks of its output columns are inside it, and checkpoint texts are taken as already decoded.
- Quality.Validate: not-a-number values are not modelled, and bounded cells are numbers because the dtype checks ran first.
- PointInTime.QueryTable: the requested features arrive resolved and grouped (`FeatureRequests` models both); the age column that is added and dropped for metrics, registry lookups of TTL and join keys, and timezone checks are left out.
- PointInTime.TrainServeAgreement: the canonical entity key is an injective parameter, and events carry exactly the join keys.
- Online.Redis.ReadAll: features arrive resolved and grouped (`FeatureRequests` models both), the view a join key is missing from is not named, and stored texts are not decoded.
- Registry.Registry.Apply: field validation of objects, fingerprint text and the warning lists of the result are left out; equal fingerprints mean equal specifications, and the four available sets are one map.
- Lifecycle.Session.PatchMetadata: owners, tags and links are one text.
- Differences.ReportsAreLocated: sorting of keys is by code unit, and non-finite numbers are not modelled.
- Settings are nonnegative parameters; the session identity map and row locks are replaced by serial transactions.
- The HTTP API, the SDK, the command line, the demo and the benchmarks only pass data on.
- Metrics, logging, dashboards, migrations and settings parsing hold no property.
- Delta, Parquet, Redis, Kafka and SQL engines are ordered tables, maps and logs; user SQL is uninterpreted.
