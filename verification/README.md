# Verified models of the BidPilot ingestion service

BidPilot watches public procurement sources, merges the notices that describe one tender, reads their documents with
language models and warns teams about deadlines. Its Python ingestion service keeps its promises through small stateful
algorithms: a durable job queue shared by many workers, idempotency keys, online clustering, a model gateway with
circuit breakers, alerts that must survive moving deadlines. This project states those promises as theorems about Dafny
models of the code and proves them for all inputs and all runs.

`dafny verify dfyconfig.toml` checks everything.

## How the models are built

A table of the database is a map or a sequence; a committed transaction is one step. Code that updates rows, fields or
collections in place is a class with methods, or a method with the source's loop, and each is tied by its `ensures` to a
function of the old state. Protocols are state machines over those functions: a step is one committed transaction, one
exception or one crash; a run is any sequence of enabled steps; every theorem about runs quantifies over all of them.
What the code does not control (clocks, providers, transports, adapters, text normalisation, configuration) is a
parameter, so a theorem holds whatever these do.

| module | what it models |
|---|---|
| `JobQueue`, `WorkerProtocol`, `WorkerRuns`, `WorkerTiming`, `WorkerProcess`, `WorkerLiveness` | the `jobs` table and the multi-worker protocol over it: safety, timing, termination |
| `CronFields`, `Scheduler` | cron fields and idempotent ticks |
| `Pipeline`, `PipelineRuns`, `AmendmentExample`, `UpsertRuns` | the outbox of stored payloads, the version counter of notices, and normalisations by several workers at once |
| `OrderedUnion`, `NoticeMerge`, `CanonicalNotice`, `TitleSimilarity`, `TenderIdentity`, `TenderEvidence`, `Clustering` | merging, comparing and clustering notices |
| `WorkingDays`, `DeadlineAlerts`, `Notifications`, `NotificationRuns`, `TickRuns`, `EscalationRuns`, `DeliveryRuns` | deadline alerts and their escalation; ticks, escalation sweeps and deliveries by several workers at once |
| `CircuitBreaker`, `Gateway`, `GatewayRuns`, `LruStore`, `GatewayCache`, `SchemaCheck` | the model gateway, its cache and its validator |
| `PageWindows`, `PromptText`, `GreedyMatching`, `ExtractionUnion` | document windows, prompt text and the evaluation harness |
| `Ids`, `Common` | sortable identifiers; shared helpers |

## Where the code and its documentation part

The models follow the code. Where the two differ, the difference is proved, with the exact condition under which the
documented property holds.

- The half-open breaker does not let one call through: after a reset it refuses exactly for the minute after the fifth
  further failure, whenever those five happen (`CircuitBreaker.ResetGrantsAFreshBudget`). Six failures in a row still
  always take a minute.
- A fallback model's answer is cached under the requested model's key and later attributed to that model. The attribution
  is right exactly if the requested model answered the first call: its breaker let the call through, or the tier fallen
  back to has the same model and its breaker had reset by then (`GatewayCache.CachedAttributionExact`, with a run in
  `FallbackIsMisattributed`).
- The alert that fires is the furthest unsent offset, not the nearest; it is the nearest exactly if no two are waiting
  (`DeadlineAlerts.NearestFiresExact`, `FurthestOvertakes`). A tender followed late works through 14, 7, 3, 1 one tick at a
  time.
- A duplicate tick can raise an alert twice, and so send it twice: nothing locks what a tick has read. One step makes it
  possible exactly if it finds an alert due for a tender that another uncommitted tick is about to raise
  (`TickRuns.RaisedTwiceExact`, with a run in `OverlappingTicksRaiseTwice`). Ticks that follow each other raise each alert
  once.
- A tender can be escalated twice. One step makes it possible exactly if it reads a row that calls for an escalation which
  an uncommitted sweep is already about to insert, or two rows that call for one tender
  (`EscalationRuns.EscalatedTwiceExact`). So where overlapping ticks have doubled a J-3 alert, as they can any alert
  (`TickRuns.AnyRungIsRaisedTwice`), one sweep with nothing beside it escalates twice (`OneSweepEscalatesTwice`).
- The table does not rule double sends out either. A sweep over the organisations commits all its marks at its end. One
  step makes a double send possible exactly if it reads a row that an uncommitted sweep has in hand, or loses a sweep
  after a message of any organisation has left (`DeliveryRuns.DoubleSendExact`, with both runs). As long as no
  organisation is read before the sweeps that have read it commit, and none is lost after mail has left, nobody gets a
  message twice (`DeliveryRuns.OneAtATimeSendsOnce`).
- `complete` and `fail` do not check who holds the lock. Exclusive ownership survives a reclaim sweep if and only if it
  spares live holders (`WorkerRuns.SweepExact`). A done job can come back if and only if a live worker still holds a claim
  of it, and a dead one if and only if that worker may yet complete it or counts an attempt left
  (`WorkerRuns.FinalityExact`, with a run in `WorkerTiming.LiveReclaimUndoesDone`).
- Without a reclaim a job can still be finished exactly if no crash has stranded it (`WorkerLiveness.FinishesExact`).
- A window of k pages can render to k - 2 characters more than its budget (`PromptText.WindowTextLength`).
- A later deadline moves an alert earlier exactly if it gains no working day and falls earlier in the day
  (`WorkingDays.LaterDeadlineEarlierAlert`).
- Normalising an amended notice again takes back its status `amended`, and changes nothing else
  (`PipelineRuns.RepeatExact`). An amendment enqueues a notification job exactly if no earlier amendment of the notice
  carried the same adapter version (`PipelineRuns.AmendmentJobInRuns`). No amendment is clustered anew: a notice is sent
  to clustering at its first normalisation and never again (`PipelineRuns.KnownNoticeIsNotClusteredAgain`,
  `ClusteredAtFirstSight`). So with the default version the second amendment enqueues no job at all
  (`AmendmentExample.SecondAmendmentIsSilent`).
- Two normalisations of one notice that overlap can lose a version row or set the version back. A commit keeps the count
  right if and only if what it read still leads to the version and the change that are due (`UpsertRuns.CountExact`, with
  runs in `ConcurrentAmendmentsLoseAVersion` and `StaleRepeatFallsBack`).
- `merge` is associative for validated buyers; an empty SIREN, which validation excludes, would break it
  (`NoticeMerge.EmptySirenBreaksAssociativity`).

## Model

| member | source | states |
|---|---|---|
| `JobQueue.Enqueued` | services/ingestion/bidpilot_ingestion/queue.py:96-139 | Enqueueing keeps keys unique, leaves every existing row alone and always leaves the key taken; an unknown kind is an error. |
| `JobQueue.Queue.Enqueue` | services/ingestion/bidpilot_ingestion/queue.py:96-139 | Inserts one queued row and touches no other, or does nothing exactly when the key exists, and says which; a taken id and an unknown kind are errors. |
| `JobQueue.Queue.Select` | services/ingestion/bidpilot_ingestion/queue.py:152-158 | The rows picked are runnable, of the kinds asked for, unlocked, in order of `run_at`, and no eligible row left out would have come before them. |
| `JobQueue.SelectionExact` | services/ingestion/bidpilot_ingestion/queue.py:148-158 | Stated on the rows themselves: what a claim takes is due, unlocked, of the kinds asked for or of any if none were; at most as many as the limit, each once, the longest due first; and such a row is left only if the limit is used up by rows due no later. |
| `JobQueue.ClaimsRespectKinds` | services/ingestion/bidpilot_ingestion/queue.py:148-154 | A worker restricted to some kinds is handed jobs of those only, and passes over a row that is due and unlocked only if its kind is not among them or the limit is reached; without a list it passes over no kind. |
| `JobQueue.Queue.Earliest` | services/ingestion/bidpilot_ingestion/queue.py:155 | The next row in order of `run_at`. |
| `JobQueue.Queue.Claim` | services/ingestion/bidpilot_ingestion/queue.py:142-181 | Exactly the selected rows become running, locked and counted; all others, and every row of a kind not asked for, stay as they are; each job handed out is its row, without counting the run in progress. |
| `JobQueue.Queue.Complete` | services/ingestion/bidpilot_ingestion/queue.py:184-188 | The row is done and unlocked, whoever held it; nothing else about it changes, nor any other row. |
| `JobQueue.Queue.Fail` | services/ingestion/bidpilot_ingestion/queue.py:191-221 | Dead exactly when the attempts are used up; otherwise queued again after 30, 120, 600, 1800 and then 3600 seconds. The error is cut at 2000 characters; nothing else changes. |
| `JobQueue.Queue.ReclaimStale` | services/ingestion/bidpilot_ingestion/queue.py:224-241 | Exactly the running rows locked for too long return to the queue, unlocked; an error they had stays, otherwise the timeout is noted; attempts and `run_at` stay, as does every other row; and they are counted. |
| `JobQueue.BackoffNeverShrinks` | services/ingestion/bidpilot_ingestion/queue.py:62-67 | Delays never shrink, stay within 30 and 3600 seconds, and add up to 2550 seconds over the default budget. |
| `WorkerProtocol.StepKeepsInv` | services/ingestion/bidpilot_ingestion/worker.py:131-158 | Every step of every worker keeps keys unique, live snapshots distinct, claims accounted for and commits before completion. |
| `WorkerRuns.ClaimBudget` | services/ingestion/bidpilot_ingestion/queue.py:142-241 | In every run a job is claimed at most `max_attempts` times plus once per reclaim. |
| `WorkerRuns.DoneMeansHandled` | services/ingestion/bidpilot_ingestion/worker.py:137-158 | In every run no key has two jobs, and a job is done only after a handler transaction for it committed. |
| `WorkerRuns.JobsAreNeverLost` | services/ingestion/bidpilot_ingestion/queue.py:96-241 | No run removes a job or changes what it is about, and its attempts only grow. |
| `WorkerRuns.StepKeepsExclusive` | services/ingestion/bidpilot_ingestion/worker.py:131-158 | A step that reclaims from dead holders only keeps ownership exclusive. |
| `WorkerRuns.SweepExact` | services/ingestion/bidpilot_ingestion/queue.py:224-241 | A reclaim sweep keeps ownership exclusive if and only if it reclaims from dead holders only. |
| `WorkerRuns.ExclusiveOwnership` | services/ingestion/bidpilot_ingestion/queue.py:142-241 | When only dead holders are reclaimed, no worker but the one a running job's lock names holds it, and that one holds it unless it crashed since this claim; every other job has no holder. |
| `WorkerRuns.FinishedIsFrozen` | services/ingestion/bidpilot_ingestion/queue.py:184-241 | In any run, whatever is reclaimed, the row of a done or dead job that no live worker holds never changes. |
| `WorkerRuns.FinishedIsFinal` | services/ingestion/bidpilot_ingestion/queue.py:184-241 | So where ownership is exclusive, done and dead jobs never change again, even if later sweeps reclaim from live holders. |
| `WorkerRuns.FinalityExact` | services/ingestion/bidpilot_ingestion/queue.py:184-221 | A done job can leave done in some run if and only if a live worker holds a claim of it; a dead job can leave dead if and only if one does that may yet complete it or counts an attempt left. |
| `WorkerRuns.LostSourcesAreVisible` | services/ingestion/bidpilot_ingestion/worker.py:150-157 | In such runs, from the empty table, a source fetch that dies is recorded as lost exactly once, and nothing else ever is. |
| `WorkerTiming.DeathTakesTheWholeBackoff` | services/ingestion/bidpilot_ingestion/queue.py:191-221 | Without reclaims a job dies after exactly its attempts and no sooner than the summed delays after its first failure: 2550 seconds by default. |
| `WorkerTiming.StepBurnsFuel` | services/ingestion/bidpilot_ingestion/queue.py:142-221 | Without reclaims each change to a row lowers a measure that is zero exactly when the job is finished. |
| `WorkerTiming.ChangesAreBounded` | services/ingestion/bidpilot_ingestion/queue.py:142-221 | So the row of a job changes only a bounded number of times over any such run. |
| `WorkerLiveness.EveryUnstrandedJobFinishes` | services/ingestion/bidpilot_ingestion/worker.py:131-158 | From any world that quiet runs lead to, whatever handlers do, a run of live workers - claiming whatever is first in line, nothing locked - finishes every job that no crash has stranded and only those, within three steps per unit of fuel. |
| `WorkerLiveness.EveryFairRunEnds` | services/ingestion/bidpilot_ingestion/worker.py:131-158 | Every run of such workers, however they are scheduled, has at most that many steps, and cannot be continued if and only if exactly the jobs that no crash has stranded are finished. |
| `WorkerLiveness.EveryJobFinishes` | services/ingestion/bidpilot_ingestion/worker.py:131-158 | So if every running job is held by a live worker, all jobs reach done or dead. |
| `WorkerLiveness.FirstInLineIsTaken` | services/ingestion/bidpilot_ingestion/queue.py:142-181 | A free worker can take the queued job with the least `run_at`, once that time has come. |
| `WorkerLiveness.StrandedForEver` | services/ingestion/bidpilot_ingestion/worker.py:131-158 | Without a reclaim nothing ever touches the row of a job whose holder crashed. |
| `WorkerLiveness.FinishesExact` | services/ingestion/bidpilot_ingestion/worker.py:131-158 | A job can reach done or dead without a reclaim if and only if it is not stranded. |
| `WorkerLiveness.CrashStrands` | services/ingestion/bidpilot_ingestion/worker.py:134-136 | A crash strands exactly the job in hand. |
| `WorkerLiveness.QuietRunsLeadToReady` | services/ingestion/bidpilot_ingestion/worker.py:131-158 | Every run without reclaims from the empty table leads to such a world, once there is a worker. |
| `WorkerTiming.LiveReclaimUndoesDone` | services/ingestion/bidpilot_ingestion/queue.py:184-241 | A run in which a live holder, reclaimed as the sweep does after half an hour, fails late and puts a done job back in the queue. |
| `WorkerProcess.ProcessOne` | services/ingestion/bidpilot_ingestion/worker.py:131-158 | One pass, with whatever rows others have locked, claims the earliest row due, of the kinds asked for, or none exactly if there is none. The row ends done if its kind has a handler and nothing raised, and otherwise dead or due again with the first error on record. A source fetch that dies is reported. The pass is a run of the protocol. |
| `WorkerProcess.EnqueuedKindsAreHandled` | services/ingestion/bidpilot_ingestion/worker.py:117-128 | Every kind that the scheduler or the pipeline enqueues is declared and has a handler; besides these only matching and inbound mail have one. |
| `CronFields.ParseField` | services/ingestion/bidpilot_ingestion/scheduler.py:55-74 | The loop computes the field's declarative meaning: the in-range values of any part, `*` for all, an error when a number does not parse. |
| `CronFields.SplitExact` | services/ingestion/bidpilot_ingestion/scheduler.py:62-67 | Splitting a text at a character gives the one list of parts without it that glue back to the text. |
| `CronFields.DenotesExact` | services/ingestion/bidpilot_ingestion/scheduler.py:63-72 | Exactly which range a part stands for: `*` or nothing the whole range, `n` itself, `a-b` from `a` to `b`, and with `/k` every k-th, a step below 1 counting as 1. |
| `CronFields.FieldExact` | services/ingestion/bidpilot_ingestion/scheduler.py:55-74 | For any text: the field can be read if and only if every part can, and then it lets through exactly the values in range that some part selects, or all for `*`. |
| `CronFields.FieldRoundTrip` | services/ingestion/bidpilot_ingestion/scheduler.py:55-74 | Parsing the comma-joined decimals of a non-empty set in range gives that set back. |
| `Scheduler.CronExact` | services/ingestion/bidpilot_ingestion/scheduler.py:95-106 | A schedule that can be read matches exactly if its five fields, in order, select the minute, hour, day, month and weekday, weekdays counting from Sunday. |
| `Scheduler.PrintedScheduleFires` | services/ingestion/bidpilot_ingestion/scheduler.py:77-106 | For every schedule printed as five `*` or lists of numbers: the source is fetched, under the stamp of the minute, exactly when minute, hour, day, month and weekday (Sunday 0, Monday 1) are each among those chosen. |
| `Scheduler.FetchedWhenDue` | services/ingestion/bidpilot_ingestion/scheduler.py:131-147 | A tick holds a fetch of a source exactly if a schedule of that source fires at its minute. |
| `Scheduler.BadScheduleIsSkipped` | services/ingestion/bidpilot_ingestion/scheduler.py:132-137 | A schedule without five fields, or with a number that does not parse, costs its own source the fetch; all other entries are as without it. |
| `Scheduler.DueExact` | services/ingestion/bidpilot_ingestion/scheduler.py:119-156 | What a tick makes due, spelled out: the fetches of the sources whose schedule fires, in order, and then each platform job under the number of the period in which the minute begins. |
| `Scheduler.DueEntries` | services/ingestion/bidpilot_ingestion/scheduler.py:119-156 | What a tick enqueues: the fetches whose schedule matches, a malformed schedule being skipped, and each platform job under its time bucket. |
| `Scheduler.Tick` | services/ingestion/bidpilot_ingestion/scheduler.py:119-156 | A tick enqueues exactly those, as one transaction. |
| `Scheduler.KeysAfterAll` | services/ingestion/bidpilot_ingestion/scheduler.py:14-16 | Which keys end up in the queue depends only on the set of entries enqueued, not on order or repetition. |
| `Scheduler.OneJobPerDueKey` | services/ingestion/bidpilot_ingestion/scheduler.py:119-156 | However ticks interleave and repeat, they leave the jobs that were there alone and add exactly one for each key due at a ticked minute that was not there. |
| `Scheduler.AtMostOneJobPerPeriod` | services/ingestion/bidpilot_ingestion/scheduler.py:109-116 | Ticks between two instants leave at most one job of a platform kind per period touched. |
| `Scheduler.PlatformIsOneEach` | services/ingestion/bidpilot_ingestion/scheduler.py:30-44 | The platform schedule names each kind once, no source fetch, and periods of whole minutes. |
| `Scheduler.PlatformJobsPerPeriod` | services/ingestion/bidpilot_ingestion/scheduler.py:30-44 | So health checks and deadline alerts are enqueued at most once a quarter of an hour, deliveries once in five minutes, the digest once an hour and vault freshness once in six hours. |
| `Pipeline.FetchUntil` | services/ingestion/bidpilot_ingestion/pipeline.py:172-190 | The fetch loop stores each new payload, enqueues its job, and stops after the limit, having dealt with at least one notice. |
| `Pipeline.FetchStepExact` | services/ingestion/bidpilot_ingestion/pipeline.py:127-190 | One fetched notice: nothing if a row with its source, id and hash is stored, a missing hash being the empty one; otherwise its row, untouched, and one normalisation job. It raises only when an id is in use. |
| `Pipeline.Database.RunSourceFetch` | services/ingestion/bidpilot_ingestion/pipeline.py:156-212 | A fetch commits all of that or nothing; a disabled source changes nothing. |
| `Pipeline.Database.UpsertNotice` | services/ingestion/bidpilot_ingestion/pipeline.py:299-401 | A changed known hash is an amendment: new version, status amended, one version row with both hashes. |
| `Pipeline.Database.RunNormalize` | services/ingestion/bidpilot_ingestion/pipeline.py:242-285 | Upserts the notice and enqueues clustering and, for an amendment, the notification, together or not at all. |
| `Pipeline.NormalizeJobsExact` | services/ingestion/bidpilot_ingestion/pipeline.py:272-284 | It enqueues the clustering under version 1 and, only for an amendment, the notification under the version that the adapter states; each unless its key is taken. |
| `PipelineRuns.KeysTellKinds` | services/ingestion/bidpilot_ingestion/queue.py:91-93 | Equal idempotency keys belong to one kind and, with equal versions, to one entity. |
| `PipelineRuns.StepKeepsOutbox` | services/ingestion/bidpilot_ingestion/pipeline.py:175-185 | Fetches, failures, normalisations, other enqueues and queue work all keep payloads and their jobs together. |
| `PipelineRuns.FetchingAgainChangesNothing` | services/ingestion/bidpilot_ingestion/pipeline.py:127-190 | A fetch of a disabled source, or of a window that was fetched before, changes nothing at all. |
| `PipelineRuns.ExactlyOneJobEach` | services/ingestion/bidpilot_ingestion/pipeline.py:156-185 | In every run each stored payload has exactly one normalisation job, and each such job has its payload. |
| `PipelineRuns.ClaimsAreWork` | services/ingestion/bidpilot_ingestion/queue.py:142-188 | Claims and completions change no job's kind, key or payload, so runs may contain any of them. |
| `PipelineRuns.FailuresAreWork` | services/ingestion/bidpilot_ingestion/queue.py:191-241 | Nor do failures and reclaims. |
| `PipelineRuns.VersionsCountChanges` | services/ingestion/bidpilot_ingestion/pipeline.py:319-399 | In every run from the empty tables a notice's version is 1 plus the changes between consecutive known hashes; its version rows are exactly 2 to that version, each with the right pair of hashes. |
| `PipelineRuns.EveryChangeCounts` | services/ingestion/bidpilot_ingestion/pipeline.py:319-321 | With a hash on every row no change goes uncounted. |
| `PipelineRuns.RepeatExact` | services/ingestion/bidpilot_ingestion/pipeline.py:242-401 | Normalising a row twice enqueues nothing more, adds no version and changes only the status, back to the adapter's; it changes nothing if and only if the row was no amendment or the adapter itself says amended. |
| `AmendmentExample.RepeatTakesBackAmended` | services/ingestion/bidpilot_ingestion/pipeline.py:319-327 | A run in which a repeat turns amended into open. |
| `PipelineRuns.AmendmentJobExact` | services/ingestion/bidpilot_ingestion/pipeline.py:273-284 | An amendment with fresh ids enqueues its notification job if and only if the key of its version is free. |
| `PipelineRuns.AmendmentJobInRuns` | services/ingestion/bidpilot_ingestion/pipeline.py:273-284 | After any run from the empty tables in which nothing else enqueues notifications about the notice, that is if and only if no earlier amendment of it carried the same version. |
| `AmendmentExample.SecondAmendmentIsSilent` | services/ingestion/bidpilot_ingestion/canonical.py:221 | A run whose second amendment, with the default version, enqueues no job. |
| `PipelineRuns.LaterAmendmentIsSilent` | services/ingestion/bidpilot_ingestion/pipeline.py:273-284 | Whatever happens in between, any other enqueues included, an amendment whose adapter version was used by an earlier amendment enqueues no job. |
| `PipelineRuns.KnownNoticeIsNotClusteredAgain` | services/ingestion/bidpilot_ingestion/pipeline.py:273-274 | In every run, whatever else is enqueued, no normalisation of a known notice, amendment or not, enqueues a clustering job. |
| `PipelineRuns.ClusteredAtFirstSight` | services/ingestion/bidpilot_ingestion/pipeline.py:273-274 | In every run in which nothing else sends the notice to clustering, a normalisation with fresh ids does so if and only if it is the notice's first. |
| `UpsertRuns.WholeUpsertIsNormalize` | services/ingestion/bidpilot_ingestion/pipeline.py:299-401 | Read and committed without a break, an upsert is that of `Normalized`. |
| `UpsertRuns.LostUpsertIsMadeUp` | services/ingestion/bidpilot_ingestion/pipeline.py:299-401 | A normalisation that is lost leaves notices and versions as they were, and running it again makes up for it. |
| `UpsertRuns.CommitExact` | services/ingestion/bidpilot_ingestion/pipeline.py:310-399 | A commit leaves version and version rows in step with the hashes committed if and only if what it read is up to date in version and, where a change is due, in hash. |
| `UpsertRuns.CountExact` | services/ingestion/bidpilot_ingestion/pipeline.py:310-399 | So after any run whose commits were up to date the versions count the changes, and after one more step they do if and only if that one is too. |
| `UpsertRuns.OneAtATimeCounts` | services/ingestion/bidpilot_ingestion/pipeline.py:310-399 | As long as the normalisations of each notice follow one another, the versions count its changes. |
| `UpsertRuns.ConcurrentAmendmentsLoseAVersion` | services/ingestion/bidpilot_ingestion/pipeline.py:373-399 | A run in which two new versions are normalised together: the hash changes twice, the version is 2 and one change has no row. |
| `UpsertRuns.StaleRepeatFallsBack` | services/ingestion/bidpilot_ingestion/pipeline.py:310-321 | A run in which an old row is normalised again beside a new one: the version goes from 2 back to 1. |
| `NoticeMerge.MergeAssociative` | services/ingestion/bidpilot_ingestion/dedupe.py:256-322 | Merging whole records is associative for a validated middle buyer. |
| `NoticeMerge.MergeAbsorbs` | services/ingestion/bidpilot_ingestion/dedupe.py:256-322 | Merging the same record again changes nothing. |
| `NoticeMerge.MergeKeeps` | services/ingestion/bidpilot_ingestion/dedupe.py:256-322 | References and document links are exactly the union; type and first reference stay those of the canonical notice. |
| `NoticeMerge.AbsorbingABundle` | services/ingestion/bidpilot_ingestion/dedupe.py:256-322 | Absorbing a late bundle equals absorbing its members one by one. |
| `CanonicalNotice.CanonicalSaysTheMost` | services/ingestion/bidpilot_ingestion/dedupe.py:256-322 | However many notices were absorbed, every field in terms of the members: first of the longest texts, earliest publication; deadlines, time zone, visit, buyer name, SIREN, SIRET, total with its currency, procedure type, URLs, lots and award of the first member that knows them; codes of all members once each in order of first appearance; references and documents in order without those an earlier member has; the first member in everything else. |
| `NoticeMerge.EmptySirenBreaksAssociativity` | services/ingestion/bidpilot_ingestion/dedupe.py:296-301 | With an empty SIREN, which validation excludes, associativity fails. |
| `TitleSimilarity.TrigramsExact` | services/ingestion/bidpilot_ingestion/dedupe.py:134-144 | A trigram is any three consecutive characters of the text after two spaces and before one; an empty text has none. |
| `TitleSimilarity.JaccardLaws` | services/ingestion/bidpilot_ingestion/dedupe.py:147-152 | Similarity lies in [0, 1] and is 1 only between equal non-empty trigram sets. |
| `TitleSimilarity.JaccardSymmetric` | services/ingestion/bidpilot_ingestion/dedupe.py:147-152 | Similarity does not depend on the order of the titles. |
| `TitleSimilarity.TriangleInequality` | services/ingestion/bidpilot_ingestion/dedupe.py:147-152 | Its distance obeys the triangle inequality, with the code's 0 for empty sets. |
| `TitleSimilarity.SimilarToACommonTitle` | services/ingestion/bidpilot_ingestion/dedupe.py:147-152 | Two titles each at least 0.6 similar to a third are at least 0.2 similar. |
| `TenderIdentity.VerdictSymmetric` | services/ingestion/bidpilot_ingestion/dedupe.py:193-253 | The whole verdict, details included, is symmetric in its notices. |
| `TenderIdentity.VerdictReflexive` | services/ingestion/bidpilot_ingestion/dedupe.py:206-219 | Every notice matches itself with full confidence. |
| `TenderIdentity.SharedIdMatches` | services/ingestion/bidpilot_ingestion/dedupe.py:206-219 | The verdict is "same publication" if and only if the notices are of one type and share an external id, and it is then a full match. |
| `TenderEvidence.VerdictExact` | services/ingestion/bidpilot_ingestion/dedupe.py:193-253 | Two notices match if and only if they are of one type and share a publication; or a long reference; or the buyer, deadlines within an hour and three fifths of the trigrams of their titles; or the country, embeddings with a cosine of 0.92 and deadlines within a day. The first of these gives reason and confidence. |
| `TenderEvidence.EveryConditionCounts` | services/ingestion/bidpilot_ingestion/dedupe.py:222-251 | No condition can be spared: without a common reference, and with the other rule out of reach, two notices match if and only if all conditions of the one rule hold; with deadlines more than a day apart they never do. |
| `TenderEvidence.BuyerExact` | services/ingestion/bidpilot_ingestion/dedupe.py:166-172 | Buyers agree by key exactly if they have the same SIREN, stated or the first nine digits of the SIRET, or, neither having one, the same non-empty normalised name. |
| `TenderEvidence.KeyMeans` | services/ingestion/bidpilot_ingestion/dedupe.py:166-172 | The key itself is the SIREN after `siren:`, or else the normalised name after `name:`, or else there is none. |
| `TenderEvidence.WeighExact` | services/ingestion/bidpilot_ingestion/dedupe.py:222-253 | Without a common reference: match, reason, confidence and details, the confidence of the title rule being the similarity itself. |
| `TenderEvidence.SharedDetails` | services/ingestion/bidpilot_ingestion/dedupe.py:216-219 | A match by references names exactly the long ids that both have. |
| `TenderEvidence.CosineMeans` | services/ingestion/bidpilot_ingestion/dedupe.py:155-163 | With exact square roots the cosine is the product of the vectors over that of their lengths, and by the inequality of Cauchy and Schwarz it needs no clamping; it is 0 for vectors of different lengths or without length. |
| `TenderIdentity.NeighboursResemble` | services/ingestion/bidpilot_ingestion/dedupe.py:147-152 | Two notices whose titles reach the threshold against a third are at least 0.2 similar. |
| `Clustering.Cluster.Absorb` | services/ingestion/bidpilot_ingestion/dedupe.py:338-348 | Absorbing updates canonical, members and merge record together. |
| `Clustering.FindFit` | services/ingestion/bidpilot_ingestion/dedupe.py:362-375 | The first cluster whose canonical matches, or none. |
| `Clustering.PlaceNotice` | services/ingestion/bidpilot_ingestion/dedupe.py:362-388 | One notice is absorbed by that cluster or opens a new one. |
| `Clustering.ClusterNotices` | services/ingestion/bidpilot_ingestion/dedupe.py:351-389 | The in-place loop yields exactly the first-fit clustering. |
| `Clustering.SourceRulesAreLawful` | services/ingestion/bidpilot_ingestion/dedupe.py:206-219 | The source's comparison and merge satisfy the laws the clustering theorems rest on. |
| `Clustering.NothingLostNothingDoubled` | services/ingestion/bidpilot_ingestion/dedupe.py:351-390 | Members, counts and references add up to the batch; each canonical notice is the merge of its members in order, all of one type; each was accepted by those before it, with the verdict on record, and the confidence is the least of those. |
| `Clustering.TogetherOnEvidence` | services/ingestion/bidpilot_ingestion/dedupe.py:338-390 | Each notice of a cluster but the first was put with those before it on evidence of one of the four kinds, and the record names source, id, reason and confidence. |
| `Clustering.ApartForLackOfEvidence` | services/ingestion/bidpilot_ingestion/dedupe.py:362-390 | Clusters are numbered in order from 000001, and a notice is in a later cluster only because every earlier one, as it then was, had another type or gave no evidence. |
| `Clustering.RefeedingOpensNothing` | services/ingestion/bidpilot_ingestion/dedupe.py:351-389 | Feeding any processed notices again, in any order and number, opens no cluster. |
| `WorkingDays.ComputeWorkingDaysBefore` | services/ingestion/bidpilot_ingestion/alerts.py:58-70 | The countdown loop, proved against its recursive form. |
| `WorkingDays.CountdownLands` | services/ingestion/bidpilot_ingestion/alerts.py:58-70 | It lands on a working day, whole days back, with exactly n working days from there up to the deadline. |
| `WorkingDays.LandsOnAWeekday` | services/ingestion/bidpilot_ingestion/alerts.py:47-70 | In seconds: the same time of day, on one of the first five days of the week. |
| `WorkingDays.LandingIsUnique` | services/ingestion/bidpilot_ingestion/alerts.py:58-70 | There is only one such instant, and more days mean a strictly earlier one. |
| `WorkingDays.MoreNoticeIsEarlier` | services/ingestion/bidpilot_ingestion/alerts.py:58-70 | More notice is strictly earlier. |
| `WorkingDays.FiveMoreIsAWeek` | services/ingestion/bidpilot_ingestion/alerts.py:58-70 | Five more working days are exactly seven days earlier. |
| `WorkingDays.LaterDeadlineEarlierAlert` | services/ingestion/bidpilot_ingestion/alerts.py:58-70 | A later deadline moves an alert earlier if and only if no working day lies between the two and the later one falls earlier in the day. |
| `WorkingDays.LaterDeadlineLaterAlert` | services/ingestion/bidpilot_ingestion/alerts.py:58-70 | So moving a deadline later by whole days never does. |
| `WorkingDays.LaterByHoursCanBeEarlier` | services/ingestion/bidpilot_ingestion/alerts.py:58-70 | From Saturday 23:00 to Sunday 01:00 every alert moves 22 hours earlier. |
| `DeadlineAlerts.DueDeadlineAlerts` | services/ingestion/bidpilot_ingestion/alerts.py:87-125 | The nested loops yield at most one alert per tender, the first due one. |
| `DeadlineAlerts.AlertExact` | services/ingestion/bidpilot_ingestion/alerts.py:99-124 | A tender whose deadline is ahead raises the first of J-14, J-7, J-3 and J-1 that is not on record and whose landing point is not ahead; otherwise nothing. |
| `DeadlineAlerts.FurthestUnsentFires` | services/ingestion/bidpilot_ingestion/alerts.py:108-124 | What fires is the furthest unsent offset; nothing fires only if no unsent offset is due. |
| `DeadlineAlerts.NearestFiresExact` | services/ingestion/bidpilot_ingestion/alerts.py:95-99 | What fires is the nearest waiting offset, as documented, if and only if no two unsent offsets are due. |
| `DeadlineAlerts.FurthestOvertakes` | services/ingestion/bidpilot_ingestion/alerts.py:108-124 | With nothing sent at the J-3 instant, J-14 fires although J-3 is waiting. |
| `Notifications.NotificationTable.RunDeadlineAlerts` | services/ingestion/bidpilot_ingestion/alerts.py:148-226 | One tick appends, in order, an unsent row for each open tender with a deadline ahead and an alert that waits; and counts the tenders and the rows. |
| `Notifications.NotificationTable.EscalateUnacknowledged` | services/ingestion/bidpilot_ingestion/alerts.py:285-344 | One sweep appends an escalation for each unread J-3 alert delivered more than 24 hours ago whose tender has none, and counts them. |
| `Notifications.NotificationTable.Send` | services/ingestion/bidpilot_ingestion/notify.py:207-275 | Marks exactly the pending rows that some recipient's transport accepted, and counts sent and failed. |
| `Notifications.ReachAny` | services/ingestion/bidpilot_ingestion/notify.py:254-261 | Every recipient is tried; one acceptance suffices. |
| `Notifications.PendingExact` | services/ingestion/bidpilot_ingestion/notify.py:231-244 | The rows tried are the oldest unsent ones of the organisation, all of them unless the limit is used up. |
| `NotificationRuns.TickAddsNextRung` | services/ingestion/bidpilot_ingestion/alerts.py:87-125 | For each tender a tick adds the next of 14, 7, 3, 1 if and only if it is due. |
| `NotificationRuns.RaiseClimbs` | services/ingestion/bidpilot_ingestion/alerts.py:148-226 | The same on the table: alerts stay a prefix of 14, 7, 3, 1 and grow by exactly the rung that is due. |
| `NotificationRuns.RowsOnlyMature` | services/ingestion/bidpilot_ingestion/notify.py:262-272 | No step removes a row, changes what it is about, or touches `sent_at` once set. |
| `NotificationRuns.EscalateExact` | services/ingestion/bidpilot_ingestion/alerts.py:300-344 | After a sweep a tender is escalated if and only if it was before or a J-3 alert of it, sent over 24 hours ago and unread, called for it. |
| `NotificationRuns.RunKeepsInv` | services/ingestion/bidpilot_ingestion/alerts.py:300-344 | In every run, whatever deadlines do: alerts of a tender are a prefix of 14, 7, 3, 1; at most one escalation each, justified by its unread J-3 alert, whose delivery began over a day before and reached somebody; `sent_at` only with an acceptance in the course of that delivery. |
| `NotificationRuns.EscalationWaits` | services/ingestion/bidpilot_ingestion/notify.py:262-268 | As `sent_at` is when the delivery began, an escalation comes more than 24 hours, less the length of a delivery, after the acceptance. |
| `NotificationRuns.SentOnce` | services/ingestion/bidpilot_ingestion/notify.py:262-268 | With transactions one after the other, `sent_at` is set at most once. |
| `NotificationRuns.LogExact` | services/ingestion/bidpilot_ingestion/notify.py:228-272 | A delivery, committed or lost, leaves in the log exactly the recipients that accepted a message about a row it had taken. |
| `NotificationRuns.UnreadAlertIsEscalated` | services/ingestion/bidpilot_ingestion/alerts.py:87-344 | For every open tender: three ticks at the J-3 instant, a delivery that somebody accepts and a sweep a day and a second later are a run from the empty table, and it ends with the escalation. |
| `TickRuns.OtherStepsKeepAlerts` | services/ingestion/bidpilot_ingestion/alerts.py:285-344 | Everything but a tick leaves the alerts on record as they are. |
| `TickRuns.WholeTickIsRaise` | services/ingestion/bidpilot_ingestion/alerts.py:148-226 | A tick of one organisation that nothing interrupts is the tick of the table. |
| `TickRuns.LostTickIsMadeUp` | services/ingestion/bidpilot_ingestion/alerts.py:148-226 | A tick that is lost leaves the table as it was, and a later one makes up for it. |
| `TickRuns.RaisedTwiceExact` | services/ingestion/bidpilot_ingestion/alerts.py:13-15 | With ticks of several workers under way and no clash, alerts of every tender are a prefix of 14, 7, 3, 1; one more step makes a second row for an alert possible if and only if it is a clash: an alert comes due for a tender that another uncommitted tick is about to raise. |
| `TickRuns.OneAtATimeRaisesOnce` | services/ingestion/bidpilot_ingestion/alerts.py:148-226 | As long as no tender is read before the ticks that have read it commit, each of its alerts is raised once. |
| `TickRuns.OverlappingTicksRaiseTwice` | services/ingestion/bidpilot_ingestion/alerts.py:159-211 | A run from the empty table in which two ticks read a tender before either has inserted its alert, and both insert it. |
| `TickRuns.AnyRungIsRaisedTwice` | services/ingestion/bidpilot_ingestion/alerts.py:159-211 | From any table, two ticks that overlap insert twice whichever of 14, 7, 3, 1 is next and due. |
| `EscalationRuns.OtherStepsEscalateNothing` | services/ingestion/bidpilot_ingestion/alerts.py:148-226 | Everything but an escalation sweep leaves rows about what they were and adds no escalation. |
| `EscalationRuns.WholeSweepIsEscalate` | services/ingestion/bidpilot_ingestion/alerts.py:300-344 | Over the rows of one organisation, a sweep that nothing interrupts is the sweep of the table. |
| `EscalationRuns.LostSweepIsMadeUp` | services/ingestion/bidpilot_ingestion/alerts.py:285-344 | A sweep that is lost leaves the table as it was, and a later one makes up for it. |
| `EscalationRuns.DueIffCalled` | services/ingestion/bidpilot_ingestion/alerts.py:300-316 | A read finds a tender to escalate if and only if some unread J-3 row of the organisation, sent over a day ago, calls for it; it is then not escalated yet. |
| `EscalationRuns.OnceIffNoTwoCall` | services/ingestion/bidpilot_ingestion/alerts.py:300-344 | The escalations inserted for the rows read name a tender twice if and only if two different rows call for it. |
| `EscalationRuns.ClashMeans` | services/ingestion/bidpilot_ingestion/alerts.py:300-344 | A read clashes, by the rows in the table, if and only if it names a tender that another uncommitted sweep is about to escalate, or leaves its own sweep about to insert two escalations of one tender. |
| `EscalationRuns.EscalatedTwiceExact` | services/ingestion/bidpilot_ingestion/alerts.py:300-344 | With escalation sweeps of several workers under way, whatever the table holds, and no clash, each tender has at most one escalation; one more step makes a second one possible if and only if it is a clash. |
| `EscalationRuns.OneAtATimeEscalatesOnce` | services/ingestion/bidpilot_ingestion/alerts.py:285-344 | As long as no read finds two J-3 rows of one tender, and no organisation is read before the sweeps that have read it commit, each tender is escalated at most once. |
| `EscalationRuns.LadderedIsDistinct` | services/ingestion/bidpilot_ingestion/alerts.py:148-226 | Ticks that raise no alert twice leave at most one J-3 row per tender. |
| `EscalationRuns.OverlappingSweepsEscalateTwice` | services/ingestion/bidpilot_ingestion/alerts.py:300-331 | A run in which two sweeps read an unread J-3 alert before either has inserted its escalation, and both insert it. |
| `EscalationRuns.OneSweepEscalatesTwice` | services/ingestion/bidpilot_ingestion/alerts.py:300-331 | A run in which one sweep finds a J-3 alert on record twice and inserts two escalations. |
| `DeliveryRuns.OtherStepsOnlyAdd` | services/ingestion/bidpilot_ingestion/alerts.py:148-226 | Ticks, acknowledgements and escalations leave deliveries alone: they add unsent rows and touch no `sent_at`. |
| `DeliveryRuns.WholeSweepIsSend` | services/ingestion/bidpilot_ingestion/notify.py:207-275 | A sweep of one organisation that nothing interrupts is the delivery of the table. |
| `DeliveryRuns.FaultExposes` | services/ingestion/bidpilot_ingestion/notify.py:228-272 | With sweeps of several workers under way, each over any organisations and committing all its marks at its end, something becomes open to a second send exactly by a fault: reading a row that an uncommitted sweep has in hand, or losing a sweep after a message has left. |
| `DeliveryRuns.CleanRunSendsOnce` | services/ingestion/bidpilot_ingestion/notify.py:228-272 | A run without a fault sends nobody a message about a row in two sweeps and sets each `sent_at` at most once. |
| `DeliveryRuns.ExposedSendsTwice` | services/ingestion/bidpilot_ingestion/notify.py:228-272 | From any exposed world a run without a further fault sends somebody a message twice. |
| `DeliveryRuns.DoubleSendExact` | services/ingestion/bidpilot_ingestion/notify.py:216-218 | After any run without a fault, one more step makes a double send possible if and only if it is a fault. |
| `DeliveryRuns.OneAtATimeSendsOnce` | services/ingestion/bidpilot_ingestion/notify.py:228-272 | As long as no organisation is read before the sweeps that have read it commit, and none is lost after mail has left, there is no double send. |
| `DeliveryRuns.OverlapSendsTwice` | services/ingestion/bidpilot_ingestion/notify.py:228-268 | A run in which a second worker reads a row that the first has sent but, being at work on its next organisation, not committed: nothing rolls back, the message goes out twice and `sent_at` is rewritten. |
| `DeliveryRuns.LossSendsTwice` | services/ingestion/bidpilot_ingestion/notify.py:228-268 | A run in which a sweep sends for one organisation and is lost in the next: the row is unsent again and the message goes out twice. |
| `CircuitBreaker.Circuit.RecordFailure` | services/ingestion/bidpilot_ingestion/ai/gateway.py:108-111 | Counts, and opens at five. |
| `CircuitBreaker.Circuit.RecordSuccess` | services/ingestion/bidpilot_ingestion/ai/gateway.py:113-115 | Closes and clears. |
| `CircuitBreaker.Circuit.IsOpen` | services/ingestion/bidpilot_ingestion/ai/gateway.py:117-125 | Refuses for a minute after opening, then clears. |
| `CircuitBreaker.CheckTracks` | services/ingestion/bidpilot_ingestion/ai/gateway.py:117-125 | A check keeps what the breaker knows about the failures, and refuses exactly at five. |
| `CircuitBreaker.FailureTracks` | services/ingestion/bidpilot_ingestion/ai/gateway.py:108-111 | So does an admitted failure: each full budget of five is followed by a minute of rest. |
| `CircuitBreaker.SixTakeAMinute` | services/ingestion/bidpilot_ingestion/ai/gateway.py:103-125 | Six failures without a success between them span a minute. |
| `CircuitBreaker.ResetGrantsAFreshBudget` | services/ingestion/bidpilot_ingestion/ai/gateway.py:117-125 | After a reset and any failures of calls let through since, at any times, the breaker refuses if and only if there were five and under a minute has passed since the fifth. |
| `CircuitBreaker.FiveAreLetThrough` | services/ingestion/bidpilot_ingestion/ai/gateway.py:117-125 | Up to five failing calls are let through, at once or spread out. |
| `Gateway.Gateway.TryModel` | services/ingestion/bidpilot_ingestion/ai/gateway.py:201-251 | The retry loop on one model, with its breaker; a schema the validator cannot check escapes it. |
| `Gateway.Gateway.CompleteUncached` | services/ingestion/bidpilot_ingestion/ai/gateway.py:184-251 | The breaker check, the fallback and the attempts, updating the breakers in place. |
| `Gateway.Gateway.Complete` | services/ingestion/bidpilot_ingestion/ai/gateway.py:137-182 | The call with the cache in front of it. |
| `GatewayRuns.AttemptsAreWellMade` | services/ingestion/bidpilot_ingestion/ai/gateway.py:201-251 | At most three calls to one model; each retry hands back the violation of the answer before it with the original message; the last call decides the outcome. |
| `GatewayRuns.HighestAdmittedTier` | services/ingestion/bidpilot_ingestion/ai/gateway.py:184-199 | A call goes to the highest tier from the requested one down that its breaker admits, never up; it fails as open only if all are refused. |
| `GatewayRuns.UncachedKeepsTracked` | services/ingestion/bidpilot_ingestion/ai/gateway.py:184-251 | One call keeps the breakers of all models in step with the failures logged. |
| `GatewayRuns.FailuresAreSpread` | services/ingestion/bidpilot_ingestion/ai/gateway.py:103-251 | Over any sequence of calls, any six failures of a model without a success between take a minute, and a breaker is open exactly at five. |
| `LruStore.MemoryStore.Get` | services/ingestion/bidpilot_ingestion/ai/cache.py:41-50 | An expired entry is dropped; a live one is returned and becomes the most recent. |
| `LruStore.MemoryStore.Set` | services/ingestion/bidpilot_ingestion/ai/cache.py:52-56 | The entry becomes the most recent; the oldest go until the capacity is respected. |
| `LruStore.ResponseCache.Get` | services/ingestion/bidpilot_ingestion/ai/cache.py:68-74 | As the store, counting hits and misses. |
| `LruStore.ResponseCache.Set` | services/ingestion/bidpilot_ingestion/ai/cache.py:76-77 | As the store, with the cache's lifetime. |
| `LruStore.FitsKept` | services/ingestion/bidpilot_ingestion/ai/cache.py:41-56 | Keys stay distinct and the capacity is respected. |
| `LruStore.LargerStoreHitsMore` | services/ingestion/bidpilot_ingestion/ai/cache.py:41-56 | Over any trace the smaller store's recency order is a subsequence of the larger one's, and each of its hits is the same hit in the larger. |
| `LruStore.LargerCacheHitsMore` | services/ingestion/bidpilot_ingestion/ai/cache.py:41-56 | So of two caches that start empty the larger hits whenever the smaller does, with the same value. |
| `LruStore.MissMeansFullTurnover` | services/ingestion/bidpilot_ingestion/ai/cache.py:41-56 | A live entry is missed only if at least as many other keys as the capacity were set or hit since its last touch. |
| `LruStore.HitsAreLatest` | services/ingestion/bidpilot_ingestion/ai/cache.py:41-56 | A hit returns the value of the last set of its key. |
| `GatewayCache.AnsweringModel` | services/ingestion/bidpilot_ingestion/ai/gateway.py:184-199 | An answer comes from the requested model if its breaker lets the call through, and otherwise from the model of a lower tier. |
| `GatewayCache.AttributionExact` | services/ingestion/bidpilot_ingestion/ai/gateway.py:184-199 | Whatever the tiers are configured with, it comes from the requested model if and only if its breaker lets the call through, or the tier fallen back to has the same model and is let through at its own turn. |
| `GatewayCache.AttributionToOwnModel` | services/ingestion/bidpilot_ingestion/ai/gateway.py:184-199 | So where every tier has a model of its own, if and only if no fallback takes place. |
| `GatewayCache.AnswerIsServedAsRequested` | services/ingestion/bidpilot_ingestion/ai/gateway.py:153-173 | Asked again before expiry, with fewer other keys than the capacity touched by the calls in between, the gateway makes no call and attributes the answer to the requested model, whichever gave it. |
| `GatewayCache.CachedAttributionExact` | services/ingestion/bidpilot_ingestion/ai/gateway.py:153-173 | That attribution is right if and only if the requested model answered when the answer was given. |
| `GatewayCache.FallbackIsMisattributed` | services/ingestion/bidpilot_ingestion/ai/gateway.py:153-199 | A run from an empty gateway in which a medium model's answer is attributed to the large one. |
| `GatewayCache.CacheNeverInvents` | services/ingestion/bidpilot_ingestion/ai/gateway.py:153-173 | After any calls, whatever the cache serves for a key is an answer a model gave for that key. |
| `GatewayCache.UncachedIsNotCached` | services/ingestion/bidpilot_ingestion/ai/gateway.py:220-246 | An answer from a model passed the prompt's schema. |
| `SchemaCheck.CheckExact` | services/ingestion/bidpilot_ingestion/ai/schema.py:81-150 | The validator accepts exactly the values in which everything the schema reaches conforms; on rejection the path leads to a real sub-value breaking the reported rule. |
| `SchemaCheck.EqualExact` | services/ingestion/bidpilot_ingestion/ai/schema.py:102-103 | Equality of values is that of a normal form in which booleans and integers are numbers, in lists and objects too. |
| `SchemaCheck.ChoiceExact` | services/ingestion/bidpilot_ingestion/ai/schema.py:102-103 | A value is among the choices of an `enum` exactly if its normal form is among theirs. |
| `SchemaCheck.ExtraExact` | services/ingestion/bidpilot_ingestion/ai/schema.py:141-147 | An object has an extra property exactly if its names are not all among those the schema declares. |
| `SchemaCheck.CheckBlames` | services/ingestion/bidpilot_ingestion/ai/schema.py:81-150 | The reported path walks schema and value together down to the fault. |
| `SchemaCheck.CheckCovers` | services/ingestion/bidpilot_ingestion/ai/schema.py:118-150 | An acceptance has looked at every sub-value the schema reaches. |
| `SchemaCheck.ValidatedIsObject` | services/ingestion/bidpilot_ingestion/ai/schema.py:55-61 | What is returned is a parsed JSON object that satisfies the schema, and every such answer is returned. |
| `PageWindows.PageWindow` | services/ingestion/bidpilot_ingestion/documents.py:166-188 | The pages once each, in order, every window within budget or a single page; an error exactly for a budget that is not positive. |
| `PageWindows.FewestWindows` | services/ingestion/bidpilot_ingestion/documents.py:166-188 | No contiguous split within the budget has fewer windows. |
| `PageWindows.MarkerMeans` | services/ingestion/bidpilot_ingestion/documents.py:178-180 | A page costs its text, its number and eleven characters for the marker and two line breaks. |
| `PromptText.ToPromptText` | services/ingestion/bidpilot_ingestion/documents.py:150-163 | The loop renders the wanted pages, each under its marker. |
| `PromptText.WindowTextLength` | services/ingestion/bidpilot_ingestion/documents.py:150-188 | The text of a k-page window is exactly its accounted cost plus k - 2 characters. |
| `PromptText.OvershootHappens` | services/ingestion/bidpilot_ingestion/documents.py:166-188 | Three pages that fill the budget render to one character more. |
| `PromptText.RenderMeans` | services/ingestion/bidpilot_ingestion/documents.py:150-163 | A rendering is, page by page, the marker with the number, a line break and the text, with a blank line between pages. |
| `PromptText.ParseExact` | services/ingestion/bidpilot_ingestion/documents.py:34 | Reading any text: a marker with digits at its start gives its number and the reading goes on behind it; without one it goes on at the next character. |
| `PromptText.ParseRendered` | services/ingestion/bidpilot_ingestion/documents.py:209-211 | The markers found in a rendering are the page numbers, each followed by the markers in the page's own text. |
| `PromptText.MarkersRoundTrip` | services/ingestion/bidpilot_ingestion/documents.py:150-211 | They are exactly the page numbers if and only if no page's text holds a marker. |
| `GreedyMatching.ScoreAll` | services/ingestion/bidpilot_ingestion/evals.py:131-136 | The scored edges are exactly the pairs reaching the threshold. |
| `GreedyMatching.SortDescending` | services/ingestion/bidpilot_ingestion/evals.py:137 | A permutation, the better score first; of equal scores the later prediction, and of one prediction the later gold item. |
| `GreedyMatching.PickGreedily` | services/ingestion/bidpilot_ingestion/evals.py:139-148 | Best first, skipping whatever is used. |
| `GreedyMatching.MatchRequirements` | services/ingestion/bidpilot_ingestion/evals.py:120-153 | A stable matching for any score function: best first, and every eligible pair left out shares an end with one ahead of it; matched and unmatched indices partition both sides. |
| `GreedyMatching.StableIsUnique` | services/ingestion/bidpilot_ingestion/evals.py:137-148 | An input has only one stable matching, so this says everything about the pairs returned, ties included. |
| `GreedyMatching.HalfAsGoodAsAny` | services/ingestion/bidpilot_ingestion/evals.py:120-153 | It has at least half the pairs and half the total score of any matching over eligible pairs, and is maximal. |
| `GreedyMatching.HalfIsTight` | services/ingestion/bidpilot_ingestion/evals.py:120-153 | Half is the best bound: an input with an eligible matching of two pairs on which every stable matching, the one returned included, has one. |
| `ExtractionUnion.Dedupe` | scripts/run_eval.py:72-97 | The nested loops compute the first-similar union, then number it. |
| `ExtractionUnion.HomeIsFirstSimilar` | scripts/run_eval.py:83-93 | A requirement goes to the first kept item it is at least 0.6 similar to; if there is none it is kept itself. |
| `ExtractionUnion.NothingWeakened` | scripts/run_eval.py:82-93 | Every requirement ends in a kept item whose type was seen there, eliminatory if any was; a disagreement is on record under a seen type other than the final one exactly when there was one. |
| `ExtractionUnion.EliminatoryIsNeverLost` | scripts/run_eval.py:75-78 | An eliminatory requirement ends in an eliminatory item. |
| `ExtractionUnion.KeptAreSeparated` | scripts/run_eval.py:82-93 | Each kept text is below the threshold against every earlier one. |
| `ExtractionUnion.JoiningTwiceIsOnce` | scripts/run_eval.py:82-93 | Joining a joined list changes nothing. |
| `ExtractionUnion.RefsDiffer` | scripts/run_eval.py:95-97 | Each kept item is numbered by its place, from REQ-001, so no two share a reference. |
| `Ids.Encode` | services/ingestion/bidpilot_ingestion/ids.py:23-28 | The digit loop, proved against its recursive form. |
| `Ids.EncodingOrders` | services/ingestion/bidpilot_ingestion/ids.py:23-28 | For any two integers the encodings are ordered, and equal, exactly as their remainders modulo 32^length are. |
| `Ids.EncodingKeepsOrder` | services/ingestion/bidpilot_ingestion/ids.py:23-28 | Below 32^length the encoding is injective and keeps the numeric order. |
| `Ids.IdsSortByTime` | services/ingestion/bidpilot_ingestion/ids.py:31-40 | Ids with one prefix sort by timestamp, then by randomness, and determine both. |
| `Ids.IdsAreUlids` | services/ingestion/bidpilot_ingestion/ids.py:31-40 | An id is its prefix, an underscore, ten characters of time and sixteen of randomness. |
| `Ids.EncodingIsCrockford` | services/ingestion/bidpilot_ingestion/ids.py:17-28 | The 32 digits ascend and are digits or capital letters other than I, L, O and U, and only they are used. |

## Left out

Weaker than the code, on purpose:

- JobQueue.Queue.Claim: hands jobs over in `run_at` order; the order of `RETURNING` rows is unspecified. The rows other claims lock at that moment are a parameter.
- JobQueue.Queue.Fail: requires a job with non-negative attempts, which every claim hands out; Python's negative list index is not modelled.
- WorkerProtocol.StepKeepsInv: workers share one clock that does not go back, and a claim is one committed step.
- Scheduler.Tick: needs instants since 1970; calendar, time stamps, `int()`, `strip()` and splitting on white space are parameters.
- Pipeline.Database.RunSourceFetch: leaves out the cursor watermark and the source's health columns.
- PipelineRuns.VersionsCountChanges: a normalisation is one step; what overlapping ones do to the count is the subject of `UpsertRuns`.
- UpsertRuns.CountExact: leaves out the jobs that a normalisation enqueues, whose keys are unique whoever enqueues them first; the row lock that orders the writes of one notice is the order of the commits.
- Pipeline.Database.UpsertNotice: keeps version, status, hash and one field standing for the other columns, and takes the stored hash to be the one given, as both adapters copy it.
- PipelineRuns.AmendmentJobInRuns: asks that nothing else enqueues under the notification keys of the notice, and that notice ids hold no colon, as `notice_row_id` sees to.
- NoticeMerge.MergeAssociative: asks for a middle buyer that passed validation.
- TenderIdentity.VerdictSymmetric: `details` names the whole set of shared references where the code shows the least; square root, rounding and text normalisation are arbitrary functions, and arithmetic is exact.
- TenderEvidence.CosineMeans: asks for exact square roots, and arithmetic is exact throughout; with rounded roots only the range from -1 to 1 is sure (`TenderEvidence.ClampIsNearest`).
- Clustering.ClusterNotices: asks for notices with at least one reference, as the code does when it names a cluster after the first.
- NotificationRuns.RunKeepsInv: transactions are serialized, and the organisation loop is flattened because a tender belongs to one organisation. Overlapping ticks are the subject of `TickRuns`, overlapping escalation sweeps that of `EscalationRuns`, and overlapping deliveries that of `DeliveryRuns`; there `sent_at` can be rewritten.
- TickRuns.RaisedTwiceExact: ticks and the escalation sweeps that end the same transaction are modelled apart; within a transaction neither reads what the other inserts.
- EscalationRuns.EscalatedTwiceExact: the search for an earlier escalation spans all organisations, where row-level security confines it to one; a tender belongs to one organisation.
- DeliveryRuns.DoubleSendExact: the messages of one organisation are one step, since nobody else sees a sweep before it commits; row locks are left out, as the `UPDATE` that waits for another sweep comes after its message has left; a limit may differ from read to read.
- Notifications.NotificationTable.RunDeadlineAlerts: does not repeat the `notify.send` jobs enqueued beside the rows; `JobQueue` has the enqueue.
- Notifications.NotificationTable.EscalateUnacknowledged: nor those beside the escalations.
- WorkerProcess.ProcessOne: one worker's pass without steps of others in between; `WorkerRuns` has the interleavings.
- WorkerLiveness.EveryFairRunEnds: workers that neither crash nor lock rows; that a step which can be taken is taken some day is left to the operating system and the passing of time.
- LruStore.MemoryStore.Set: a negative capacity, which raises, is not modelled.
- PromptText.ParseRendered: `\d` stands for ASCII digits.
- PromptText.WindowTextLength: page numbers are distinct, as positions in a file are.
- SchemaCheck.CheckExact: floats are reals, paths are structured rather than strings, message texts are left out, and schemas are dicts, so no level names a property twice.
- GatewayCache.AnswerIsServedAsRequested: the calls in between ask other questions; one that asks the same question is itself an instance.
- Gateway.Gateway.Complete: calls are sequential; token counts and usage records are left out.

Not modelled:

- The worker's polling loop, its sleeps and signals: ticks come more than a minute apart and may skip cron minutes.
- `run_dedupe`, `run_match`, source health and `matching.py`: mostly one-branch decisions over SQL.
- `aggregate`, `score_case` and citation scoring: sums over results.
- `clean_page_text`, `verify_citation` and `normalize_buyer_name`: string clean-up.
- Adapters, `eforms.py`, PDF reading, SMTP, HTTP, JSON parsing and hashing: parameters where a model needs them.
- Row-level security, the digest, vault freshness, e-mail rendering and inbound mail.
- The web application, the API and their database schema.
