# Veza worker protocols and document encoders, verified

A Dafny model of the worker of the Veza platform: the lease-based delivery protocols that its
SQL statements implement, the documents and wire formats that it writes, and two small policy
cores beside it. `dafny verify dfyconfig.toml` checks everything.

## How the protocols are modelled

Each SQL statement or transaction is one atomic step over in-memory tables; a step whose guard
does not hold changes nothing, as an UPDATE that matches no row. A run is any sequence of steps,
so it interleaves any number of workers with clock ticks and with workers that die. In the
outbox and the consumer inbox any ticket may be presented at any time and any number of times,
which covers crashes, lost replies, workers that outlive their lease and workers that share a
name. The scheduler and the notification dispatcher depend on what a process remembers; their
models record which process still owes which call, lost replies are steps of their own, and
lemmas say exactly what goes wrong when they happen.

The worker's classes are Dafny classes over the same tables. Every method is proved equal to a
step or a run of the model, and methods that loop take the steps of everybody else in between
as parameters (`others`, `meanwhile`), so the lemmas about runs apply to them. A query's
`FOR UPDATE SKIP LOCKED ... LIMIT` becomes a list of visible rows, any rows in any order.

| files | what they hold |
|---|---|
| Outbox, OutboxSafety, OutboxHistory, OutboxRepository, EventPublisher, OutboxWorker | the transactional outbox, its guarantees, what its rows say of the past, its repository, the EventBridge batches and the polling round |
| Consumer, ConsumerHistory, ConsumerRuntime | the consumer inbox, what its rows say of the past and the runtime's batch loop |
| Scheduler, SchedulerHistory, SchedulerRuntime | scheduled jobs, their run rows and the polling round |
| Notifications, PreparationRules, DeliveryKeys, DeliveryHistory, NotificationDispatcher, DispatcherHistory | intents and channel deliveries, when a preparation goes through, the unique key of the delivery table over whole runs, the rows' past, the dispatcher and what it owes its providers |
| RedisLock, Resp | the timed lock and the Redis wire format |
| TextWrap, LineFilling, DocumentLines, Ascii, Escape, PageContent, Pdf, PrintedDocument | the PDF export: wrapping, pages, the character set, escaping, content streams, the file, and the whole way from a document to what is read |
| TextOperators, PdfSyntax, PdfReader, PdfWalker | the readers of a PDF: text operators, objects, the cross-reference table, and the walk from the trailer to the pages |
| Csv, StableValue, CanonicalForm | the CSV export, the stable form of JSON values and when it is canonical |
| Retry, ZonedMidnight, Access, Decimal, Strings, Flags, Replies, Wrappers | backoff, local midnight, access decisions, and what several modules share |

Encoders are proved against independent readers written after the standards: ISO 32000-1 for
PDF, section 2 of RFC 4180 for CSV, the Redis serialization protocol.

## Where a promise fails

These are properties one might expect of the code that do not hold; each has its exact
condition below.

- A crash loop raises an outbox event's `attempts` past the maximum, exactly when a lease at the maximum runs out unacknowledged and somebody claims again (`OutboxSafety.AttemptsOverrunExactlyWhen`).
- A scheduled occurrence that was finished is attempted again, exactly when the reply to its completion was lost and the catch block ran with attempts left (`Scheduler.FinishedWorkRepeatsExactlyWhen`).
- The delivery table's unique key on provider and message id counts a missing id as a value, so a preparation is rolled back and its intent a dead letter whenever one of its providers has a row without an id anywhere in the table or twice in the intent (`Notifications.CommitsExactlyWhen`); a withheld, dead or id-less sent row does that for ever (`DeliveryKeys.ClosedRowsBlock`).
- An intent whose rows are accepted and all withheld at their first insert, by preference or by the suppression list, stays 'processing' although it has a request to deliver (`Notifications.StrandedExactlyWhen`); with distinct channels only the suppression list does that (`Notifications.DistinctChannelsGoOut`). No dispatcher moves it again; what `reconcile_notification_delivery_state` does with it is not part of this model. A lost COMMIT reply leaves open deliveries under a dead intent (`Notifications.LostPreparationReply`).
- A bulk reply with a length below -1 can be read differently for different chunkings (`Resp.ChunkingMattersExactlyWhen`).
- A document without columns does not survive CSV (`Csv.CsvRoundTrip`); names of one object that compare equal keep their insertion order in JSON (`CanonicalForm.CanonicalExactlyWhen`).
- A delay can be shorter than the one before, exactly when the longest delay of one attempt exceeds the shortest of the next (`Retry.DelaysKeepOrderExactlyWhen`); with the default base and cap that is from the tenth attempt on, before the cap is reached (`Retry.DefaultDelaysShrinkFromTheTenth`).
- A zone that changes its offset twice within reach hides a midnight exactly when the first two corrections undo each other (`ZonedMidnight.TwoChangesMissExactlyWhen`).
- A PDF with an object at or past byte 10^10 has a table that a reader cannot parse (`PdfReader.XrefReadsBack`).

## Model

| member | source | states |
|---|---|---|
| `Outbox.StepKeepsInv` | apps/worker/src/outbox-repository.ts:57-172 | every claim, acknowledgement, clock tick and new event keeps the inductive invariant that ties each row to its evidence, its claims and its enqueue calls (in particular: a dead letter has no lease owner) |
| `Outbox.RunKeepsInv` | apps/worker/src/outbox-repository.ts:57-172 | the invariant holds after any interleaving of such steps by any number of workers, also when tickets are presented late, twice or by a worker of the same name |
| `OutboxSafety.DeliveredAtMostOnce` | apps/worker/src/outbox-repository.ts:97-121 | on every run an event has one 'delivered' evidence row and one consumer-enqueue call exactly when it is published and none otherwise, one 'dead-letter' row exactly when it is dead-lettered, and is never both |
| `OutboxSafety.EvidenceIsUnique` | apps/worker/src/outbox-repository.ts:107-119 | at most one evidence row per event and attempt |
| `OutboxSafety.FinalEventsAreFrozen` | apps/worker/src/outbox-repository.ts:137-143 | published and dead-lettered are absorbing: row and evidence never change again, although the failure update does not test `dead_lettered_at` and writes NULL to it on a retry |
| `OutboxSafety.SpentTicketsAreDead` | apps/worker/src/outbox-repository.ts:101-102 | fencing: a settled or superseded ticket settles nothing on any continuation, whoever presents it |
| `OutboxSafety.ReclaimWaits` | apps/worker/src/outbox-repository.ts:67-78 | attempt k+1 is claimed only after k was settled or more than the lease length after claim k |
| `OutboxSafety.RetryBudget` | apps/worker/src/main.ts:124-142 | with one shared maximum an event has at most maximum - 1 'retry' rows, and a 'dead-letter' row is its last and has an attempt number of at least the maximum |
| `OutboxSafety.BackoffIsRespected` | apps/worker/src/outbox-repository.ts:67-69 | after a scheduled retry nobody claims the event again before its time, whatever lease length they use and whatever stale tickets are presented |
| `OutboxSafety.UnsettledEventsCanBeDelivered` | apps/worker/src/outbox-repository.ts:64-82 | whatever crashed, an event that is neither published nor dead-lettered can still be claimed and published by any worker, from the exact moment that its backoff and its lease allow and not before |
| `OutboxSafety.OverrunStep` | apps/worker/src/outbox-repository.ts:64-82 | one step brings an event's `attempts` past the maximum if and only if it is a claim that takes over a lease that ran out unacknowledged at the maximum |
| `OutboxSafety.AttemptsOverrunExactlyWhen` | apps/worker/src/outbox-repository.ts:64-82 | on every run whose failures dead-letter exactly at the maximum, an event's attempts exceed the maximum if and only if some claim of the run took over such a lease |
| `OutboxSafety.CrashesOverrunAnyMaximum` | apps/worker/src/outbox-repository.ts:64-82 | the witness: a worker that claims and dies n times brings `attempts` to n for every n and maximum |
| `OutboxRepository.Repository.ClaimRow` | apps/worker/src/outbox-repository.ts:74-82 | the claim's UPDATE on one row: claimed exactly when the row is eligible, and then the ticket can be acknowledged |
| `OutboxRepository.Repository.Claim` | apps/worker/src/outbox-repository.ts:57-87 | claims exactly the first eligible rows up to the batch size, in order, each once; the new tables are the run of those claims |
| `OutboxRepository.Repository.MarkPublished` | apps/worker/src/outbox-repository.ts:89-124 | succeeds exactly for the current ticket of a live row; tables become those of the publish step |
| `OutboxRepository.Repository.MarkFailed` | apps/worker/src/outbox-repository.ts:126-172 | succeeds exactly for a ticket that matches owner, attempt and `published_at IS NULL`; tables become those of the failure step |
| `OutboxHistory.TablesTellThePast` | apps/worker/src/outbox-repository.ts:57-172 | on every run a row and its evidence go back to the steps that wrote them: a published row has the reference of its publication and no error, any other the first 2000 characters of its last error, its next attempt and its verdict, a lease its worker; evidence names the worker that had claimed that very attempt |
| `OutboxHistory.AcknowledgementCountsExactlyWhen` | apps/worker/src/outbox-repository.ts:91-143 | an acknowledgement changes the tables if and only if its worker claimed that very attempt, nobody has claimed the event since and nobody has settled the attempt |
| `OutboxHistory.ClaimsMissNothing` | apps/worker/src/outbox-repository.ts:60-84 | a claim takes exactly the rows, among the first k that it visits, that are neither final nor waiting nor leased, in order, and stops only when the batch is full or nothing is left |
| `EventPublisher.Batches` | apps/worker/src/event-publisher.ts:61-67 | batches of 1 to 10 entries that concatenate to the events in order |
| `EventPublisher.Publish` | apps/worker/src/event-publisher.ts:82-119 | each event gets one result: a refusal when too large, otherwise the verdict of the response entry at its own index in its own request, with its error text redacted |
| `EventPublisher.SentByRank` | apps/worker/src/event-publisher.ts:83-92 | exactly the events of at most 245760 bytes are sent, in order |
| `EventPublisher.SuccessExactlyWhen` | apps/worker/src/event-publisher.ts:98-116 | the result of an event that is sent is a success if and only if the entry at its own place of the reply to its own request of ten has an id and no error code, with that id as reference; otherwise it says what was thrown, what the entry says or that there is none |
| `EventPublisher.PartitionConserves` | apps/worker/src/event-publisher.ts:83-92 | the size filter splits the events without losing or repeating one |
| `EventPublisher.ResultsConserveEvents` | apps/worker/src/event-publisher.ts:82-119 | the multiset of result ids is the multiset of input ids |
| `OutboxWorker.Acknowledge` | apps/worker/src/main.ts:100-163 | the repository call and its arguments are those that the result, the attempt and the configuration call for |
| `OutboxWorker.EachTicketOwnsAResult` | apps/worker/src/main.ts:179-181 | with distinct ids, the id map gives every claimed event the one result with its id |
| `OutboxWorker.AcknowledgeAll` | apps/worker/src/main.ts:182-191 | acknowledges every claimed event once, in order, with exactly the acknowledgement that its own result calls for at that moment, whatever others do in between |
| `OutboxWorker.ProcessOutbox` | apps/worker/src/main.ts:165-200 | a whole round is a run of the outbox: its claims, then one acknowledgement per claimed event with that event's own published result |
| `OutboxWorker.PublishedExactlyWhen` | apps/worker/src/main.ts:100-163 | in a round a claimed event is published if and only if it is small enough and EventBridge accepted its own entry, with that entry's id; otherwise its own ticket fails with the redacted reason, one backoff after the acknowledgement, as a dead letter exactly at the maximum |
| `OutboxWorker.RoundIsGoverned` | apps/worker/src/main.ts:124-142 | a round dead-letters exactly at the maximum, so rounds stay within the retry budget |
| `Retry.DelayIsBounded` | apps/worker/src/retry.ts:13 | a delay lies in 1..maximumSeconds |
| `Retry.DelaysDoNotShrink` | apps/worker/src/retry.ts:9-13 | delays do not decrease, whatever the hash bytes, while the capped exponential grows by half, in particular while the doubled one stays under the cap and attempts <= 20 |
| `Retry.DelaysKeepOrderExactlyWhen` | apps/worker/src/retry.ts:9-13 | for every attempt, base and cap: the next delay is never shorter, whatever the hash bytes, if and only if the longest delay of this attempt is at most the shortest of the next |
| `Retry.DelaysShrinkAtTheCap` | apps/worker/src/retry.ts:9-13 | between two attempts at the cap delays keep their order if and only if the cap is at most 2 seconds |
| `Retry.DefaultDelaysShrinkFromTheTenth` | apps/worker/src/config.ts:140-141 | with the default base and cap delays keep their order up to the ninth attempt and from no later one on, although the tenth is not at the cap |
| `Retry.TotalDelayGrowsGeometrically` | apps/worker/src/retry.ts:9-13 | the first n <= 21 uncapped delays add up to at least 0.8 * base * (2^n - 1) - n/2 |
| `Retry.DelayIsNearest` | apps/worker/src/retry.ts:9-13 | a delay is the jittered, capped, doubled base in whole seconds, the nearest with halves up, unless that leaves 1..maximumSeconds |
| `Retry.JitterIsEven` | apps/worker/src/retry.ts:11-12 | the jitter rises in even steps from 4/5 to 6/5 over the 65536 values of the hash bytes |
| `Retry.NextAttemptIsBackedOff` | apps/worker/src/retry.ts:9-18 | the next attempt is a whole number of seconds away, within a fifth and a rounding of the doubled base or the cap |
| `Consumer.StepKeepsInv` | apps/worker/src/consumer-repository.ts:68-211 | every statement keeps the accounting of attempts and evidence |
| `Consumer.EvidenceAccountsForAttempts` | apps/worker/src/consumer-repository.ts:122-190 | in every reachable state a delivery's evidence rows are numbered 1..m, with m = attempts, or attempts - 1 while 'processing'; all but the last are retries and the last is what the state says |
| `Consumer.LeaseTestIsRedundant` | apps/worker/src/consumer-repository.ts:71-88 | in reachable states the claim's lease test never decides: waiting rows have no lease |
| `Consumer.ParkedRowsStay` | apps/worker/src/consumer-repository.ts:71-107 | 'completed' and 'dead-letter' are absorbing, and a 'processing' row is untouched until its own ticket is presented |
| `Consumer.SpentTicketsAreDead` | apps/worker/src/consumer-repository.ts:122-137 | a settled ticket settles nothing on any continuation |
| `Consumer.AttemptsNeverExceedMaximum` | apps/worker/src/consumer-runtime.ts:91 | attempts never exceed the consumer's maximum when failures dead-letter exactly at it |
| `ConsumerRuntime.Repository.ClaimRow` | apps/worker/src/consumer-repository.ts:88-107 | the claim's UPDATE on one row: a ticket for the next attempt exactly when the row is claimable |
| `ConsumerRuntime.Repository.Claim` | apps/worker/src/consumer-repository.ts:68-112 | tries the visible rows in order until the batch is full, and returns exactly the tickets won |
| `ConsumerRuntime.WonTicketsHold` | apps/worker/src/consumer-repository.ts:88-107 | every ticket won still holds its row when the claim is over |
| `ConsumerRuntime.Repository.Complete` | apps/worker/src/consumer-repository.ts:114-159 | succeeds exactly when the ticket holds its row; tables become those of the completion step |
| `ConsumerRuntime.Repository.Fail` | apps/worker/src/consumer-repository.ts:161-211 | succeeds exactly when the ticket holds its row; tables become those of the failure step |
| `ConsumerHistory.TablesTellThePast` | apps/worker/src/consumer-repository.ts:88-190 | on every run a row waits since it was enqueued, is held by the worker that claimed its last attempt, or is as the acknowledgement of that attempt left it, with the time of its retry; evidence names the worker that had claimed that very attempt |
| `ConsumerHistory.AcknowledgementCountsExactlyWhen` | apps/worker/src/consumer-repository.ts:122-190 | an acknowledgement changes the tables if and only if its worker claimed that very attempt and nobody has settled it |
| `ConsumerHistory.BackoffIsRespected` | apps/worker/src/consumer-repository.ts:77-78 | once a retry is scheduled nobody claims the delivery before its time |
| `ConsumerHistory.ClaimsMissNothing` | apps/worker/src/consumer-repository.ts:71-107 | the tickets won are exactly those of the visited rows that were ready when the claim began, each for the row's next attempt |
| `ConsumerRuntime.Runtime.Register` | apps/worker/src/consumer-runtime.ts:59-64 | refuses a handler key that is taken, otherwise adds it and changes nothing else |
| `ConsumerRuntime.Runtime.Attempt` | apps/worker/src/consumer-runtime.ts:76-88 | the try block: complete exactly when the handler returned, the reply was heard and the ticket still held its row; its run is the handler's surroundings and at most one completion |
| `ConsumerRuntime.Runtime.Recover` | apps/worker/src/consumer-runtime.ts:89-106 | the catch block: one failure update, at the backoff's time, that dead-letters exactly at the maximum; it throws exactly when the update is not answered, committed or not |
| `ConsumerRuntime.Runtime.Deliver` | apps/worker/src/consumer-runtime.ts:76-106 | one delivery is exactly the try block and, unless that completed, the catch block |
| `ConsumerRuntime.Runtime.ProcessDue` | apps/worker/src/consumer-runtime.ts:66-110 | the round claims what it can, takes one turn per ticket and returns the true counts, whatever others do and whichever replies are lost; it ends early, with an exception, exactly after a failure update that was not answered |
| `ConsumerRuntime.HandlersDecide` | apps/worker/src/consumer-runtime.ts:76-106 | turn by turn, a delivery counts as completed only if its consumer's handler is registered and returned, and exactly then when the reply is heard and the ticket still holds its row; when the handler threw or is missing the turn does nothing but fail the ticket, one backoff later and dead exactly at the maximum |
| `Replies.EndsEarlyExactlyWhen` | apps/worker/src/consumer-runtime.ts:73-108 | a round ends early exactly when a turn that did not succeed could not record its failure either, and with that turn |
| `ConsumerRuntime.RoundSpendsItsTickets` | apps/worker/src/consumer-runtime.ts:74-108 | after its turns every ticket is spent, unless its failure update never arrived, and every delivery counted as completed has its 'delivered' evidence |
| `ConsumerRuntime.RoundIsGoverned` | apps/worker/src/consumer-runtime.ts:91 | the failures of a round dead-letter exactly at the consumers' maxima |
| `Scheduler.StepKeepsInv` | apps/worker/src/scheduler.ts:95-255 | claims, settlements, lost completion replies, crashes and operator edits keep every run row linked to a failed or completed predecessor and every open claim matched |
| `Scheduler.AttemptsFormAChain` | apps/worker/src/scheduler.ts:97-251 | on every run, whatever crashes and whichever completion replies are lost, the run rows of an occurrence have attempt numbers exactly 1..n, n <= maximum_attempts, all but the last are 'failed' or 'completed' and the last is not 'failed' |
| `Scheduler.FinishedWorkRepeatsExactlyWhen` | apps/worker/src/scheduler.ts:194-251 | every attempt with another behind it had failed if and only if the catch block never ran for a completed run of the occurrence with attempts left |
| `Scheduler.OneLiveAttempt` | apps/worker/src/scheduler.ts:97-251 | at most one attempt of an occurrence is completed, dead-lettered or open, on exactly the same condition |
| `Scheduler.SettledRunsStay` | apps/worker/src/scheduler.ts:194-251 | completed, failed and dead-lettered run rows never change again |
| `Scheduler.InsertIsSafeExactlyWhen` | apps/worker/src/scheduler.ts:218-251 | the retry INSERT that no guard protects keeps the chain if and only if the UPDATE before it matched, no retry is due, the next attempt exists already, or the run had completed |
| `Scheduler.LostReplyReschedulesFinishedWork` | apps/worker/src/scheduler.ts:194-251 | the witness: a completion whose reply is lost, then the catch block, schedule the finished occurrence again exactly when attempts remain |
| `Scheduler.AheadStep` | apps/worker/src/scheduler.ts:132-164 | a step keeps every job's next occurrence after all those started if and only if it is not an operator's edit that sets the clock back to a started one |
| `Scheduler.OccurrencesAreFresh` | apps/worker/src/scheduler.ts:132-164 | on every run without such an edit (pausing, resuming and postponing are fine) a due occurrence has no run row yet, and the job's next occurrence is strictly later or the job pauses |
| `Scheduler.ClaimsPutJobsOff` | apps/worker/src/scheduler.ts:149-159 | a claim at time t leaves a due recurring job active and due again at t plus its interval, however long ago it was due, pauses a one-off job for good, and touches no other job |
| `Scheduler.StartsAreApart` | apps/worker/src/scheduler.ts:131-159 | without an operator's edit two starts of a job are at least its interval apart, on every continuation |
| `SchedulerHistory.RowsTellThePast` | apps/worker/src/scheduler.ts:97-250 | on every run a row under way was taken by its worker when it was due, and any other says what the process that held it, or the attempt before it, reported: its retry waits for exactly the time that the failure set |
| `SchedulerHistory.ReportCountsExactlyWhen` | apps/worker/src/scheduler.ts:194-226 | a failure counts exactly for the process that holds the run, a completion unless one that was not heard did; the comparison of worker names never decides |
| `SchedulerHistory.RetriesWait` | apps/worker/src/scheduler.ts:101-103 | a retry stays as it is until its time has come |
| `SchedulerHistory.RetryClaimsMissNothing` | apps/worker/src/scheduler.ts:97-112 | the retries won are exactly the visited ones that were ripe when the claim began |
| `SchedulerHistory.NewClaimsMissNothing` | apps/worker/src/scheduler.ts:132-148 | the runs started are exactly the first attempts of the visited jobs' due occurrences that had none |
| `SchedulerHistory.DueJobsFillTheBatch` | apps/worker/src/scheduler.ts:132-138 | what counts against the batch are the visited jobs that were due, whether or not their run was there already |
| `SchedulerHistory.JobsTellThePast` | apps/worker/src/scheduler.ts:149-158 | no statement changes the handler, the interval or the maximum that a job was defined with |
| `SchedulerRuntime.Database.ClaimRetryRow` | apps/worker/src/scheduler.ts:97-112 | the retry claim on one run row, exactly when it is due |
| `SchedulerRuntime.Database.ClaimNewRow` | apps/worker/src/scheduler.ts:132-164 | starts the occurrence of a due job unless its row exists, and advances a due job in both cases |
| `SchedulerRuntime.Database.CompleteRun` | apps/worker/src/scheduler.ts:199-205 | completes exactly a run that this worker name holds in 'processing', whether or not the reply is heard |
| `SchedulerRuntime.Database.FailRun` | apps/worker/src/scheduler.ts:218-251 | the failure transaction equals the failure step of the model |
| `SchedulerRuntime.WorkerScheduler.Register` | apps/worker/src/scheduler.ts:88-93 | refuses a handler key that is taken, otherwise adds it |
| `SchedulerRuntime.WorkerScheduler.ClaimRetries` | apps/worker/src/scheduler.ts:95-124 | tries the visible runs in order until the batch is full, and returns exactly those that were due, each held by this process |
| `SchedulerRuntime.WorkerScheduler.ClaimNew` | apps/worker/src/scheduler.ts:126-176 | tries the visible jobs in order until the batch is full of retries and due jobs, and returns exactly the runs started, each held by this process |
| `SchedulerRuntime.WorkerScheduler.Attempt` | apps/worker/src/scheduler.ts:194-206 | the try block: complete exactly when the handler returns and the reply is heard; its completion always matches, so the lease-lost error is never raised |
| `SchedulerRuntime.WorkerScheduler.Recover` | apps/worker/src/scheduler.ts:207-252 | the catch block: the failure transaction at the backoff's time; it throws exactly when that is not answered, committed or not, and the process forgets its claims |
| `SchedulerRuntime.WorkerScheduler.Execute` | apps/worker/src/scheduler.ts:192-252 | one run is exactly the try block and, unless that completed, the catch block |
| `SchedulerRuntime.HandlersDecide` | apps/worker/src/scheduler.ts:190-251 | a run counts as completed if and only if its job's handler is registered and returned and the reply was heard; it is completed only when the handler returned, and every other turn fails it, one backoff later |
| `SchedulerRuntime.TurnReports` | apps/worker/src/scheduler.ts:192-252 | a turn that does not throw settles its run, as completed exactly when it says so, unless the completion's reply was lost |
| `SchedulerRuntime.WorkerScheduler.ExecuteAll` | apps/worker/src/scheduler.ts:192-253 | the loop takes one turn per claimed run in order and ends early exactly after a failure transaction that was not answered; its flags and counters agree with the table |
| `SchedulerRuntime.WorkerScheduler.ProcessDue` | apps/worker/src/scheduler.ts:186-255 | the round claims due retries, then new occurrences up to the batch size, takes a turn for each and returns the true counts, whatever other processes do and whichever replies are lost; it ends early, with an exception, exactly after a failure transaction that was not answered |
| `Notifications.CaseStepKeepsInv` | apps/worker/src/notification-dispatcher.ts:140-455 | every step keeps the status of an intent consistent with its deliveries |
| `Notifications.StatusTellsTheTruth` | apps/worker/src/notification-dispatcher.ts:378-398 | with reliable replies an open delivery keeps its intent 'processing', and a 'completed' intent has only sent or suppressed deliveries |
| `Notifications.CompletedStays` | apps/worker/src/notification-dispatcher.ts:378-398 | 'completed' is for ever, deliveries included |
| `Notifications.FinishedIntentsAreFinalised` | apps/worker/src/notification-dispatcher.ts:400-454 | without crashes an intent that counted immediate deliveries, has none open and is owed no call is finalised, with the right verdict, if and only if some of its rows was stored to go out; otherwise it is still 'processing' |
| `Notifications.CommitsExactlyWhen` | apps/api/database/migrations/0035_communications_delivery_platform.sql:157-159 | a preparation stores its rows if and only if every request to deliver has a sender and its rows are from different providers, none of which has a row without a message id anywhere in the table; otherwise the intent is a dead letter without deliveries |
| `Notifications.StrandedExactlyWhen` | apps/worker/src/notification-dispatcher.ts:224-345 | preparing an intent strands it if and only if its rows are accepted, some request is to be delivered and every channel's first inserted row is withheld, by its preference or by the suppression trigger |
| `Notifications.StrandingHappens` | apps/api/database/migrations/0037_notification_policy_enforcement.sql:118-150 | the witness: the first intent, with one enabled channel and a recipient on the suppression list |
| `Notifications.StrandedForEver` | apps/worker/src/notification-dispatcher.ts:140-455 | no step of any dispatcher changes a stranded intent again |
| `Notifications.DistinctChannelsGoOut` | apps/api/database/migrations/0037_notification_policy_enforcement.sql:118-150 | with distinct channels something goes out exactly when some channel to deliver is not on the suppression list, so that only the list can strand an intent |
| `Notifications.LostPreparationReply` | apps/worker/src/notification-dispatcher.ts:200-347 | if the reply to the preparation's COMMIT is lost, the intent is a dead letter with open deliveries if and only if it committed and some channel's first inserted row goes out |
| `Notifications.FirstInsertWins` | apps/worker/src/notification-dispatcher.ts:224-331 | of several requests for one channel the first insert decides the row, provider key included, as ON CONFLICT DO NOTHING has it; a row to deliver is stored as suppressed exactly when the suppression trigger screens its channel |
| `Notifications.PreferencesAreRespected` | apps/worker/src/notification-dispatcher.ts:229-333 | in a preparation that commits, a channel that is always disabled gets a withheld row, e-mail and push that always wait for the digest get a place in it and no row, and whatever else is always wanted goes out through the configured sender or the local one, unless it is screened |
| `Notifications.StatusSaysWhatWasWanted` | apps/worker/src/notification-dispatcher.ts:334-345 | the status is 'processing' if and only if something is to be delivered at once, else 'digested' if something waits for the digest, else 'suppressed' if anything was asked for, else 'dead-letter' |
| `PreparationRules.PreparedExactlyWhen` | apps/worker/src/notification-dispatcher.ts:226-333 | for any requests: a preparation goes through if and only if in production everything to be delivered has a sender and the rows to store are from different providers of which no other intent has an unsent row; then exactly the first request of each channel that does not wait for the digest stores its row, with its provider, to be sent unless screened or disabled |
| `DeliveryHistory.FailedPreparationsAreDead` | apps/worker/src/notification-dispatcher.ts:215-224 | without a template, or when anything throws, the intent is a dead letter without deliveries or digests |
| `DeliveryHistory.RowsTellThePast` | apps/worker/src/notification-dispatcher.ts:352-455 | on every run a delivery row is as its preparation stored it, under way for the worker that claimed its last attempt when it was due, or as the settlement of that attempt left it, with the provider's message id or the time of the next attempt |
| `DeliveryHistory.LeaseTestIsRedundant` | apps/worker/src/notification-dispatcher.ts:355-357 | in reachable states the claim's lease test never decides: only rows under way have a lease |
| `DeliveryHistory.SettlementCountsExactlyWhen` | apps/worker/src/notification-dispatcher.ts:412-455 | a settlement changes the tables if and only if its worker claimed that very attempt, it is still under way and, for an acceptance, no other row has the provider's message id |
| `DeliveryHistory.DeliveriesWait` | apps/worker/src/notification-dispatcher.ts:355-356 | a waiting delivery stays as it is until its time has come |
| `DeliveryHistory.IntentsWait` | apps/worker/src/notification-dispatcher.ts:144-152 | an intent scheduled for later is left alone until then |
| `DeliveryHistory.IntentsTellThePast` | apps/worker/src/notification-dispatcher.ts:144-158 | every intent keeps the channels and the time that it was created with |
| `DeliveryKeys.RunKeepsKeys` | apps/api/database/migrations/0035_communications_delivery_platform.sql:159 | on every run no two deliveries have the same provider and message id, a missing id counting as one, and only sent ones have an id |
| `DeliveryKeys.OneUnsentPerProvider` | apps/api/database/migrations/0035_communications_delivery_platform.sql:159 | so of all unsent deliveries in the table at most one is from any one provider |
| `DeliveryKeys.ClosedRowsBlock` | apps/api/database/migrations/0035_communications_delivery_platform.sql:159 | once a row without a message id is withheld, dead or sent, every later preparation that would store a row of its provider, for whatever intent and recipient, makes its intent a dead letter |
| `DeliveryKeys.DisabledIsNeverSent` | apps/worker/src/notification-dispatcher.ts:231-254 | a channel that its recipient disabled is never claimed or sent on any continuation: its row stays as it was stored |
| `DeliveryKeys.AtMostTwoStranded` | apps/api/database/migrations/0035_communications_delivery_platform.sql:159 | without crashes at most two intents are ever stranded |
| `NotificationDispatcher.Dispatcher.ClaimIntent` | apps/worker/src/notification-dispatcher.ts:140-163 | takes one intent exactly when it is pending and its scheduled time has come |
| `NotificationDispatcher.Dispatcher.ClaimIntents` | apps/worker/src/notification-dispatcher.ts:140-163 | tries the visible intents in order until the batch is full, and returns exactly those pending and due, each once |
| `NotificationDispatcher.Dispatcher.PrepareIntent` | apps/worker/src/notification-dispatcher.ts:200-347 | the channel loop with its counters equals the model's preparation, with the suppression trigger and the unique key on its inserts; everything rolls back exactly when a sender is missing, the key is violated or something else throws |
| `NotificationDispatcher.Dispatcher.PrepareNext` | apps/worker/src/notification-dispatcher.ts:570-591 | one turn of the preparation loop, with its catch block |
| `NotificationDispatcher.Dispatcher.PrepareAll` | apps/worker/src/notification-dispatcher.ts:569-591 | prepares every claimed intent once, in order, whatever others do in between |
| `NotificationDispatcher.Dispatcher.ClaimDelivery` | apps/worker/src/notification-dispatcher.ts:349-376 | the delivery claim on one row: a ticket for the next attempt exactly when it is claimable |
| `NotificationDispatcher.Dispatcher.ClaimDeliveries` | apps/worker/src/notification-dispatcher.ts:349-376 | tries the visible deliveries in order until the batch is full, and returns exactly the tickets won |
| `NotificationDispatcher.Dispatcher.FinalizeIntent` | apps/worker/src/notification-dispatcher.ts:378-398 | the verdict over all of an intent's deliveries, nothing while one is open |
| `NotificationDispatcher.Dispatcher.Settle` | apps/worker/src/notification-dispatcher.ts:411-453 | the settlement is the one that the provider's answer calls for; it throws exactly when the provider's message id is another row's, and a finalisation is owed exactly when it was final |
| `NotificationDispatcher.Dispatcher.Deliver` | apps/worker/src/notification-dispatcher.ts:400-454 | one delivery: the settlement that the provider's answer calls for and the finalisation when it was final, after which nothing is owed, also when the provider throws, the settlement is refused or a reply is lost |
| `NotificationDispatcher.Dispatcher.Finish` | apps/worker/src/notification-dispatcher.ts:378-398 | after whatever others do the owed finalisation is paid, or given up when it does not reach the database |
| `NotificationDispatcher.Dispatcher.DeliverAll` | apps/worker/src/notification-dispatcher.ts:593-597 | one turn per ticket in order, with the true count of those sent; the loop ends early exactly when a turn throws |
| `DispatcherHistory.ProvidersDecide` | apps/worker/src/notification-dispatcher.ts:400-455 | turn by turn, a delivery counts as sent only if its provider accepted it, and exactly then when the replies are heard and its row is held and free for the id; the report says what the provider said, a rejection one backoff later and dead exactly at the maximum, a final report is followed by the intent's finalisation, and an exception, a lost reply or a taken id ends the round |
| `DispatcherHistory.PreparationsFollowLookups` | apps/worker/src/notification-dispatcher.ts:571-579 | a preparation turn stores what its terms ask for only if its template is active and nothing throws |
| `DispatcherHistory.IntentClaimsMissNothing` | apps/worker/src/notification-dispatcher.ts:143-160 | the intents taken are exactly the visited ones that were due when the claim began |
| `DispatcherHistory.DeliveryClaimsMissNothing` | apps/worker/src/notification-dispatcher.ts:352-371 | the tickets won are exactly those of the visited deliveries that were due, each for its next attempt |
| `NotificationDispatcher.Dispatcher.ProcessDue` | apps/worker/src/notification-dispatcher.ts:563-607 | the round claims and prepares intents, then claims and delivers deliveries, whatever other processes do, and owes nothing afterwards; it ends early, with an exception, exactly when a delivery's turn throws |
| `NotificationDispatcher.PreparationsAreCrashFree` | apps/worker/src/notification-dispatcher.ts:569-591 | the preparation loop crashes nothing unless others do |
| `NotificationDispatcher.DeliveriesAreCrashFree` | apps/worker/src/notification-dispatcher.ts:593-597 | the delivery loop gives nothing up while its replies are heard |
| `RedisLock.OverlapMeansOverstay` | apps/worker/src/redis-coordinator.ts:82-106 | if two bodies for one key run at once, the earlier had held the lock longer than its time to live when the later got it |
| `RedisLock.AloneWithinTtl` | apps/worker/src/redis-coordinator.ts:93-97 | a body within its time to live is alone on its key and nobody can join it |
| `RedisLock.ReleaseSparesOthers` | apps/worker/src/redis-coordinator.ts:99-101 | the compare-and-delete release never removes another holder's entry |
| `RedisLock.EntriesRunOut` | apps/worker/src/redis-coordinator.ts:93 | an entry outlives the present by at most the longest time to live: a dead holder blocks nobody longer |
| `RedisLock.KeysComeFree` | apps/worker/src/redis-coordinator.ts:93-95 | once the longest time to live has passed, any fresh token gets any key, whoever was silent before |
| `RedisLock.SilentWorkersBlock` | apps/worker/src/redis-coordinator.ts:93-104 | a worker that misses the reply to its SET, or crashes in its body, blocks the key for everybody to the end of its time to live |
| `RedisLock.ReleaseRemovesItsOwn` | apps/worker/src/redis-coordinator.ts:99-101 | a release takes away exactly its own live entry, once, and touches no other key |
| `RedisLock.StepKeepsInv` | apps/worker/src/redis-coordinator.ts:93-101 | every SET, release, clock tick and crash keeps: a body within its time to live has its entry |
| `RedisLock.Server.SetIfAbsent` | apps/worker/src/redis-coordinator.ts:93-95 | the SET NX PX: acquired exactly when no live entry is there |
| `RedisLock.Server.CompareAndDelete` | apps/worker/src/redis-coordinator.ts:99-100 | the script equals the release step: it deletes only an entry with its own token |
| `RedisLock.HoldAndRelease` | apps/worker/src/redis-coordinator.ts:96-102 | the body and its finally block, with others in between, are a run of the model after which the body is over |
| `RedisLock.WithLock` | apps/worker/src/redis-coordinator.ts:82-106 | without a configured server the body simply runs; otherwise it runs exactly when the SET took the key and was answered, and the call is the SET and, if it ran, the body and its release, after which the key is not this token's |
| `Decimal.NumeralRoundTrip` | apps/worker/src/export-document.ts:195-200 | the value of a printed number is the number |
| `Decimal.NumeralWidth` | apps/worker/src/export-document.ts:196 | a number prints in at most k digits if and only if it is below 10^k |
| `Decimal.PaddedRoundTrip` | apps/worker/src/export-document.ts:196 | zero padding does not change the value |
| `Resp.Command` | apps/worker/src/redis-coordinator.ts:5-12 | the written bytes are the array header and the bulk strings of the parts, in order |
| `Resp.CommandRoundTrip` | apps/worker/src/redis-coordinator.ts:5-12 | a server that decodes an array of bulk strings gets exactly the parts, for all bytes |
| `Resp.ReadResponse` | apps/worker/src/redis-coordinator.ts:26-44 | feeding chunks until one settles gives the first outcome, no earlier and no later |
| `Resp.ChunkingMattersExactlyWhen` | apps/worker/src/redis-coordinator.ts:26-44 | the outcome is the same for every way of splitting a reply if and only if its bulk length, a fraction or infinite included, does not count from the end of the buffer |
| `Resp.SplittingCanMatter` | apps/worker/src/redis-coordinator.ts:36-41 | the witness: a length of -9 before six bytes |
| `Resp.BulkReplyResolvesAtItsEnd` | apps/worker/src/redis-coordinator.ts:36-41 | a bulk reply resolves exactly when its last byte arrives, with its payload |
| `Resp.FirstLineDecides` | apps/worker/src/redis-coordinator.ts:28-46 | nothing is decided before the first line is complete; then its first byte decides: status, number, error, null for -1, and a rejection for any byte that stands for nothing |
| `TextWrap.Wrap` | apps/worker/src/export-document.ts:74-103 | the nested loops compute the model's greedy layout |
| `TextWrap.WrapParagraph` | apps/worker/src/export-document.ts:77-100 | the loop over the words of one paragraph, with its flush at the end |
| `TextWrap.PlaceWord` | apps/worker/src/export-document.ts:83-99 | one word: sliced, put on a new line or appended |
| `TextWrap.PushSlices` | apps/worker/src/export-document.ts:86-88 | the slicing loop of an over-long word |
| `TextWrap.WrapKeepsInk` | apps/worker/src/export-document.ts:74-103 | wrapping keeps every non-whitespace character, in order |
| `LineFilling.WordsAreTheRuns` | apps/worker/src/export-document.ts:77 | the words are the maximal runs between white space |
| `LineFilling.LinesAreFilled` | apps/worker/src/export-document.ts:77-102 | a paragraph's lines are its words in order with single spaces, each line filled before the next begins, over-long words on lines of their own; no words give one empty line |
| `LineFilling.PiecesAreFull` | apps/worker/src/export-document.ts:84-91 | the pieces of an over-long word are full but for the last, which is not empty, and make up the word |
| `LineFilling.ParagraphsAreTheLines` | apps/worker/src/export-document.ts:76 | paragraphs are what stands between line feeds |
| `LineFilling.BreaksSeparate` | apps/worker/src/export-document.ts:76-103 | what a line feed separates is wrapped on its own, and carriage returns count for nothing |
| `DocumentLines.LinesFit` | apps/worker/src/export-document.ts:74-103 | every emitted line has at most `maximum` characters and single spaces between its words |
| `DocumentLines.WrappingATidyLine` | apps/worker/src/export-document.ts:74-103 | an emitted line wraps to itself |
| `DocumentLines.DoubleWrappingIsWrapping` | apps/worker/src/export-document.ts:117-122 | wrapping the rows and then everything equals wrapping everything once |
| `DocumentLines.PushWrapped` | apps/worker/src/export-document.ts:117-122 | the loop that pushes the wrapped form of every line |
| `DocumentLines.Lines` | apps/worker/src/export-document.ts:105-123 | the document's lines: heading, wrapped rows, closing line, all wrapped again |
| `DocumentLines.PagesHoldAllLines` | apps/worker/src/export-document.ts:144-149 | pages concatenate back to all the lines, all but the last have 52, and no page is empty unless the document is |
| `Escape.PdfPassesAreOne` | apps/worker/src/export-document.ts:70-72 | the three replacement passes equal one simultaneous substitution |
| `Escape.PdfLiteralRoundTrip` | apps/worker/src/export-document.ts:127 | the literal-string reader of ISO 32000-1 section 7.3.4.2 recovers the string, with its ends of lines as line feeds, so unchanged if and only if it has no carriage return, and stops at the right closing parenthesis |
| `Escape.HtmlPassesAreOne` | apps/worker/src/notification-dispatcher.ts:87-94 | the five replacement passes equal one simultaneous substitution |
| `Escape.HtmlRoundTrip` | apps/worker/src/notification-dispatcher.ts:87-94 | unescaping inverts `escapeHtml`, and the escaped text has no markup character |
| `Ascii.PassesAreOne` | apps/worker/src/export-document.ts:60-68 | after the normalisation, the five replacements of `ascii` are one substitution by code point and leave only printable characters |
| `PageContent.PageShowsItsLines` | apps/worker/src/export-document.ts:123-141 | a reader of the text operators (section 9.4 of ISO 32000-1) sees the page's line k at (48, 790 - 14k) in size 9, the footer with its page numbers at (48, 28) in size 8, and nothing else |
| `PageContent.LinesAreApart` | apps/worker/src/export-document.ts:123-149 | up to 52 lines are at different heights, all above the footer and on the sheet |
| `PdfSyntax.DictionaryRoundTrip` | apps/worker/src/export-document.ts:155-176 | a dictionary printed with its keys, names, references, arrays and numbers is read back as it was by a parser of PDF objects (section 7.3 of ISO 32000-1) |
| `Pdf.CollectPages` | apps/worker/src/export-document.ts:151-174 | the page loop defines the catalogue and exactly the objects of the pages |
| `Pdf.WriteObjects` | apps/worker/src/export-document.ts:178-192 | the object loop writes every object and records where each starts; no object is missing |
| `Pdf.WriteTable` | apps/worker/src/export-document.ts:194-197 | the cross-reference loop writes one entry per recorded offset |
| `Pdf.RenderPdf` | apps/worker/src/export-document.ts:143-205 | the loops produce the file of exactly the objects 1..fontObject of the document |
| `PdfReader.EntryReads` | apps/worker/src/export-document.ts:196 | an entry has 20 bytes if and only if its offset is below 10^10, and then reads back as that offset |
| `PdfReader.XrefReadsBack` | apps/worker/src/export-document.ts:178-203 | a reader that starts from the end of the file (ISO 32000-1 sections 7.5.4, 7.5.5) finds "xref" at startxref and in the table every object's offset, if and only if all offsets are below 10^10 |
| `PdfReader.LastOffsetDecides` | apps/worker/src/export-document.ts:194-197 | all offsets fit the table if and only if the last one does |
| `PdfReader.ObjectIsAtItsOffset` | apps/worker/src/export-document.ts:181-192 | at entry n's offset stands "n 0 obj" with object n, and offsets strictly increase, so every number is defined once |
| `PdfReader.StreamReadsBack` | apps/worker/src/export-document.ts:166-173 | reading as many bytes as /Length says (section 7.3.8) gives the stream, whatever its bytes |
| `PdfWalker.PagesReadBack` | apps/worker/src/export-document.ts:151-174 | every page object, at the number its parent lists, is a page of that tree on a sheet of 595 by 842 with a Helvetica font, and its /Contents shows its own lines at their places |
| `PdfWalker.DocumentReadsBack` | apps/worker/src/export-document.ts:143-205 | from the finished file alone a reader that walks from the trailer's /Root by /Pages, /Kids and /Contents sees exactly the document's pages in order, each with its printable lines at their places and its own footer, if and only if the offsets fit ten digits |
| `PrintedDocument.RenderPdf` | apps/worker/src/export-document.ts:143-205 | from the document to the file: its lines, wrapped twice, are the pages of the written objects |
| `PrintedDocument.ReadersSeeAllInk` | apps/worker/src/export-document.ts:60-205 | a reader that walks the finished file sees, between the footers, exactly the characters that are not white space of title, tenant, institution, date, id, count, filters, columns, rule and rows with their column names, or the sentence that there are none, in order and in their printable form, whenever the offsets fit |
| `PrintedDocument.LinesAreNarrow` | apps/worker/src/export-document.ts:74-121 | no line of a document is wider than 92 characters |
| `Csv.CsvRoundTrip` | apps/worker/src/export-document.ts:43-54 | parsing the printed text by section 2 of RFC 4180, behind the byte-order mark that it must have, gives back exactly the column names and the rows of texts, if and only if there is a column (the payload check of export-processor.ts:89 requires one) |
| `Csv.CellsAreQuotedExactlyWhen` | apps/worker/src/export-document.ts:43-46 | a cell stands as it is exactly when it has no quote, comma, carriage return or line feed |
| `Csv.CellReads` | apps/worker/src/export-document.ts:43-46 | a printed cell reads back, quotes, commas and line breaks included |
| `StableValue.StableKeepsMeaning` | apps/worker/src/export-document.ts:22-32 | the canonical form has the same values under the same keys |
| `CanonicalForm.StableIsCanonical` | apps/worker/src/export-document.ts:22-32 | two values have equal canonical forms if and only if they differ only in object key order, given a strict weak order that tells the names within each object apart (array-index keys need nothing) |
| `CanonicalForm.StableIsIdempotent` | apps/worker/src/export-document.ts:22-32 | applying it twice is applying it once |
| `CanonicalForm.StableKeysAreInOrder` | apps/worker/src/export-document.ts:25-29 | an object's array-index keys come first by value, then its other keys by the order |
| `CanonicalForm.CanonicalExactlyWhen` | apps/worker/src/export-document.ts:22-32 | all values that differ from this one only in object key order have its canonical form if and only if, within every object at any depth, the order tells the names apart |
| `CanonicalForm.TiesKeepInsertionOrder` | apps/worker/src/export-document.ts:27 | in any object, swapping two names that the order cannot tell apart changes the form |
| `ZonedMidnight.Find` | apps/web/app/calendar/page.tsx:129-147 | the loop with its early exit computes the third correction |
| `ZonedMidnight.MidnightIsFound` | apps/web/app/calendar/page.tsx:129-147 | with at most one offset change within reach, the result's wall time is the requested midnight if and only if such an instant exists; otherwise it is off by the size of the jump |
| `ZonedMidnight.TwoChangesMissExactlyWhen` | apps/web/app/calendar/page.tsx:129-147 | with at most two changes within reach the requested midnight is found if and only if it exists and the first two corrections do not undo each other |
| `ZonedMidnight.TwoChangesCanMiss` | apps/web/app/calendar/page.tsx:129-147 | the witness: an offset function with two changes whose midnight exists and is missed |
| `Access.AdjacentWindowsPartitionTime` | packages/authz/src/index.ts:386-388 | validity windows that meet never overlap and leave no gap |
| `Access.DenyOverrides` | packages/authz/src/index.ts:395-422 | allowed if and only if an allow applies and no deny does, and exactly then the reason is "allowed"; "explicit-deny" exactly when a deny applies |
| `Access.GrantedExactlyWhen` | packages/authz/src/index.ts:373-422 | access is granted exactly when some allow for the permission covers the resource or one it lies in, inside its validity window, with a second factor, the owner and the module where it asks for them, and no such deny does |
| `Access.SecondFactorRevokesExactlyWhen` | packages/authz/src/index.ts:389-417 | a second factor takes access away exactly when a deny that asks for one waits for it |
| `Access.RefusalsAreExact` | packages/authz/src/index.ts:401-413 | each of the other three reasons exactly when the assignments fail at that stage |
| `Access.OrderDoesNotMatter` | packages/authz/src/index.ts:395-422 | the decision depends on neither the order nor the repetition of assignments |
| `Access.OneMore` | packages/authz/src/index.ts:395-422 | one more deny never grants and one more allow never revokes, with the exact effect of each |

## Left out

- PostgreSQL itself and the `app.*` SQL functions: calls to `app.enqueue_event_consumers` are counted, nothing more; reconcilers, operators who requeue rows and the functions behind exports, media and search are not modelled. In particular `reconcile_notification_delivery_state` (stale leases and stranded intents) is outside.
- Whether the suppression list screens a channel is a parameter of the preparation (`screened`), the same for all requests of that channel; quiet hours only move `scheduledAt`, which is fixed per intent. Which preference row applies to a request (a required policy, the topic or its fallback, a digest without a frequency, which counts as enabled) is resolved before the preparation. A preparation is one atomic step, and provider feedback on sent deliveries is left out.
- Columns that no guard reads (tenant, destination, latency, handler version, result checksums, versions), logging, heartbeats and the outer polling loop.
- `now()` and the worker's `Date` are one clock that never goes back; clock skew between database and workers is not modelled.
- A job's, consumer's or worker's maximum number of attempts is fixed during a run.
- Liveness after a crash of consumer, scheduler and notification rows: a row left 'processing' is not re-claimed by this code, and its reconciliation is not part of this model.
- NotificationDispatcher.Dispatcher.PrepareIntent: rendering errors, lost connections and a failing COMMIT are a parameter (`throwsAt`); a lost reply to the COMMIT or to the catch block's own update is a matter of the lemmas about runs. Rendering of templates, senders' addresses, encryption, HTTP and digest batches beyond a set of channels are left out.
- NotificationDispatcher.Dispatcher.ProcessDue: claiming and delivering digests (notification-dispatcher.ts:457-560) after the deliveries is left out as a smaller copy of the delivery protocol.
- RedisLock.WithLock: the key is a parameter (its prefix and its cleaning are left out); the socket, authentication and the two-second reply timeout are one parameter that says whether the SET was answered.
- Resp.ReadResponse: the conversion of a line by `Number` is a parameter; positions are exact numbers; timeouts, socket errors and UTF-8 decoding of replies are left out.
- TextWrap.Wrap: a maximum of 0, for which the slicing loop would not end, is excluded; the code always wraps at 92.
- EventPublisher.Publish: preparing an entry and its byte size are a parameter; the client's exceptions are a kind of response.
- Characters are single UTF-16 units without surrogates, and PDF bytes are characters, since everything written there is ASCII; UTF-8 encoding of CSV and JSON is left out.
- PrintedDocument.ReadersSeeAllInk: the Unicode normalisation NFKD is a parameter (`normal`) that is taken to decompose every UTF-16 unit by itself and to leave blanks alone (`Decomposes`); the marks that it may reorder all vanish or become question marks.
- Csv.CsvRoundTrip: cells are the texts `text(row[column])` already; looking a column up in a row and printing numbers are left out.
- CanonicalForm.StableIsCanonical: JSON.stringify, dates and other objects without enumerable keys are left out; a value is a scalar, an array or an object.
- Retry.DelayIsBounded: doubles are exact rationals and the first two bytes of the digest are any number up to 65535.
- ZonedMidnight.MidnightIsFound: times are whole seconds, and `dateTimePartsAt` is an arbitrary bounded offset function.
- Access.DenyOverrides: `Date.parse` is done beforehand; a date that does not parse compares false, as NaN does. Role and permission tables are finite data.
- media-processor.ts, search-runtime.ts, webhook-runtime.ts and the claim loop of export-processor.ts repeat the claim shape of the outbox with weaker acknowledgements; React pages, the API, BFF routes and packages/oidc-bff are wrappers or library cryptography.
