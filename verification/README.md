# GophProfile: avatar protocols, outbox, blob store and breaker

A Dafny model of the avatar service. Users upload pictures; a use case writes the avatar as
`pending` and owes an upload event; a transactional outbox hands the event to a broker; workers
claim the avatar, cut thumbnails and write `completed`, `pending` or `failed`. Originals and
thumbnails are content-addressed blobs: rows keyed by the digest, objects in an object store, and
two jobs that collect what nothing refers to. Database, object store and broker are called through
circuit breakers and bounded retries.

The model follows the source in two ways.

* **Transition systems** for what is concurrent. One SQL statement, one whole transaction or one
  request is one step; steps of all actors interleave freely; results are proved of every run.
  `Protocol` (avatars and messages, with `SingleActivity` and `StaleWrites` on it), `Outbox`,
  `RabbitDelivery`, `YoungBlobs` and the overlapping calls of `Resilience` are of this kind. Copies
  read earlier stay in the hands of the actor that read them and are written back whole, however stale.
* **Classes and methods** for what the code does step by step. `OutboxPublisher` and
  `RabbitConsumer` are shown to be runs of their transition system, so that everything proved there
  holds of them. `Store` is the database and object store under the service: any call may fail, with
  or without having had its effect, and the process may stop after any call. `AvatarService`,
  `UploadWorker` and `Cronjob` are written on it, call by call, and `SerialRuns` plays them in any order.

Every loop of the source that is modelled is a loop here. Failure is nondeterminism; clocks only
move forward.

## What came out

Where an unconditional statement is false of the code, its exact condition is proved:

* A waiting avatar is ever left without a message if and only if some step gives up the only message
  it has: its use case stops while it owes that message, or its last delivery is dead-lettered after
  an error that came before the claim (`Protocol.StrandsExactly` for every state,
  `Protocol.EverStrandedExactly` for every run). A use case that stops also stands for a failed
  `outbox.Save` and for a commit whose answer was lost: in each the use case returns an error and saves
  nothing. Runs that meet both are `Protocol.StoppedUseCaseCanStrand` and `Protocol.EarlyErrorCanStrand`.
* The breaker admits a call again some day exactly when it is not holding a probe whose error was
  not classified (`Resilience.AdmitsAgainUnlessStuck`).
* An accepted crop is honoured by the worker exactly when its side is at least half a pixel
  (`Crop.AcceptedCropIsCut`).
* A user ever has two active avatars if and only if a worker or a failing upload writes back a copy that was
  active while another avatar of that user is active by then (`SingleActivity.TakesSecondExactly` for every step,
  `SingleActivity.EverTwoActiveExactly` for every run, `SingleActivity.StaleWriteCanActivateSecond` for a
  run that meets it). These are exactly the writes that the unique index refuses
  (`internal/infra/postgres/migrations/000008_avatar_active_flag.up.sql:17-19`), so it alone keeps single
  activity when use cases and workers overlap.
* The crop a user chose last stays if and only if no row with another crop is written back afterwards
  (`StaleWrites.ChosenCropIsLostExactly`). A worker that has claimed the avatar before the choice does just
  that: its final write brings the old crop back and completes the avatar, so that the delivery for the new
  crop finds nothing to claim (`StaleWrites.ChosenCropCanBeLost`).
* Two jobs remove objects of blobs: retention after its claim, reconciliation after it has found no row.
  A blob of any age is ever ready without its object, or about to be marked so, if and only if a removal of
  either job takes effect under its key while it is ready, or stored and not yet marked
  (`YoungBlobs.LosesObjectExactly`, `YoungBlobs.BareMeansLoss`). For a blob younger than the grace period
  the ground of that removal must have gone: the row that retention claimed is no longer there, or a row
  has come under the key that reconciliation found without one (`YoungBlobs.YoungLosesObjectExactly`).
  The cron schedule rules out only part of this: `retention` and `reconcile` are two CronJobs, and `Forbid`
  keeps each from overlapping itself (`deployments/helm/gophprofile/templates/cronjobs.yaml:1-9`), not from
  overlapping the other or an upload. Without overlapping retention runs young blobs survive as long as no
  row is inserted under a key between its check by reconciliation and the end of the removal
  (`YoungBlobs.RunsOneAtATimeSpareTheYoung`). Runs that meet each kind of loss are
  `YoungBlobs.ReusedOldBlobCanLoseItsObject`, `YoungBlobs.OverlappingRunsCanLoseAYoungObject` and, with a
  single retention run, `YoungBlobs.ReconcileCanRobAnUpload`.

What holds without a condition when nothing overlaps is in `SerialRuns`: in any sequence of uploads, crop
changes, deletions, deliveries, jobs and pauses from an empty store, with every call free to fail and the
process free to stop anywhere, references stay safe and an accepted upload is served with its content until
its owner removes it.

## Environment

Database, object store and broker are assumed, one call at a time, by classes whose methods say what a
call does when it has its effect and that it may fail with or without it: `Store.Store` (status updates,
uploads, removals, commits), `OutboxPublisher.OutboxRepository` (save, publication and failure marks),
`OutboxPublisher.Broker`, `RabbitConsumer.Channel`, `KafkaConsumer.Session`. Their contracts are
assumptions about the environment and are not listed as results.

## Modules

| module | about |
|---|---|
| `Protocol` | avatars, use cases, outbox, broker and workers interleaved |
| `Outbox`, `OutboxPublisher`, `OutboxProjection` | outbox statements and leases; repository, dispatcher, direct publication; the outbox as `Protocol` sees it |
| `RabbitDelivery`, `RabbitConsumer` | RabbitMQ acknowledge, retry and dead-letter decision |
| `KafkaCodec`, `KafkaConsumer` | Kafka records, dead-letter copies, the claim loop and its marks |
| `Retry`, `DeliveryHeaders`, `Messages` | the delivery retry loop and the attempt headers |
| `Resilience`, `Transactions` | circuit breaker, bounded retry, transactions with retry |
| `AvatarTables` | avatars and thumbnails tables, one function per statement |
| `SingleActivity`, `StaleWrites` | what stale whole-row writes do under interleaving: to single activity, to a chosen crop |
| `BlobWorld`, `Store` | blob rows and objects; the faulty store the service calls |
| `AvatarService`, `UploadWorker`, `Cronjob` | use cases, worker and jobs, call by call |
| `SerialRuns` | any sequence of these on one store |
| `YoungBlobs` | retention and reconciliation interleaved with uploads and thumbnail writers |
| `Crop` | crop validation against crop application |
| `Oldest`, `Wrappers` | taking the oldest rows; optional values |

## Model

| member | source | states |
|---|---|---|
| Protocol.StrandedOnlyIfAbandoned | internal/worker/worker.go:96-185 | in every state any interleaving reaches, a live uploaded pending avatar has a live message or its message was given up since it was last re-queued |
| Protocol.AbandonedWasGivenUp | internal/usecase/avatar/events.go:30-32 | giving up means one of two steps of the run: a use case stopping while it owes the save, or a last delivery dead-lettered before its claim |
| Protocol.NoStrandedAvatar | internal/worker/worker.go:96-185 | no stranded avatar: unless its message is given up, a waiting avatar always has a message owed, unsent, queued, awaiting retry or held by a worker that will still lead to a claim |
| Protocol.StrandsExactly | internal/worker/worker.go:96-185 | for every state in which the avatar is not stranded already: a step leaves it waiting without a message if and only if it gives up the only message of the waiting avatar |
| Protocol.EverStrandedExactly | internal/worker/worker.go:96-185 | for every run: an avatar is at some moment stranded if and only if some step gives up its only message while it waits |
| Protocol.NothingStrandedWhileDatabaseAnswers | internal/worker/worker.go:118-134 | an avatar never waits without a live message as long as none of its use cases stops between commit and save and no database error precedes the claim on one of its last deliveries; other stops and errors are free |
| Protocol.StoppedUseCaseStrands | internal/usecase/avatar/events.go:30-32 | for every state: when the only message of a waiting avatar is owed by a use case, its stop strands the avatar |
| Protocol.StoppedUseCaseCanStrand | internal/usecase/avatar/events.go:30-32 | a run in which that happens |
| Protocol.EarlyErrorOnLastDelivery | internal/worker/worker.go:118-134 | whenever the only message is on its last delivery, an error before the claim followed by dead-lettering strands the avatar |
| Protocol.EarlyErrorCanStrand | internal/worker/worker.go:118-134 | such a state is reached although no use case stopped |
| Protocol.PendingIsRecorded | internal/infra/postgres/gen/avatars.sql.go:452-472 | no step makes a row pending without an entry in the history |
| Protocol.ClaimIsRecorded | internal/infra/postgres/gen/avatars.sql.go:30-45 | a claim is recorded exactly when a worker obtains a waiting avatar, which it then finds in processing with one attempt more |
| Protocol.ClaimAccounting | internal/infra/postgres/gen/avatars.sql.go:30-45 | claims of an avatar never exceed the writes that set it to pending, and between two claims there is such a write, under every interleaving with stale writes |
| AvatarTables.ActivateMeaning | internal/infra/postgres/avatar_repository.go:117-146 | after activation the avatar is the user's only active live one and its thumbnails are restored; other users' rows and other thumbnails are untouched, and of other avatars only the activity changes |
| AvatarTables.RefreshMeaning | internal/usecase/avatar/avatar.go:167-186 | a re-queued avatar keeps its picture and attempts and waits unstarted, active and live, with the new crop; other records change at most their activity |
| AvatarTables.RefreshTxKeepsConsistent | internal/usecase/avatar/avatar.go:167-186 | re-activating and re-queueing an avatar keeps at most one active avatar per user and thumbnails in step with their avatars |
| AvatarTables.UploadedTxKeepsConsistent | internal/usecase/avatar/avatar.go:256-267 | so does the closing transaction of an upload |
| AvatarTables.DeleteTxKeepsConsistent | internal/usecase/avatar/avatar.go:389-417 | so does deletion with its fallback activation |
| AvatarTables.DeletedIsNeverActive | internal/infra/postgres/gen/avatars.sql.go:437-441 | under every interleaving of single statements, stale whole-row updates included, a deleted avatar is not active |
| SingleActivity.TakesSecondExactly | internal/infra/postgres/gen/avatars.sql.go:452-472 | for every state with one active avatar per user: a step leaves two if and only if a worker or a failing upload writes back an active copy while the user has another active avatar |
| SingleActivity.EverTwoActiveExactly | internal/infra/postgres/migrations/000008_avatar_active_flag.up.sql:17-19 | for every run: a user has two active avatars at some moment if and only if some step makes such a write, which is what the index refuses |
| SingleActivity.StaleWriteCanActivateSecond | internal/infra/postgres/gen/avatars.sql.go:452-472 | a run in which a worker's stale row makes a second avatar active when the index does not refuse it |
| StaleWrites.ClaimMeaning | internal/infra/postgres/gen/avatars.sql.go:30-45 | in every state a claim changes the progress of one row only, and the worker's copy is that row |
| StaleWrites.FinalWriteMeaning | internal/worker/worker.go:159-185 | in every state, however stale the copy: nothing when refused or the row is gone, else the row is the claimed copy in picture, crop, activity and attempts with the outcome of the work, and no other row and no thumbnail changes |
| StaleWrites.CropChangesExactly | internal/infra/postgres/gen/avatars.sql.go:452-472 | for every state and step: a commit by a use case sets the crop it chose; any other step changes an avatar's crop if and only if it writes back a row with another crop |
| StaleWrites.ChosenCropIsLostExactly | internal/infra/postgres/gen/avatars.sql.go:452-472 | for every run: the crop chosen last is at some later moment not the avatar's if and only if some later step writes back a row with another crop |
| StaleWrites.ChosenCropCanBeLost | internal/worker/worker.go:159-167 | a run in which a crop chosen while a worker is at work is lost and the avatar counts as completed |
| Outbox.RetryDelay | internal/worker/worker.go:383-391 | one second up to the first attempt, 256 seconds from the ninth on, and never less or more |
| Outbox.RetryDelayDoubles | internal/worker/worker.go:383-391 | in between each delay is twice the one before |
| Outbox.ClaimMeaning | internal/infra/postgres/gen/outbox.sql.go:15-32 | a claimed row was unpublished, due and under no lease, and only its lease changes; a row that is left out was not, was locked, or is no older than the rows that filled the limit |
| Outbox.OutboxDelivers | internal/infra/postgres/gen/outbox.sql.go:129-158 | a saved event is never dropped or altered, a published one was taken by the broker with exactly its contents, and attempts equals the effective failure marks |
| Outbox.PublishedIsFrozen | internal/infra/postgres/gen/outbox.sql.go:129-149 | a published row never changes again, whoever still works on it |
| Outbox.NeverUnclaimableForLong | internal/worker/worker.go:355-391 | in every reachable state an unpublished event becomes eligible by the passage of 256 seconds |
| Outbox.LeaseExclusivity | internal/infra/postgres/gen/outbox.sql.go:15-32 | of two claims of one event, the second comes after the first lease has run out or a failure mark lies between them |
| Outbox.OldestEligibleIsUnique | internal/infra/postgres/gen/outbox.sql.go:15-32 | with distinct creation times the locked rows determine the claimed set |
| OutboxProjection.OutboxStepsAreProtocolSteps | internal/infra/postgres/gen/outbox.sql.go:129-158 | in every reachable outbox state each step is one the avatar protocol allows on the events, with the same effect there, or changes nothing it sees |
| OutboxPublisher.OutboxRepository.ClaimPending | internal/infra/postgres/gen/outbox.sql.go:15-32 | leases the oldest unpublished, due, unleased events that no other open transaction has locked, as many as the limit allows (100 for a limit outside 1..1000), for the lease given or two minutes, and changes nothing else |
| OutboxPublisher.Dispatch | internal/worker/worker.go:366-379 | one publication is a run of the outbox system that touches only its event; with the database answering the outcome is on record: published at the time of the answer and taken, or one failure counted with its reason, lease given up, next try after the delay |
| OutboxPublisher.DispatchAll | internal/worker/worker.go:366-380 | the loop puts the outcome of every claimed event on record, with a delay of 2^min(n, 8) seconds after n earlier failures, and changes no other row |
| OutboxPublisher.FlushOutbox | internal/worker/worker.go:355-381 | one pass is a run of the outbox system that leaves other publishers' work alone; it takes the oldest events that are due, at most 100, and with the database answering every outcome is on record: an event refused for the first time is due one second after the answer, after n earlier failures 2^min(n, 8) seconds after it; no other row changes |
| OutboxPublisher.PublishEvent | internal/usecase/avatar/events.go:14-48 | save, direct publication and mark are a run of the outbox system; success is reported only for a saved event, the outcome is on record with a one-second delay, other rows are untouched |
| Resilience.Breaker.constructor | internal/shared/resilience/circuitbreaker.go:36-46 | non-positive settings fall back to 5 failures and 30 seconds |
| Resilience.Breaker.Allow | internal/shared/resilience/circuitbreaker.go:79-93 | a closed breaker admits, an open one exactly when no probe is out and the reset timeout has passed since it opened, and then marks the probe |
| Resilience.Breaker.Success | internal/shared/resilience/circuitbreaker.go:95-101 | closes the breaker and forgets failures and probe |
| Resilience.Breaker.Failure | internal/shared/resilience/circuitbreaker.go:103-111 | counts a failure, ends the probe, and opens the breaker anew from the limit on |
| Resilience.Breaker.Do | internal/shared/resilience/circuitbreaker.go:51-77 | the whole call: not run and nothing changed when cancelled or without a function; run when closed or when the timeout has passed and no probe is out, else rejected; the fields after a success and after a classified failure |
| Resilience.OpenExactlyAtLimit | internal/shared/resilience/circuitbreaker.go:79-111 | with overlapping calls reporting in any order, the breaker is open exactly when classified failures since the last success have reached the limit |
| Resilience.AdmittedExactly | internal/shared/resilience/circuitbreaker.go:79-111 | for every run of overlapping calls: a call is admitted if and only if fewer classified failures than the limit were reported since the last success, or no probe is held and the reset timeout has passed since the failure that last reached the limit, all read off the steps |
| Resilience.AdmissionsAreSpaced | internal/shared/resilience/circuitbreaker.go:79-93 | two admissions while the breaker stays open are at least the reset timeout apart |
| Resilience.AdmitsAgainUnlessStuck | internal/shared/resilience/circuitbreaker.go:73-76 | with no call in flight, some continuation admits a call if and only if no ignored probe is held |
| Resilience.IgnoredProbeSticks | internal/shared/resilience/circuitbreaker.go:73-76 | a run that reaches the stuck state |
| Resilience.ClassifiedCallsNeverStick | internal/infra/broker/broker.go:47-53 | where every error is a failure, as for the message broker, the breaker never sticks |
| Resilience.WithRetry | internal/infra/postgres/retry.go:13-31 | at most three calls, another one only after a transient error and an uncancelled pause, and the last answer is returned |
| Resilience.Execute | internal/infra/postgres/retrying_db.go:21-43 | the breaker around the retry: rejected exactly when open with a probe out or before the timeout, else at most three calls, and what the breaker learns from them |
| Resilience.DeadDependencyIsSpared | internal/infra/postgres/retrying_db.go:21-31 | a sequential caller of a dead dependency makes at most 3 * (maxFailures + floor((now - first opening) / resetTimeout)) calls |
| Resilience.SparedDuringTheProbe | internal/infra/postgres/retrying_db.go:21-31 | the bound holds already at the start of the last probe |
| Transactions.Database.Do | internal/infra/postgres/tx.go:25-51 | a callback takes effect once or not at all over its tries; success means exactly once; only a lost commit answer leaves it open; another try is made exactly after an error that is safe to repeat, with tries left and the context alive |
| Transactions.DoJoined | internal/infra/postgres/tx.go:29-31 | a nested transaction joins the outer one: both become visible together or neither |
| RabbitDelivery.NothingIsLost | internal/infra/broker/rabbitmq/delivery.go:14-79 | conservation: an accepted message is queued, retrying, dead-lettered or unacknowledged, or was handled; attempts stay in 1..max and dead-lettered copies carry max |
| RabbitDelivery.HandlerRunsAreBounded | internal/infra/broker/rabbitmq/delivery.go:38-55 | without forward and acknowledgement errors the handler runs at most max times per message, exactly max before dead-lettering |
| RabbitConsumer.HeadersCarryTheAttempt | internal/infra/broker/rabbitmq/delivery.go:38-55 | whatever headers came in, the forwarded ones count attempts exactly as the protocol does, name the maximum, and keep every other header |
| RabbitConsumer.ForwardFailed | internal/infra/broker/rabbitmq/delivery.go:38-55 | a run of the delivery system; with acknowledgements working the delivery is replaced by its forwarded copy, or back in the main queue only after a failed forward |
| RabbitConsumer.HandleDelivery | internal/infra/broker/rabbitmq/delivery.go:14-56 | a run of the delivery system that starts with the handler's answer; with acknowledgements working a handled delivery is gone and a failed one handed on or given back |
| DeliveryHeaders.AtoiReadsItoa | internal/worker/worker.go:187-197 | decimal text read back gives the same 64-bit integer |
| DeliveryHeaders.SignsAndZeros | internal/worker/worker.go:187-197 | reading a number, a plus sign and leading zeros do not matter and a minus sign negates |
| DeliveryHeaders.AttemptMeaning | internal/infra/broker/rabbitmq/metadata.go:25-45 | a positive number under the attempt header is the attempt; a missing header, a number below one and a text that is no number count as the first |
| DeliveryHeaders.FinalDeliveryMeaning | internal/worker/worker.go:187-197 | with both numbers written, the worker takes a delivery as final exactly when one of them is below one or the attempt has reached the maximum |
| DeliveryHeaders.UnreadableIsFinal | internal/worker/worker.go:187-197 | without metadata, or with text that is no number, a delivery is final |
| DeliveryHeaders.WorkerAndConsumerAgreeOnLastDelivery | internal/worker/worker.go:187-197 | for every header map the worker takes as final exactly the delivery that the consumer will dead-letter on failure |
| Retry.HandleWithRetry | internal/contracts/retry.go:18-58 | attempts are made in order with their number in the headers until the first success, the last attempt or the end of the context, for every handler |
| Retry.AttemptOutcome | internal/worker/worker.go:172-185 | attempt k after k - 1 failures: completed on success, else pending, and failed on the last one only |
| Retry.WholeRunOutcome | internal/contracts/retry.go:25-56 | whole-run outcome for every failure pattern: completed after k claims when attempt k is the first success, else failed after the maximum; pending in between |
| Retry.ProcessUpload | internal/contracts/retry.go:25-56 | the same of the loop itself; failed is written only when the run is reported exhausted, which dead-letters the message |
| KafkaCodec.Publish | internal/infra/broker/kafka/producer.go:39-56 | the record holds id, timestamp and every unreserved header in some order |
| KafkaCodec.ParseMessage | internal/infra/broker/kafka/message.go:11-40 | reads headers in record order with the two defaults and the receive time as fallback |
| KafkaCodec.CodecRoundTrip | internal/infra/broker/kafka/producer.go:39-56 | for every header order, reading what was sent gives the same id, payload and timestamp, and the headers minus reserved keys plus defaults |
| KafkaCodec.ReadingNormalises | internal/infra/broker/kafka/message.go:11-40 | whatever was sent, a message that has been read carries no reserved key, both defaults and a timestamp |
| KafkaCodec.NormalMessageIsUnchanged | internal/infra/broker/kafka/message.go:11-40 | a message that was read once survives sending and reading unchanged |
| KafkaCodec.EncodedFields | internal/infra/broker/kafka/producer.go:39-56 | a record that was sent carries its id, its timestamp, the unreserved headers and nothing else |
| KafkaCodec.AnyRecordIsRead | internal/infra/broker/kafka/message.go:11-40 | any record, whoever sent it: topic and payload are its own, the id is its header's or its key, a missing timestamp is the time of reading, unreserved headers are kept and the two defaults added |
| KafkaCodec.DeadLetterGainsOnlyTheCause | internal/infra/broker/kafka/dlq.go:9-23 | the dead-letter copy differs by the suffixed topic, the cause and the trace context of its publication only |
| KafkaCodec.PublishToDLQ | internal/infra/broker/kafka/dlq.go:9-23 | copies all headers and adds the cause |
| KafkaConsumer.RetriesDecide | internal/infra/broker/kafka/consumer.go:132-151 | success is the first successful attempt; a record is only dead-lettered after every attempt there is was made and failed |
| KafkaConsumer.HandleRecord | internal/infra/broker/kafka/consumer.go:121-153 | a record's fate says how its handler fared from state to state: no handler, first success at some attempt, or all attempts made and failed and a dead letter under its id with its payload, its headers, the last attempt, the cause and its timestamp; after cancellation never a dead letter |
| KafkaConsumer.ConsumeNext | internal/infra/broker/kafka/consumer.go:121-153 | one turn: a record with a fate is resolved, then marked, and its dead letter is the only new one; without a fate nothing moves |
| KafkaConsumer.HistoryIsSafe | internal/infra/broker/kafka/consumer.go:112-156 | in such a history every record at or below a mark was resolved before that mark, and nothing behind is |
| KafkaConsumer.ConsumeClaim | internal/infra/broker/kafka/consumer.go:112-156 | the records before the resume offset were handled in order with these fates, each resolved and then marked; the dead-letter topic got exactly the unhandled ones with all they carry; a failed dead-letter publication ends the loop; after cancellation only records without a handler are marked |
| Crop.NormalizeIsIdempotent | internal/usecase/avatar/avatar.go:516-539 | every accepted crop is the one asked for (or the largest one in the middle), lies inside the image, and is accepted unchanged a second time |
| Crop.NormalizeMeaning | internal/usecase/avatar/avatar.go:516-539 | accepted if and only if the image has an area and nothing was asked for or a square inside the image; the accepted crop is then the square asked for, or the largest one in the middle; the format is blamed exactly for an image without area |
| Crop.AcceptedCropIsCut | internal/worker/worker.go:205-223 | the worker cuts a square of the rounded side inside the image, starting at the rounded origin or one pixel before it to end at the edge, if and only if the side is at least half a pixel |
| Crop.AnyCropIsSafe | internal/worker/worker.go:205-223 | whatever crop a row carries: a square of the rounded side inside the image at the rounded origin, moved back to the edge if it sticks out; the whole image exactly for a side that rounds to nothing or exceeds the image, or a negative origin |
| Crop.RoundIsNearest | internal/worker/worker.go:205-223 | rounding is to the nearest integer, halves away from zero |
| Crop.ThinCropIsIgnored | internal/worker/worker.go:205-223 | an accepted crop that the worker ignores |
| Crop.WholePixelCropIsExact | internal/worker/worker.go:205-223 | whole-pixel crops are cut exactly where they were asked for |
| BlobWorld.KeysAreInjective | internal/usecase/avatar/avatar.go:472-474 | different digests have different object keys |
| BlobWorld.HexSpells | internal/usecase/avatar/avatar.go:472-474 | the key spells each byte of the digest by two lower-case hexadecimal digits, in order |
| BlobWorld.SameKeySameBlob | internal/infra/postgres/gen/blobs.sql.go:114-122 | two rows with one key are one row |
| BlobWorld.StatusKeepsInv | internal/infra/postgres/gen/blobs.sql.go:244-263 | when a status change keeps reference safety: ready only with its object, and never taken from a referenced blob |
| BlobWorld.RemoveRowKeepsInv | internal/infra/postgres/gen/blobs.sql.go:55-60 | the guarded row deletion keeps reference safety |
| BlobWorld.UpdateKeepsInv | internal/infra/postgres/gen/avatars.sql.go:452-472 | when a whole-row update keeps reference safety and a single active avatar |
| BlobWorld.HardDeletesKeepInv | internal/infra/postgres/gen/avatars.sql.go:359-362 | expiry of avatars, with their thumbnails, and of thumbnails keeps all invariants |
| AvatarService.Create | internal/usecase/avatar/avatar.go:69-278 | whatever fails, reference safety and single activity hold and at most one record is written; success leaves the avatar active, waiting, showing the uploaded content with the square asked for or the middle one; a new row carries the given size and is written only if no earlier one was uploaded to the end, a re-used one showed the content before and keeps all but its progress; a conflict means its blob is being deleted; refused exactly for requests that cannot be met |
| AvatarService.UploadNew | internal/usecase/avatar/avatar.go:195-277 | success adds exactly the new row, uploaded and active, with a ready source blob |
| AvatarService.UploadMeaning | internal/usecase/avatar/avatar.go:256-268 | the closing transaction makes the new row uploaded and active and leaves other users' rows alone |
| AvatarService.MarkUploadFailed | internal/usecase/avatar/avatar.go:222-242 | a failed upload writes processing failed with its reason and the upload unfinished, or nothing when the write fails; nothing else of the row and no other row changes |
| AvatarService.Reuse | internal/usecase/avatar/avatar.go:166-191 | re-using an earlier upload activates and re-queues exactly that avatar with the new crop; its picture and attempts stay, and other records change at most their activity |
| AvatarService.StoreContent | internal/usecase/avatar/avatar.go:221-243 | success means the blob is ready with its object; with the database answering the status is ready or failed by the upload's outcome; only status and change time of this blob differ |
| AvatarService.UpdateCrop | internal/usecase/avatar/avatar.go:281-328 | success stores the square asked for, or the largest one in the middle, on the now active, waiting avatar, keeps its picture and attempts, and changes other records at most in their activity; refusals change nothing; with the database answering each outcome comes exactly for its reason: no live avatar, another owner, nothing to crop, a request that cannot be met, and success for all the rest |
| AvatarService.FirstOfList | internal/infra/postgres/gen/avatars.sql.go:368-376 | the first listed row: the active one, else the newest; none exactly when there is none |
| AvatarService.DeletingTheActiveOne | internal/usecase/avatar/avatar.go:379-420 | deleting the active avatar leaves exactly one active if and only if live ones remain |
| AvatarService.DeletionMeaning | internal/usecase/avatar/avatar.go:389-417 | after a deletion exactly that avatar is no longer live, marked with the time and otherwise as it was, with its thumbnails; if it was the active one the newest of the rest is the only active one, else activity is as before; nothing else changes |
| AvatarService.Delete | internal/usecase/avatar/avatar.go:364-430 | the deletion with the first of the remaining list taking over when it was active; exactly that avatar leaves the live ones, the newest of the rest is the only active one if it was active, and activity is unchanged when it was not; other records, other users and other thumbnails stay; refused only for a missing or another user's avatar |
| UploadWorker.CreateThumbnail | internal/worker/worker.go:225-319 | success leaves a thumbnail row that points to a ready blob with the encoded content; whatever fails, no other thumbnail changes and reference safety holds |
| UploadWorker.StoreThumbnailBlob | internal/worker/worker.go:250-274 | the content's blob is ready afterwards, also when it was failed or being deleted |
| UploadWorker.HandleAvatarUploaded | internal/worker/worker.go:96-185 | one delivery touches no other avatar and no other avatar's thumbnails, and never the picture, crop, activity or deletion of its own; with the database answering a live, uploaded, pending avatar gets one attempt more and is completed with its last error kept, or carries the reason and waits again unstarted, or is failed on the last delivery, and any other avatar is left alone; on success every requested thumbnail has its content |
| UploadWorker.SizesAreThoseNamed | internal/worker/worker.go:321-338 | a size is made exactly when an operation names it or when no operation names any |
| UploadWorker.SizesByName | internal/worker/worker.go:321-338 | each size is made when it is asked for, or when the other one is not asked for either |
| UploadWorker.ChooseSizes | internal/worker/worker.go:321-338 | the loop over the operations yields those sizes in order |
| UploadWorker.RecordThumbnail | internal/worker/worker.go:298-317 | upsert and link leave the thumbnail pointing to its blob and touch no other |
| UploadWorker.ProduceThumbnails | internal/worker/worker.go:148-162 | success means every requested thumbnail is there with its content; the avatar row is not touched |
| UploadWorker.Process | internal/worker/worker.go:159-185 | the final write: completed after success with the last error kept, else the reason with pending and no start time or, on the last delivery, failed; picture, crop and activity stay |
| Oldest.Pick | internal/infra/postgres/gen/blobs.sql.go:196-205 | ORDER BY created_at LIMIT n: distinct ids, as many as fit, none younger than one left out |
| Oldest.OldestIsUnique | internal/infra/postgres/gen/blobs.sql.go:196-205 | with distinct times there is one such selection |
| Cronjob.Collect | internal/cronjob/runner.go:116-137 | claim, object, row: reported done, a claimable blob is gone with its object; wherever it fails nothing else is touched and the store stays safe |
| Cronjob.CollectAll | internal/cronjob/runner.go:115-138 | every candidate gets its turn whatever became of the others; completed turns leave claimable candidates gone; rows and objects of others are spared |
| Cronjob.HardDeletes | internal/cronjob/runner.go:86-101 | the state after the two expiry statements for every combination of answers, the second independent of the first |
| Cronjob.CollectOrphans | internal/cronjob/runner.go:106-138 | lists only old unreferenced blobs and touches no other; without errors exactly the oldest batch is collected |
| Cronjob.RunRetention | internal/cronjob/runner.go:76-140 | whatever fails, safe; a row that goes had been deleted before now minus the retention period (30 days by default) or is a thumbnail of one, a blob that goes was unreferenced and created before now minus the grace period (one day by default); a run that reports no error leaves no such row, and of such blobs took the oldest up to the batch (100 by default), rows and objects, except those under a claim of the last hour; it reports none when nothing fails |
| Cronjob.RunRetentionRepeatedly | internal/cronjob/runner.go:106-138 | collector progress: with any pauses between them and nothing else expiring, n runs remove min(total, n * batch) of the blobs collectible at the start, so that no unreferenced blob created before the grace period is left once n * batch reaches the number of blobs; blobs that become collectible meanwhile come after them |
| Cronjob.OneMoreBatch | internal/infra/postgres/gen/blobs.sql.go:196-205 | one more batch takes blobs that were collectible earlier before those that became so since |
| Cronjob.FirstRunSettles | internal/cronjob/runner.go:86-101 | after the expiry statements nothing is left to expire, so the first run starts the progress |
| Cronjob.RunReconcile | internal/cronjob/runner.go:143-171 | whatever fails, only objects under blobs/ go that were modified before now minus the grace period (one day by default) and that no row has as its key; a run that reports no error leaves none of them |
| SerialRuns.Step | internal/usecase/avatar/avatar.go:69-430 | any use case, delivery, job or pause with every call free to fail keeps the store safe, and whatever avatar is served is served on with its content unless its owner removes it; with nothing failing a removed avatar is gone and an upload with an acceptable crop is accepted or its blob is being deleted |
| SerialRuns.PlayFromEmpty | internal/usecase/avatar/avatar.go:69-430 | every sequence of operations from an empty store keeps references safe, one active avatar per user and thumbnails in step after each of them |
| SerialRuns.AcceptedUploadIsServed | internal/usecase/avatar/avatar.go:195-277 | for every such run: an accepted upload is live, ready and served with its content after every later operation, expiry and collection included, until its owner removes it |
| YoungBlobs.LosesObjectExactly | internal/cronjob/runner.go:119-167 | for every run, any overlap and any age: a blob is at some moment ready without its object, or about to be marked so, if and only if a removal by retention or reconciliation takes effect under its key while it is ready, or stored and not yet marked |
| YoungBlobs.UnderminesExactly | internal/cronjob/runner.go:119-167 | the same for every single step |
| YoungBlobs.BareMeansLoss | internal/usecase/avatar/avatar.go:233-241 | that is: ready without an object now, or after one mark-ready that a process is due to make |
| YoungBlobs.ReadyBlobKeepsItsObject | internal/infra/postgres/gen/blobs.sql.go:259-263 | a ready blob of any age keeps its object as long as no removal of either job takes effect while it counts on it |
| YoungBlobs.YoungRowsStand | internal/infra/postgres/gen/blobs.sql.go:15-24 | for every run and any overlap: a blob inserted within the grace period keeps its row and is never claimed |
| YoungBlobs.RemovalSparesTheYoung | internal/cronjob/runner.go:127-130 | while the claimed row is there, the object removed is no young blob's object |
| YoungBlobs.YoungLosesObjectExactly | internal/cronjob/runner.go:119-167 | for every run: a young blob loses its object if and only if a removal takes effect under its key after its ground has gone: the claimed row is no longer there, or a row came under a key found without one |
| YoungBlobs.YoungBlobsSurvive | internal/cronjob/runner.go:106-167 | for every run and any overlap: as long as objects are removed while their claimed rows are there, or while no row has their key, a blob inserted within the grace period keeps its row, is not claimed, and has its object if ready |
| YoungBlobs.RunsOneAtATimeSpareTheYoung | internal/cronjob/runner.go:106-167 | the same for every run whose retention runs do not overlap and in which no row is inserted under a key between its check by reconciliation and the end of the removal |
| YoungBlobs.ReusedOldBlobCanLoseItsObject | internal/cronjob/runner.go:119-130 | for every grace period a run in which an old blob, taken up again while being claimed, ends ready without its object |
| YoungBlobs.OverlappingRunsCanLoseAYoungObject | internal/infra/postgres/gen/blobs.sql.go:15-24 | for every grace period a run with two overlapping retention runs, one stalled beyond the one-hour claim, in which a young ready blob loses its object |
| YoungBlobs.ReconcileCanRobAnUpload | internal/cronjob/runner.go:153-167 | for every grace period a run with one retention run in which content uploaded between a reconciliation's check and its removal ends young, ready and without its object |
| Store.Store.GetOrCreate | internal/infra/postgres/blob_repository.go:26-65 | the row with the digest, or one new uploading row; all other rows untouched |

## Left out

- AvatarService.Create: file checks, decoding and hashing happen before the first call and are not modelled; a digest and the image's dimensions are inputs, and equal digests mean equal contents.
- AvatarService.Create: the upload event is published by `OutboxPublisher.PublishEvent` and not called from here; `Protocol` has the combination.
- AvatarService.Delete: the deletion event and its consumer are left out, they touch no state modelled here.
- UploadWorker.HandleAvatarUploaded: image operations are one answer per size; derivation records are an opaque table; linking a thumbnail is a second identical upsert.
- OutboxProjection.OutboxStepsAreProtocolSteps: step by step; the use cases that owe the saves are given, and the broker's copies are those of `Protocol`.
- UploadWorker.HandleAvatarUploaded: runs serially here; workers that interleave with other actors are in `Protocol`, without blobs.
- Cronjob.RunRetentionRepeatedly: rows that expire while the counted runs go on; until its horizon nothing more expires.
- Retry.HandleWithRetry: the lengths of the pauses, including the shift overflow for very large attempt numbers.
- KafkaCodec.CodecRoundTrip: the JSON `headers` entry written by older producers is read through an abstract parser; timestamps are formatted by an abstract pair of functions with the round trip assumed for the timestamp at hand.
- Resilience.Breaker.Do: the nil receiver, which calls the function without protection.
- RabbitConsumer.HeadersCarryTheAttempt: the trace context that a forward adds to the headers.
- RabbitDelivery.NothingIsLost: publisher confirms; each forward sees its own confirm.
- Crop.AcceptedCropIsCut: rounding of floating-point numbers; coordinates are exact reals or not finite.
- Transactions.Database.Do: other actors' commits between two tries; the tries see one committed state.
- The mode without a blob repository, legacy object keys for originals and page ordering under equal creation times.
- Unique indexes are not part of the tables: each transaction keeps one active avatar per user by itself, and what the index on active avatars adds is the condition of `SingleActivity.EverTwoActiveExactly`. Of foreign keys only the cascade from avatars to thumbnails (`internal/infra/postgres/migrations/000001_init.up.sql`) is part of the model.
- `UpdateProcessingStatus`, which no modelled actor calls, appears only among the interleaved statements.
- HTTP, configuration, logging, metrics, tracing, drivers, connection handling and shutdown.
