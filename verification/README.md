# DANTE payment system: verified model

DANTE stands between clients and a legacy bank. It accepts payments quickly, queues them in RabbitMQ, has
workers execute them against the bank, and tracks them in Postgres (durable) and Redis (a fast copy). This
project models the parts of it whose correctness rests on the order in which things happen, and proves what
that order guarantees.

## How it is organised

| file | models |
|---|---|
| `Common.dfy` | options, counts, sums, decimal digits, quotients |
| `Backoff.dfy` | retry budget and backoff delays, with 64-bit wrap-around |
| `Headers.dfy` | the message headers that carry the retry count and the first-enqueued time |
| `Pipeline.dfy` | the payment pipeline as one step system: rows, event log, status cache, queues, unsettled deliveries, intake calls and worker calls in progress |
| `PipelineRuns.dfy` | reachable states: the ends of runs, and equally the states with every property that holds at the start and that all steps keep |
| `PipelineSafety.dfy` | the invariant of every reachable state, kept by every step |
| `PipelineTheorems.dfy` | what follows: no accepted payment is lost, message integrity, idempotency, replay, the status cache |
| `PipelineBounds.dfy` | the amortised bound on legacy calls |
| `PipelineExactlyOnce.dfy` | exactly-once execution when no call fails |
| `PipelineAnswers.dfy` | what rows and event logs say about the calls made to legacy |
| `PipelineLimits.dfy` | what the pipeline does not promise: the exact step or condition, and a run for each |
| `PipelineTurns.dfy` | the turns that one call has taken in a run |
| `PipelineOutcomes.dfy` | why an intake call ends as it does: an exact cause for every outcome |
| `PipelineTrails.dfy` | everything an accepted call, or one whose publish failed, wrote, turn by turn |
| `PipelineHandlers.dfy` | the same for a handler, how every delivery is settled and why, and how message copies move |
| `PipelineStaleness.dfy` | when the status cache is behind the database, and that it catches up |
| `PipelineNode.dfy` | intake, workers, consumer session and status reader as imperative procedures over shared tables; the object carries the run of the step system that has made its state |
| `Breaker.dfy` | the circuit breaker: sequential use, every interleaving of its critical sections, and the object itself |
| `Rfc3339.dfy`, `UuidText.dfy`, `Base64Url.dfy`, `Cursor.dfy` | the history cursor, from timestamp and identifier to opaque text and back |
| `Timeline.dfy` | instants on one line of time and identifiers as numbers, by which the history's order is stated |
| `History.dfy`, `HistoryWalk.dfy`, `HistoryList.dfy` | the keyset query, one page, walks over pages while the table grows, and walks compared with the sorted list |
| `MerchantFill.dfy`, `MerchantAnswers.dfy`, `MerchantService.dfy` | merchant lookup under an expiring Redis lock with a negative cache: as a timed protocol, what exactly decides its answers, and as procedures |
| `Provisioning.dfy`, `MerchantMaterialisation.dfy` | create-or-reload under concurrent calls |

A step of the pipeline is one call to the database, the cache or the broker, or an event of the environment (a
message expires in the retry queue, a connection is lost, a reader fills the cache, an entry is evicted, the clock
advances). Every call may fail; steps of different calls interleave without restriction. A run is any sequence of
enabled steps from the empty system, and the theorems are about every run. The procedures of `PipelineNode.dfy`
make one such step at a time and let any other steps happen in between. The object's `history` is the run that has
made its tables, and each procedure says that it has extended it, so the theorems about runs apply to whatever the
procedures have done.

## Assumptions

- A publish either enqueues the message or returns an error without enqueuing it. Likewise a database or cache
  call that returns an error has left its table as it was. A legacy call is counted whatever it answers.
- Acknowledge, reject, negative acknowledge, expiry and dead-lettering work as the queue declarations ask:
  primary to dead-letter queue on reject, retry queue to primary on expiry.
- JSON bodies and event metadata survive a round trip. The undecodable body remains, as its own case.
- The retry budget fits the signed 32-bit header, and the longest delay fits a signed 64-bit duration
  (`Backoff.ValidConfig`). Both hold of the defaults.
- An account number keeps its account once it has one. UUIDs and lock tokens are fresh.
- A context deadline ends the call it is given to at that deadline.

## What the code does not promise

These are results too: each has a lemma with a concrete run or input, and its exact condition.

- A cached terminal status can go back to PROCESSING: exactly when a reader's late fill is written
  (`PipelineLimits.CacheTurnsBack`; `PipelineTheorems.CacheKeepsTerminal`).
- A finished payment can be cached as PROCESSING: only while its cache write is still to come, or after that write has
  failed or a late fill (`PipelineStaleness.StaleHasCause`; exactly when it begins and ends:
  `PipelineStaleness.StaleTurnsExactly`).
- A SUCCESS can become FAILED: exactly when a second handler of the same message records a refusal
  (`PipelineLimits.SuccessTurnsFailed`; `PipelineLimits.SuccessLostExactly`).
- Legacy can be called twice for one payment: the same run shows it. It has been called exactly as often as the
  event log records a worker's start, less handlers still to call (`PipelineAnswers.CallsMatchLog`,
  `PipelineLimits.CalledTwiceExactly`).
- A PROCESSING row can be without a message for ever: an unfinished payment has one exactly if its intake got past
  publishing (`PipelineLimits.RowWithoutMessage`; `PipelineLimits.MessageExactly`).
- Following history cursors over a fixed table ends if and only if no full page ends on a row created at the zero time
  (0001-01-01T00:00:00Z), which the query cannot tell from "no cursor" (`HistoryList.WalkEndsExactly`). Over a growing
  table the pages descend if and only if no fetch follows such a page (`HistoryWalk.StablePagingExactly`). A table of
  one such row shows both failures (`HistoryList.ZeroTimeRepeats`).
- With concurrent callers a failure in the half-open breaker need not reopen it: a success that arrives late, while
  Open, has set the failure count to zero (`Breaker.LateSuccessDefeatsReopening`; exactly when it does reopen:
  `Breaker.HalfOpenReopensExactly`).
- One merchant may be looked up twice at once as soon as a lock holder needs a second or more to start its call
  (`MerchantFill.SlowHoldersOverlap`).
- Resolving one merchant reference twice may give two merchants: exactly when legacy files it under another code and
  the reference's own row appears between the two lookups (`MerchantMaterialisation.RepeatedCallsMayDiffer`;
  `MerchantMaterialisation.RepeatedCallsDiffer`).

## Model

| member | source | states |
|---|---|---|
| PipelineSafety.StepKeepsInv | internal/queue/consumer.go:157-215 | Every step of intake, workers, broker and readers, failing or not, keeps the pipeline's invariant. |
| PipelineSafety.RunKeepsInv | internal/service/payment/transfer.go:64-179 | The invariant holds in every state of every run. |
| PipelineSafety.ReplayMatchesMeaning | internal/service/payment/transfer.go:181-197 | When the creation event is the first event and the only one of its kind, the scan accepts exactly a transfer to the same destination. |
| PipelineSafety.ReplayMatchesExactly | internal/service/payment/transfer.go:181-197 | For any event log the scan accepts if and only if there is a creation event and the first one names this destination, or names none and none is asked for. |
| PipelineSafety.RetryCopyOk | internal/queue/consumer.go:218-234 | A retry has the same body and first-enqueued time, exactly one more retry, and is not ready before all delays so far have passed. |
| PipelineSafety.IntakeStepKeepsInv | internal/service/payment/qris.go:97-224 | Every call of either intake keeps the invariant: the creation event precedes the cache write, which precedes the publish. |
| PipelineSafety.WorkerStepKeepsInv | internal/service/payment/transfer_worker.go:41-147 | Every call of a handler, and every settlement of its delivery, keeps the invariant. |
| PipelineSafety.BrokerStepKeepsInv | internal/queue/topology.go:89-111 | Delivery, connection loss, expiry into the primary queue and undecodable messages keep the invariant. |
| PipelineTheorems.IntakeNeverStuck | internal/service/payment/qris.go:97-224 | In every reachable state each unfinished intake call can make its next call, with success or with failure. |
| PipelineTheorems.WorkerNeverStuck | internal/service/payment/worker.go:61-203 | In every reachable state each unfinished handler can fail its next call, and can succeed unless that call needs a lost channel. |
| PipelineTheorems.NoAcceptedPaymentLost | internal/queue/consumer.go:157-215 | In every reachable state a transaction whose intake answered "created" is SUCCESS or FAILED, or a copy of its message is ready, unsettled, waiting for retry or dead-lettered. |
| PipelineTheorems.MessageIntegrity | internal/queue/consumer.go:191-234 | Every copy of a job has the published body, its original first-enqueued time and a retry count of 0 to the budget; a dead-lettered job is finished or out of retries. |
| PipelineTheorems.ExhaustionTakesAllDelays | internal/queue/consumer.go:191-198 | A job dead-lettered while unfinished is at least as old as the sum of all its retry delays. |
| PipelineTheorems.CacheNeverAhead | internal/service/payment/worker.go:86-104 | Every cached entry shows a version its row has had, so a terminal cached status means a terminal row. |
| PipelineTheorems.FillNeverAhead | internal/service/transaction/status.go:86-130 | The same of a status a reader has read and not yet cached. |
| PipelineTheorems.TerminalForever | internal/database/sqlc/transactions.sql.go:346-354 | No step takes a transaction from a terminal status back to PROCESSING. |
| PipelineTheorems.CacheKeepsTerminal | internal/service/payment/transfer.go:136-157 | A step replaces a cached terminal status by PROCESSING if and only if it writes a reader's fill taken while the row was unfinished; intake and workers never do. |
| PipelineTheorems.ReadStatusSound | internal/service/transaction/status.go:59-113 | A reader finds exactly the transactions that have a row; it is told the cached entry, and on a miss the row's present status and times, field by field; never a finish that has not happened. |
| PipelineTheorems.ReadLeavesFill | internal/service/transaction/status.go:86-130 | A read that misses the cache leaves one fill with the row's present status and times, and changes nothing else. |
| PipelineTheorems.OneRowOnePublishPerKey | internal/service/payment/qris.go:136-187 | An idempotency key has at most one row, and a row at most one initial publish, made exactly when its intake passed publishing. |
| PipelineTheorems.AnswersAgree | internal/service/payment/qris.go:98-118 | Of the calls with one key at most one is told "created"; one told "replayed" gets that same row, and asked for the same kind, account and amount, for a transfer the same destination, and for QRIS resolved the row's own merchant. |
| PipelineTheorems.CreatingForever | internal/service/payment/transfer.go:94-115 | An intake that has turned to creating never ends as a replay, so losing the race for a key is an error and not a second answer. |
| PipelineTheorems.ReplayWritesNothing | internal/service/payment/transfer.go:65-89 | No step of a call that ends as a replay changes rows, events, cache, queues or other calls. |
| PipelineTheorems.ReplayDecision | internal/service/payment/transfer.go:65-89 | A call with the key of an accepted payment, of either service, creates nothing. If none of its own queries fails and its merchant is found, it gets that payment if and only if kind, account, amount, and destination or resolved merchant agree, and a conflict if and only if they do not. |
| PipelineTheorems.CreatedAsResolved | internal/service/payment/qris.go:131-145 | A QRIS row is created with the merchant that was resolved for its call, a transfer with none. |
| PipelineBounds.StepPays | internal/queue/consumer.go:191-208 | Every step is paid for: calls made plus credit held by live copies and handlers never exceed the allowance. |
| PipelineBounds.LegacyCallsBounded | internal/queue/consumer.go:191-208 | Legacy is called for a transaction at most (budget + 1) times (1 + its requeues), where a requeue is a negative acknowledgement or a lost connection. |
| PipelineExactlyOnce.CleanRunStaysClean | internal/service/payment/worker.go:61-82 | While no call fails, every row, message, handler and intake is at a stage that agrees with the legacy calls and updates made so far. |
| PipelineExactlyOnce.ExactlyOnceWithoutFaults | internal/service/payment/transfer_worker.go:54-62 | While no call fails, no job is retried or dead-lettered; once the queues are drained, each accepted payment has had exactly one legacy call and one update, with SUCCESS if and only if legacy accepted. |
| PipelineAnswers.StatusIsAnAnswer | internal/service/payment/worker.go:74-94 | In every reachable state a SUCCESS version means that legacy, asked what the payment's intake was asked, has accepted it, and a FAILED version of a published payment that it has refused it. |
| PipelineAnswers.LegacyAskedAsRequested | internal/service/payment/transfer_worker.go:54 | Every legacy call ever made carries the request of the intake that inserted its row. |
| PipelineAnswers.CallsMatchLog | internal/service/payment/transfer_worker.go:45-54 | Legacy has been called exactly as often as the event log records a worker's start, less the handlers about to call. |
| PipelineLimits.MessageExactly | internal/service/payment/transfer.go:127-148 | An unfinished payment is carried by some message if and only if its intake got past publishing. |
| PipelineLimits.RowWithoutMessage | internal/service/payment/transfer.go:127-134 | A run that leaves a PROCESSING row and no message. |
| PipelineLimits.SuccessLostExactly | internal/service/payment/worker.go:159-171 | A step takes a row out of SUCCESS if and only if a handler of that payment records a refusal. |
| PipelineLimits.SuccessTurnsFailed | internal/service/payment/transfer_worker.go:54-62 | A run with a lost connection in which legacy is called twice, and SUCCESS becomes FAILED. |
| PipelineLimits.NextCallExactly | internal/service/payment/transfer_worker.go:54 | A step adds a legacy call for a payment if and only if it is the turn of a handler that has logged its start. |
| PipelineLimits.CalledTwiceExactly | internal/service/payment/transfer_worker.go:45-54 | Legacy has been called more than once if and only if the log has two starts more than there are handlers still to call. |
| PipelineLimits.CacheTurnsBack | internal/service/transaction/status.go:116-130 | A run in which a reader's late fill puts PROCESSING back. |
| PipelineRuns.ReachableExactly | internal/queue/consumer.go:157-215 | A state has every property that the empty system has and all steps keep, if and only if some run ends in it. |
| PipelineOutcomes.CreatedExactly | internal/service/payment/qris.go:97-224 | A call of either service ends as created if and only if none of its own turns met an obstacle: a failed call, a taken key, a missing account or merchant, or a refused insert. |
| PipelineOutcomes.MerchantMissingExactly | internal/service/payment/qris.go:131-134 | "Merchant not found" is answered if and only if its own resolution answered so. |
| PipelineOutcomes.NotProvisionedExactly | internal/service/payment/transfer.go:94-100 | "Not provisioned" is answered if and only if its own account lookup found no account. |
| PipelineOutcomes.FailureExactly | internal/service/payment/transfer.go:64-179 | An error is answered if and only if one of its calls failed, other than the last event's, the table refused the row, or a replay found no account. |
| PipelineOutcomes.ComparedExactly | internal/service/payment/transfer.go:65-92 | A replay or a conflict is answered if and only if the key was taken at its own lookup and nothing stopped the comparison. |
| PipelineTrails.UnhinderedIsCreated | internal/service/payment/qris.go:120-224 | A call of either service that no obstacle met ends as created, with a row of exactly its key, amount, account and found merchant, PROCESSING, its creation logged first, and a job that says the same. |
| PipelineTrails.CreatedTrail | internal/service/payment/transfer.go:94-179 | All turns of an accepted call in order, with the whole state change of each: key free, account, merchant, insert, creation event, PROCESSING cached, one job published, and the last event if that call succeeds. It takes no other turns. |
| PipelineTrails.FailedPublishTrail | internal/service/payment/qris.go:187-211 | A call whose publish fails ends as an error after exactly these turns: the row is failed, that is cached if the row could be failed, and the failed publish is logged, each if its call succeeds. |
| PipelineHandlers.JobTrail | internal/service/payment/worker.go:61-133 | All turns of a handler that reached its acknowledgement, in order and with the whole state change of each: start event, one legacy call with the message's request, the row's status by its answer, the same cached, the balance dropped after a success only, and the final event. |
| PipelineHandlers.ErringExactly | internal/queue/consumer.go:174-204 | A handler is dealing with an error if and only if one of its own database or cache calls has failed; legacy's refusal is not an error. |
| PipelineHandlers.DeliveryEnds | internal/queue/consumer.go:172-213 | How each delivery was settled at its last turn, and why: undecodable rejected, handled acknowledged or then rejected, failed rejected if its retries are spent, otherwise acknowledged after a retry or put back. |
| PipelineHandlers.RetryTurn | internal/queue/consumer.go:200-234 | A job is acknowledged as retried if and only if exactly its retry was published: same body and headers with one more retry, due now plus the base delay doubled once per earlier retry, in whole milliseconds. |
| PipelineHandlers.RetryCopyExactly | internal/queue/consumer.go:218-234 | The retry copy, field by field, with its exact due time. |
| PipelineHandlers.CopyMovesExactly | internal/queue/topology.go:89-111 | In every reachable state a copy moves only by delivery, by expiry when due, by its own handler's settlement, or back by the loss of its channel; acknowledged and dead-lettered copies stay. |
| PipelineHandlers.RequeuedExactly | internal/queue/consumer.go:201-202 | The requeues counted are exactly the jobs put back by a negative acknowledgement or a lost channel. |
| PipelineTurns.FinishedForever | internal/queue/consumer.go:172-213 | A finished handler stays finished, with its delivery and message. |
| PipelineStaleness.StaleTurnsExactly | internal/service/payment/transfer_worker.go:64-78 | The cache falls behind a finished row if and only if a row cached as PROCESSING is finished or a late fill is written, and catches up if and only if the finish is cached, a finished fill is written or the entry expires. |
| PipelineStaleness.StaleHasCause | internal/service/payment/worker.go:84-104 | In every run a finished row is cached as PROCESSING only with its cache write still to come, or after a failed cache write or a late fill for it. |
| PipelineStaleness.CacheShowsRow | internal/service/payment/worker.go:159-181 | While no call fails and no reader's fill is written, once the queues are drained the cache has nothing of an accepted payment or exactly its row's final status and times. |
| PipelineSafety.ReachableInv | internal/queue/consumer.go:157-215 | Every reachable state, and so every state the procedures can produce, satisfies the invariant. |
| PipelineNode.Node.CreateTransaction | internal/database/sqlc/transactions.sql.go:17-40 | Inserts one PROCESSING row, unless the call fails, the key is taken or the amount is not positive; then nothing changes. |
| PipelineNode.Node.UpdateTransactionStatus | internal/database/sqlc/transactions.sql.go:346-354 | Adds a version with the status and times to one row and returns the entry that shows it; a failed call changes nothing. |
| PipelineNode.Node.Publish | internal/queue/publisher.go:93-106 | Enqueues exactly one job with retry count 0 and the current time as first-enqueued time, or nothing. |
| PipelineNode.Node.PublishRetryCopy | internal/queue/consumer.go:218-234 | Enqueues exactly one copy with the incremented count, due after the exact delay in whole milliseconds, or nothing. |
| PipelineNode.Node.SettleDelivery | internal/queue/consumer.go:180-212 | Moves exactly the delivered copy to where the settlement sends it, and records a requeue only for a negative acknowledgement. |
| PipelineNode.Node.HandleJob | internal/service/payment/worker.go:61-82 | Handles one job under interference; it fails if and only if one of its own database or cache calls fails, and otherwise has made exactly the turns of the handler's trail with legacy's answer, and the transaction is terminal. |
| PipelineNode.Node.MarkSucceeded | internal/service/payment/transfer_worker.go:64-107 | Fails if and only if one of its four calls fails; otherwise SUCCESS is in the row and then in the cache, the balance is dropped and the success logged, in that order. |
| PipelineNode.Node.MarkFailed | internal/service/payment/worker.go:159-203 | The same for a refused payment: FAILED in the row and then in the cache, the failure logged, and the balance left alone. |
| PipelineNode.Node.RetryLater | internal/queue/consumer.go:200-203 | Unless it fails, a copy with the same body and exactly one more retry waits in the retry queue. |
| PipelineNode.Node.SettleAs | internal/queue/consumer.go:211-213 | One settlement; it cannot succeed on a lost channel, and a failed acknowledgement of a handled job leads to a reject. |
| PipelineNode.Node.SettleError | internal/queue/consumer.go:191-209 | Asks for a reject if and only if the attempts are spent, for an acknowledgement if and only if a retry of the message was published, and otherwise to put it back; unless that call fails, the delivery is there. |
| PipelineNode.Node.ProcessDelivery | internal/queue/consumer.go:172-213 | The session's work on one delivery ends in every branch, through states of the step system only. |
| PipelineNode.Node.RunSession | internal/queue/consumer.go:157-215 | Each turn takes the offered copy if and only if it is ready, and ends with its handling finished before the next begins; it returns how many it took. |
| PipelineNode.Node.TransferReplayMatches | internal/service/payment/transfer.go:181-197 | The loop decides by the first creation event and nothing else. |
| PipelineNode.Node.Replay | internal/service/payment/transfer.go:66-88 | A call that finds its key taken never answers "created". |
| PipelineNode.Node.Offer | internal/service/payment/transfer.go:127-178 | Logs, caches and publishes a new row in that order; it answers "created" with exactly that row if and only if these three calls succeed, and otherwise fails. |
| PipelineNode.Node.Compensate | internal/service/payment/qris.go:187-211 | After a failed publish the row, the cache and the log are corrected as far as possible, and the call fails. |
| PipelineNode.Node.Submit | internal/service/payment/qris.go:97-224 | A whole intake call of either service under interference: created if and only if none of its turns met an obstacle, each of its answers being the environment's; a created row has the request's key, amount and account and the merchant found, and "replayed" names a row of this key that agrees with the request. |
| PipelineNode.Node.AnswerMeaning | internal/service/payment/transfer.go:85-88 | What a finished call was told still holds of the tables, the merchant of a replay included, whatever ran meanwhile. |
| PipelineNode.Node.GetStatus | internal/service/transaction/status.go:50-113 | A hit answers the cached entry and leaves no fill; a miss answers the row's present status and times and leaves just that to be cached; fails exactly if a call it needs fails; a terminal answer is about a terminal row. |
| Backoff.RetryDelayForAttempt | internal/queue/topology.go:78-87 | The doubling loop with 64-bit wrap-around returns base times 2 to the (n - 1) if and only if that fits. |
| Backoff.ScheduledDelaysFit | internal/queue/consumer.go:191-200 | Under a valid configuration no attempt within the budget overflows. |
| Backoff.TotalBackoffClosedForm | internal/queue/consumer.go:225-233 | For a base of whole milliseconds the delays of n retries add up to base times (2 to the n, less 1). |
| Backoff.TotalBackoffBounds | internal/queue/consumer.go:225-233 | In general rounding to milliseconds loses less than one millisecond per retry. |
| Backoff.ExpirationExactly | internal/queue/consumer.go:225-233 | The expiration of attempt n is the base times 2 to the (n - 1), cut to whole milliseconds. |
| Backoff.MaxAttempts | internal/queue/topology.go:50-55 | The budget is the setting if that is positive, and otherwise 3. |
| Backoff.BaseDelay | internal/queue/topology.go:57-62 | The base delay is the setting if that is positive, and otherwise two seconds. |
| Headers.RetryHeadersMeaning | internal/queue/consumer.go:218-223 | A retry raises the count the next consumer reads by one exactly while it fits the header, keeps the first-enqueued time, and keeps every other header. |
| Headers.TextCountReadsBack | internal/queue/consumer.go:236-256 | A count written as decimal text, signed or not, is read as the number it spells. |
| Headers.CloneHeaders | internal/queue/consumer.go:285-295 | The entry-by-entry copy has exactly the entries of the original. |
| Headers.PrepareRetryHeaders | internal/queue/consumer.go:219-223 | The header steps before a retry publish produce the retry headers. |
| Breaker.SequentialKeeps | internal/legacy/circuitbreaker.go:123-135 | In sequential use, Open or HalfOpen implies that the failure count has reached the threshold. |
| Breaker.HalfOpenFailureReopens | internal/legacy/circuitbreaker.go:123-135 | In sequential use a half-open failure always reopens the breaker, from the time it failed. |
| Breaker.LoadBound | internal/legacy/circuitbreaker.go:76-135 | In any window of a sequential run in which every operation fails, at most threshold + (window / timeout) operations are invoked, one still running at its end included, whatever came before. |
| Breaker.ConcurrentInvariant | internal/legacy/circuitbreaker.go:76-120 | Under every interleaving: Closed means fewer failures than the threshold and no half-open successes, Open means none, HalfOpen fewer than needed; in Closed the count is the failures since the last success. |
| Breaker.OpensAtThreshold | internal/legacy/circuitbreaker.go:110-120 | From Closed, the breaker opens exactly on the failure that completes the threshold since the last success. |
| Breaker.OpenWindow | internal/legacy/circuitbreaker.go:80-90 | After an opening failure the opening time never moves back, and the mode is Open until one timeout after it. |
| Breaker.NothingAdmittedWhileOpen | internal/legacy/circuitbreaker.go:80-90 | Under every interleaving nothing is admitted during the timeout that follows an opening failure. |
| Breaker.LateSuccessDefeatsReopening | internal/legacy/circuitbreaker.go:97-107 | A run of admitted calls in which a half-open failure leaves the breaker half open. |
| Breaker.HalfOpenReopensExactly | internal/legacy/circuitbreaker.go:110-120 | Under every interleaving a half-open failure reopens the breaker if and only if the failures since the last reset then reach the threshold. |
| Breaker.ClosesExactly | internal/legacy/circuitbreaker.go:93-108 | Under every interleaving a success closes the half-open breaker if and only if it completes the success threshold since the half-open period began, counted over the operations; closing clears the failure count, and no other success changes the mode. |
| Breaker.AdmitsExactly | internal/legacy/circuitbreaker.go:76-91 | Under every interleaving a request is turned away if and only if the breaker is open and the timeout since the last opening failure has not passed; one let in while open makes it half open. |
| Breaker.OpenedAtExactly | internal/legacy/circuitbreaker.go:110-120 | The opening time is that of the last failure that brought the failures since the last reset to the threshold. |
| Breaker.SuccessesClose | internal/legacy/circuitbreaker.go:123-135 | In sequential use an open breaker that has waited its timeout lets calls in, and closes on the last of success-threshold successes in a row, not before. |
| Breaker.CircuitBreaker.AllowRequest | internal/legacy/circuitbreaker.go:76-91 | Admits unless Open within the timeout, and turns Open into HalfOpen exactly when it admits there. |
| Breaker.CircuitBreaker.RecordSuccess | internal/legacy/circuitbreaker.go:93-108 | Clears the failure count; while half open it counts the success and closes, with the count back at zero, exactly on the one that reaches the threshold. The new state is the one the interleaving theorems are about. |
| Breaker.CircuitBreaker.RecordFailure | internal/legacy/circuitbreaker.go:110-120 | The new state is the one the interleaving theorems are about. |
| Breaker.CircuitBreaker.ExecuteWithValue | internal/legacy/circuitbreaker.go:138-153 | Invokes the operation exactly if admitted, returns its value or its error, and leaves the state the load bound is about. |
| Rfc3339.ParseFormat | internal/service/transaction/history.go:166-185 | Parsing undoes formatting for every UTC instant of the years 0 to 9999 at nanosecond precision, through trimmed fractions. |
| Rfc3339.ParseExactly | internal/service/transaction/history.go:182-185 | A text is read as an instant if and only if it spells that valid instant. |
| Rfc3339.FormatShape | internal/service/transaction/history.go:166-169 | Where each field stands in the formatted text. |
| UuidText.ParseText | internal/service/transaction/history.go:187-190 | Parsing undoes printing for every UUID. |
| UuidText.ParseExactly | internal/service/transaction/history.go:187-190 | A text is read as a UUID if and only if it is that UUID's own text, letters in either case. |
| UuidText.TextShape | internal/service/transaction/history.go:166-169 | Where each byte stands in the printed text. |
| Base64Url.DecodeEncode | internal/service/transaction/history.go:168-175 | Decoding undoes unpadded base64url encoding for byte strings of every length. |
| Base64Url.DecodeExactly | internal/service/transaction/history.go:172-175 | A text is decoded if and only if, line breaks apart, it is of the alphabet and leaves no single character over; the result encodes back to it up to the spare bits of its last character. |
| Base64Url.EncodeBlock | internal/service/transaction/history.go:166-169 | A test vector of section 10 of RFC 4648: a whole block. |
| Cursor.RoundTrip | internal/service/transaction/history.go:166-196 | Decoding an encoded cursor gives back its position. |
| Cursor.DecodeExactly | internal/service/transaction/history.go:171-196 | A cursor is accepted if and only if it carries a readable timestamp and a readable identifier with a bar in between, and is then taken for exactly those. |
| Cursor.EncodeInjective | internal/service/transaction/history.go:166-169 | Different positions have different cursors, and no cursor is empty. |
| Cursor.EncodeVisible | internal/service/transaction/history.go:166-169 | Every character of a cursor is of the base64url alphabet, so trimming cannot change it. |
| History.BelowOrder | internal/database/sqlc/transactions.sql.go:290-293 | The query's row comparison is a strict total order; `History.BelowExactly` says which. |
| History.EarlierExactly | internal/database/sqlc/transactions.sql.go:290 | One timestamp is less than another if and only if it is fewer nanoseconds from the start of year 0, by day number and time of day. |
| History.LexExactly | internal/database/sqlc/transactions.sql.go:291 | Identifiers are ordered as the 16-byte numbers they spell. |
| History.BelowExactly | internal/database/sqlc/transactions.sql.go:290-293 | A position is below another if and only if it is older: an earlier time, or the same time and a smaller identifier. |
| Timeline.DaysBeforeYearClosed | internal/service/transaction/history.go:166-169 | The day numbers are those of the Gregorian calendar. |
| History.MatchingMeaning | internal/database/sqlc/transactions.sql.go:284-295 | Filter and sort return exactly the selected rows, each once, strictly descending. |
| History.PageMeaning | internal/service/transaction/history.go:96-121 | A page is descending and holds only qualifying rows; every qualifying row it leaves out is below all of it, and then the page is full and has a next cursor. |
| History.PageNewestFirst | internal/service/transaction/history.go:96-121 | In terms of time and identifiers as numbers: a page lists the newest rows asked for, newest first; any it leaves out is older than all of it, and then the page is full. |
| History.NextStartsBelow | internal/service/transaction/history.go:78-86 | A cursor made by one page is read by the next as that page's last position, never as blank. |
| History.EffectiveLimit | internal/service/transaction/history.go:67-73 | The page size is always 1 to 100: the requested one if that is in range, 20 for a non-positive request, 100 for a larger one. |
| History.NormalizeLimit | internal/service/transaction/history.go:199-208 | Refuses exactly the non-positive limits, and otherwise agrees with the service's own page size. |
| History.ListByAccount | internal/service/transaction/history.go:56-128 | Fails exactly on a malformed cursor or a failed query, and otherwise returns the page at the cursor's position, newest first. |
| HistoryWalk.TextWalk | internal/service/transaction/history.go:75-121 | Following the cursors a service hands out visits the positions they stand for, whatever the service, if it reads its own cursors back. |
| HistoryWalk.HistoryWalksByPosition | internal/service/transaction/history.go:75-121 | The history service does: its walks go from each page's last row to the rows below it. |
| HistoryWalk.WalkDelivers | internal/service/transaction/history.go:96-121 | From any position, over tables that grow between fetches, a walk is strictly descending below its start and, if finished, covers every row that was there below its start. |
| HistoryWalk.StablePaging | internal/service/transaction/history.go:96-121 | However rows are inserted between fetches, the pages of a walk together are strictly descending, without duplicates and of this account only; those of a finished walk contain every row present when it began. No fetch may follow a full page that ends on the zero time. |
| HistoryWalk.StablePagingExactly | internal/service/transaction/history.go:96-121 | That condition is exact: without it the pages do not descend. |
| HistoryWalk.NoZeroTimeSuffices | internal/database/sqlc/transactions.sql.go:287-291 | It holds of every account none of whose rows was created at the zero time. |
| HistoryList.WalkIsListWalk | internal/service/transaction/history.go:96-121 | Following cursors over an unchanging table is the same as stepping through the sorted list by row numbers. |
| HistoryList.ListingMeaning | internal/database/sqlc/transactions.sql.go:284-295 | The listing is strictly descending and holds exactly the account's rows. |
| HistoryList.WalkEndsExactly | internal/service/transaction/history.go:67-121 | A walk ends if and only if no full page ends on a row created at the zero time; it then takes at most rows / size + 1 fetches and yields the listing. |
| HistoryList.WalkEndsWithoutZeroTime | internal/service/transaction/history.go:67-121 | Without rows created at the zero time every walk ends with the listing, also when the last page is exactly full. |
| HistoryList.ListWalkNeverEnds | internal/database/sqlc/transactions.sql.go:289-291 | A full page that ends on the zero time sends the walk back to its start for ever. |
| HistoryList.ZeroTimeRepeats | internal/database/sqlc/transactions.sql.go:287-291 | One row created at the zero time, with pages of one row: the walk never ends and repeats the row. |
| MerchantFill.OneLegacyLookupAtATime | internal/service/merchant/service.go:94-130 | While every holder starts its call within less than lock lifetime less call limit, no two legacy lookups of one merchant are in flight together. |
| MerchantFill.SlowHoldersOverlap | internal/cache/policy.go:21 | For every larger gap there is a run in which two are: the bound is exact. |
| MerchantFill.ReleaseSparesOthers | internal/cache/redis.go:454-459 | No release removes a lock another lookup holds, even after the releaser's own has expired. |
| MerchantFill.AnswersAreAuthoritative | internal/service/merchant/service.go:56-145 | "No such merchant" is answered only for an identifier legacy itself has denied, and a merchant only as database or legacy gave it. |
| MerchantFill.DenialHasASource | internal/service/merchant/service.go:132-138 | Behind every denial there is an earlier step at which legacy denied that very identifier. |
| MerchantFill.NobodyOverstays | internal/service/merchant/service.go:174-203 | No waiter is still waiting after its budget, and no legacy call is in flight after its deadline. |
| MerchantAnswers.AnswersExactly | internal/service/merchant/service.go:47-146 | A lookup has an answer if and only if one step of its own decided it: the cache, the database or legacy gave it there, a wait was given up, or a call failed. |
| MerchantAnswers.WaitsOnlyForLock | internal/service/merchant/service.go:94-115 | A lookup waits only after finding the lock held. |
| MerchantAnswers.LockTakenExactly | internal/cache/redis.go:415-439 | A free lock is taken for three seconds; a held one is left alone. |
| MerchantAnswers.ReleaseFrees | internal/cache/redis.go:442-468 | A release frees the lock that the lookup still holds. |
| MerchantAnswers.LearnedIsLeft | internal/service/merchant/service.go:117-162 | Every row found in the database and every answer of legacy, and nothing else, is left to be cached. |
| MerchantAnswers.WrittenExactly | internal/cache/policy.go:19-20 | A merchant is cached for a day under its own identifier, a denial for ten seconds under the one asked for; no other step touches the entries. |
| MerchantService.MerchantKeys.AcquireLock | internal/cache/redis.go:415-439 | Succeeds exactly if no unexpired lock is there, and then holds the lock with this token for its lifetime. |
| MerchantService.MerchantKeys.ReleaseLock | internal/cache/redis.go:442-468 | Deletes the lock only if it carries this token; every other live lock stays. |
| MerchantService.MerchantKeys.Put | internal/cache/redis.go:138-193 | Afterwards a read finds what was put, under the merchant's own identifier. |
| MerchantService.WaitForMerchantFill | internal/service/merchant/service.go:164-204 | Ends within 750ms and at most 15 polls, with exactly what the first poll that did not miss found, or fails when the next poll would be too late. |
| MerchantService.Service.FillUnderLock | internal/service/merchant/service.go:117-145 | Asks legacy once, leaves exactly its answer to be cached, and releases only its own lock. |
| MerchantService.Service.GetMerchant | internal/service/merchant/service.go:47-146 | What each branch answers and leaves to be cached: a cache hit, a cached denial, a database hit, legacy's answer under a free lock, a poll's answer under a held one; legacy is asked exactly on a double miss with a free lock. |
| Provisioning.ProvisioningConverges | internal/service/auth/service.go:229-274 | However logins interleave there is at most one account per number, every successful call returns the account of its number, and calls agree exactly if their numbers do. |
| Provisioning.RacesAreNotErrors | internal/service/auth/service.go:243-273 | A call fails only if one of its own queries failed, never because it lost a race. |
| Provisioning.AccountHasItsUser | internal/service/auth/service.go:240-274 | Over every run each account belongs to the user of a customer whose login asked for its number. |
| Provisioning.Directory.EnsureUser | internal/service/auth/service.go:240-257 | Under concurrent inserts, returns a user of the customer or fails only on a failed query of its own. |
| Provisioning.Directory.EnsureAccountProvisioned | internal/service/auth/service.go:229-274 | Under concurrent inserts, returns the account of the number, which if this call created it belongs to the customer's user, or fails only on a failed query of its own. |
| MerchantMaterialisation.ResolvedMeaning | internal/service/payment/qris.go:243-276 | A successful call by code has looked its reference up; it returns the row coded as the reference if there was one at that moment, and otherwise the row coded as legacy said. |
| MerchantMaterialisation.AnswersExactly | internal/service/payment/qris.go:226-277 | A call has an answer if and only if one step decided it: a row found by identifier or code, or inserted; "not found" only for an empty reference, an identifier without a row or legacy's denial; an error only for a failed call. |
| MerchantMaterialisation.RowsAreReported | internal/service/payment/qris.go:262-269 | Every row has the code and the name that legacy gave for it. |
| MerchantMaterialisation.RepeatedCallsAgree | internal/service/payment/qris.go:243-276 | Two successful calls with one reference and one legacy answer return one merchant if and only if that answer is the reference, or the reference's own row was in the table at both lookups or at neither. |
| MerchantMaterialisation.RepeatedCallsDiffer | internal/service/payment/qris.go:243-276 | They differ if and only if legacy's code is another and the reference's own row appeared between the two lookups. |
| MerchantMaterialisation.RepeatedCallsMayDiffer | internal/service/payment/qris.go:262-269 | A run in which they differ. |
| MerchantMaterialisation.Catalogue.CreateOrReload | internal/service/payment/qris.go:262-276 | Returns the one row of the code, inserted by this call or by another, and fails only on a failed query. |
| MerchantMaterialisation.Catalogue.ResolveMerchant | internal/service/payment/qris.go:226-277 | A whole call: an existing identifier is found, a code is resolved as the table at its own lookup decides, and a created row has legacy's name; "not found" and errors each have their cause. |

## Left out

- The HTTP layer, DTO mapping, start-up, configuration parsing, sessions and tokens, and the rate limiter: plumbing, or bound to library code.
- SOAP transport and XML: legacy is an oracle that accepts, refuses or fails.
- Metrics, traces, legacy call logs, log messages and failure reasons: nothing is decided by them. Of the balance cache
  the model has the invalidations, not the content.
- Queue order, prefetch, and the two queues being separate: deliveries happen in any order. Expiry is allowed at any time after it is due, which includes waiting behind an earlier message.
- Well-formed jobs that no intake published: other publishers send undecodable bodies only.
- Calls that take effect and still report an error.
- Row identifiers of the pipeline are table positions; the history and the cursor use real UUIDs.
- Postgres keeps microseconds; the model keeps every time as given, and uses one instant for `processed_at` and `updated_at` of one update.
- In the pipeline merchant resolution is one step with an arbitrary answer; `MerchantMaterialisation.dfy` models it in full.
- A nil account provisioner, a nil legacy merchant client and a nil balance cache, which skip the respective calls.
- Rfc3339.Parse: accepts offset Z and two-digit hours only; Go's parser also takes other offsets, one-digit hours and a comma before the fraction.
- UuidText.Parse: accepts the canonical form only; the library also takes URN, braced and undashed forms.
- MessageLag of header text: the first-enqueued header is represented by the instant it names; `Rfc3339.ParseFormat` covers its text.
- Merchant references that parse as UUIDs, and trimming of references: a reference is given as empty, an identifier or a code.
