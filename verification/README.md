# Ops API ingest: a verified model

The ops API of this repository takes events from bots and agents (conversation messages, request attempts,
infrastructure snapshots), keeps a ledger of them, retries the ones that failed, and answers dashboard
queries over what it stored. This project models that core in Dafny and proves what it promises.

`dafny verify dfyconfig.toml` checks everything.

## How the model is laid out

| Part | Modules |
|---|---|
| Values: time, byte strings, errors, events | `Domain` |
| The ledger as a value, and what each atomic ledger call does | `Ledger`, `LedgerView`, `Leasing`, `QueueStatus` |
| The lease, retry and dead-letter protocol as a state machine: any number of deliveries and retry workers, crashes, expired leases, failing calls, calls that fail after taking effect, late clock readings, retention | `Protocol`, `ProtocolSafety`, `ProtocolTimed`, `ProtocolWaits`, `ProtocolClean`, `ProtocolPayload`, `ProtocolFairness` |
| Runs of the protocol, and exactly when its guarantees hold | `ProtocolRuns`, `ProtocolBudget`, `ProtocolStarvation`, `ProtocolWitnesses`, `ProtocolStability`, `ProtocolErrors`, `ProtocolRetention` |
| The ingest service as a class over a store whose calls may fail, and the proof that its calls are runs of the protocol | `IngestService`, `BatchAccounting`, `ServiceCalls`, `ServiceLaws`, `ServiceSteps`, `ServiceModel`, `Api` |
| The in-memory store as a class, its rows as a value, and runs of it | `Store`, `Tables`, `Rows`, `StoreRuns`, `LastWrites`, `Keys`, `Merge` |
| Retention, the dashboard figures, the metrics registry, the security findings | `Retention`, `Pruning`, `RetentionService`, `Timeseries`, `Dashboard`, `Telemetry`, `Findings`, `Paging` |
| Retry backoff, sorting, rounding up | `Backoff`, `Sorting`, `Arithmetic` |

The classes follow the source's objects: fields that methods update in place, each method proved against a
function of the old state. The state machine uses the same ledger functions (`Claim`, `Complete`, `Fail`,
`TakeBatch`, `Purge`) as the contracts of the store's methods. `Api.Process` closes the gap between the two.
It is the process that serves the API from memory: it keeps a ghost history beside its store, and each of
its operations (a delivery, a retry batch, a retention run, whatever their calls come to) keeps the ledger
and the rows those of a run of the state machine that leaves no holder behind. So what is proved of every
run holds of the store; `Api.Process.CompletedConversationIsReflected` is an example that goes from the
protocol to the stored rows.

Calls of the store may fail. A ghost log keeps what each call answered, and the contracts of the services say
which calls they make and that their results follow from these answers. So an operation without a failing
call does all that it should (`ServiceLaws.CleanDelivery`, `ServiceLaws.CleanBatch`), and an error is always
the answer of a call.

## What holds only under a condition

Where the code does not meet a property on all inputs, the model says exactly when it does (if and only if).

* Backoff (`Backoff.ClosedFormIff`): the loop computes `min(max, base * 2^(n-1))` for every attempt exactly
  when the first doubling that reaches the maximum fits in 64 bits. A maximum below 2^62 ns always does; at
  2^62 ns the second attempt already gets a negative delay (`Backoff.OverflowAtTheBound`). The service's
  constructor also accepts a base above the maximum; then the first delay, and only the first, exceeds the
  maximum (`Backoff.DelayBoundIff`). Only the configuration loader rules that out. Delays are monotone and
  positive on the same condition (`Backoff.DelayIsMonotoneIff`, `Backoff.DelaysArePositiveIff`).
* No starvation (`ProtocolStarvation.NoStarvationIff`): a due event gets its turn within the batches that its
  rank asks for exactly when doubling does not overflow in this way, or only one attempt is allowed. A
  negative delay queues a failure for the past, ahead of events that are already due
  (`ProtocolStarvation.OverflowStarves`). Clock readings are no earlier than the start of the wait.
* Terminal statuses (`ProtocolStability.TerminalIsStableIff`): a terminal record is stable exactly when nobody
  holds it with a write that would change it. The ledger writes are unconditional, so a holder that outlived
  its lease can put a completed event back into the queue
  (`ProtocolWitnesses.LateFailureRevivesCompleted`), and so can a completion mark that takes effect but
  answers with an error (`ProtocolWitnesses.LostMarkRevivesCompleted`). While only holders within their lease
  write to the event, and no mark is lost in this way, neither can happen
  (`ProtocolTimed.TerminalsAreAbsorbing`).
* Completed implies persisted (`ProtocolErrors.CompletedImpliesAppliedIff`): exactly when none of the transient
  errors that persist calls return without having taken effect begins with the text that marks a completion
  error, or only one attempt is allowed. The errors of the repository's own stores meet this
  (`ProtocolErrors.StoresDoNotMislead`).
* The same for the record's own payload (`ProtocolRetention.RetentionIsSafeIff`): a ledger identifies an event
  by its key alone, so a key that is deleted and delivered again can be completed by a holder of the old
  event. A retention delete is safe for all continuations exactly when no holder of a deleted key is at work
  on it or about to ask that the payload be skipped. `ProtocolWitnesses.LateCompletionHidesPayload` is a run
  from the start in which it is not.
* Retry budget (`ProtocolBudget.AttemptsBoundIff`): the ingest specification speaks of bounded attempts, but
  only recorded failures count. An event that was reclaimed at most `b` times has at most `maxAttempts + b`
  attempts, and no smaller bound holds for any `b`: it leaves RetryScheduled fewer than `maxAttempts` times
  (`ProtocolBudget.RetriesIff`), but holders that keep crashing are replaced without end
  (`ProtocolBudget.CrashLoop`).
* Conversation status: it is independent of the delivery order exactly when all deliveries that could decide
  it agree (`Merge.StatusIsOrderIndependentIff`). The in-memory merge and the SQL merge differ in one point:
  among deliveries with the latest end, the first decides in memory and the last in SQL
  (`Merge.RulesAgreeIff`).
* Time buckets contain the attempts they count exactly from the Unix epoch on, and before it only on bucket
  boundaries, because the division truncates toward zero (`Timeseries.BucketContainsIff`).
* Security findings: repeating a detection at once changes nothing exactly when its finding was stored
  before, or arrives complete (`Findings.DetectedTwiceIff`).

## Model

| member | source | states |
|---|---|---|
| `Keys.EncodeKeyPart` | apps/backend/internal/repository/memory/ingest.go:355-361 | the accumulating loop yields the length-prefixed encoding of the part list, for any bytes |
| `Keys.DecodeInvertsEncode` | apps/backend/internal/repository/memory/ingest.go:355-361 | a decoder recovers every part list from its encoding |
| `Keys.EncodeIsInjective` | apps/backend/internal/repository/memory/ingest.go:355-361 | two part lists share an encoding only if they are equal, whatever their lengths and bytes |
| `Keys.IngestKeyIsInjective` | apps/backend/internal/repository/memory/ingest.go:329-331 | row keys are equal exactly for equal source and external id |
| `Keys.IngestEventKeyIsInjective` | apps/backend/internal/repository/memory/ingest.go:333-335 | ledger keys are equal exactly for equal event identities |
| `Backoff.BackoffForAttempt` | apps/backend/internal/ingest/service.go:298-311 | the doubling loop on 64-bit durations, and the number of rounds it makes |
| `Backoff.ClosedFormIff` | apps/backend/internal/ingest/service.go:298-311 | the delay is min(max, base * 2^(n-1)) for every attempt if and only if the first doubling to reach the maximum does not overflow |
| `Backoff.OverflowBreaksClosedForm` | apps/backend/internal/ingest/service.go:298-311 | when it does overflow, some attempt after the first gets a negative delay |
| `Backoff.SmallMaximumDoesNotOverflow` | apps/backend/internal/ingest/service.go:298-311 | a maximum below 2^62 never overflows |
| `Backoff.OverflowAtTheBound` | apps/backend/internal/ingest/service.go:298-311 | the bound 2^62 is sharp |
| `Backoff.DelayIsMonotone` | apps/backend/internal/ingest/service.go:298-311 | if the first doubling to reach the maximum does not overflow, delays are positive, grow with the attempt count and stay within the maximum |
| `Backoff.DelayIsMonotoneIff` | apps/backend/internal/ingest/service.go:298-311 | delays grow with the attempt count if and only if that doubling does not overflow |
| `Backoff.DelaysArePositiveIff` | apps/backend/internal/ingest/service.go:298-311 | all delays are positive if and only if it does not, also for a base above the maximum |
| `Backoff.DelayBoundIff` | apps/backend/internal/ingest/service.go:54-63 | no delay exceeds the maximum if and only if the base does not, which the constructor leaves open; from the second attempt on none does in any case |
| `Backoff.RoundsAreLogarithmic` | apps/backend/internal/ingest/service.go:298-311 | if the first doubling to reach the maximum does not overflow, the number of rounds is logarithmic in max / base, however large the attempt count |
| `Backoff.RoundsAtTheBound` | apps/backend/internal/ingest/service.go:298-311 | with overflow it need not be: for a base and a maximum of 2^62 the loop runs for every attempt that it is asked for |
| `Merge.FoldMeaning` | apps/backend/internal/repository/memory/ingest.go:223-261 | after any deliveries, start is the minimum, end the maximum of those set, and one determined delivery gives the status |
| `Merge.FoldTakesLast` | apps/backend/internal/repository/memory/ingest.go:223-261 | channel and account are those of the last delivery |
| `Merge.TimesAreOrderIndependent` | apps/backend/internal/repository/memory/ingest.go:223-261 | every order of the same deliveries, under either merge, gives the same start and end |
| `Merge.StatusIsOrderIndependentIff` | apps/backend/internal/repository/memory/ingest.go:223-261 | the final status is the same in every order if and only if all deliveries that could decide it agree |
| `Merge.StatusOf` | apps/backend/internal/repository/memory/ingest.go:223-261 | the status is that of the first delivery with the latest end, or of the last delivery if none has ended |
| `Merge.RulesAgreeIff` | apps/backend/internal/repository/postgres/ingest.go:408-441 | memory and SQL agree on the times always, and on the status exactly when the first and the last delivery with the latest end do |
| `Merge.RulesAgree` | apps/backend/internal/repository/postgres/ingest.go:408-441 | the two merges agree when deliveries with equal ends carry equal statuses |
| `Merge.MergeIsIdempotent` | apps/backend/internal/repository/memory/ingest.go:223-261 | replaying a delivery changes nothing, under either merge |
| `Ledger.PopulationsPartition` | apps/backend/internal/repository/memory/ingest.go:171-198 | the four statuses partition the ledger |
| `Ledger.BatchSize` | apps/backend/internal/repository/memory/ingest.go:140-142 | a positive limit is kept, any other stands for 10 |
| `LedgerView.ViewLookup` | apps/backend/internal/repository/memory/ingest.go:333-335 | looking up an encoded key in the string-keyed map is looking up the identity |
| `LedgerView.ViewPut` | apps/backend/internal/repository/memory/ingest.go:333-335 | storing under an encoded key changes the entry of one identity and no other |
| `LedgerView.ViewDelete` | apps/backend/internal/repository/memory/retention.go:107-112 | deleting encoded keys deletes exactly the identities behind them |
| `Leasing.SortedPrefixIsBatch` | apps/backend/internal/repository/memory/ingest.go:136-169 | the cut of the sorted due records takes the earliest, and all of them if they fit |
| `Leasing.SortedStaysDue` | apps/backend/internal/repository/memory/ingest.go:141-155 | sorting in any tie order neither loses, adds nor repeats a due record |
| `Leasing.BatchTakesDue` | apps/backend/internal/repository/memory/ingest.go:337-346 | a batch takes a retry only when its time has come, and a record in Processing only when its lease has run out; only a full batch leaves one of these behind |
| `Leasing.TerminalsAreNeverLeased` | apps/backend/internal/repository/memory/ingest.go:337-346 | completed events and dead letters are never leased |
| `Leasing.BatchIsOldestFirst` | apps/backend/internal/repository/memory/ingest.go:348-353 | a batch takes what has been due the longest, retries by their time and stale attempts by their last one |
| `QueueStatus.CountDescribes` | apps/backend/internal/repository/memory/ingest.go:171-198 | counting the events in any order gives the populations and the oldest ages |
| `Protocol.Config.WithDefaults` | apps/backend/internal/ingest/service.go:54-76 | each setting that is not positive gets its default, and the others stay |
| `Protocol.TransientFailuresAreRetried` | apps/backend/internal/ingest/service.go:255-259 | a failure asks for a retry exactly if it is transient: no delay, overflowing or not, leads to the zero time |
| `ProtocolSafety.RunIsBooked` | apps/backend/internal/repository/memory/ingest.go:103-169 | budget and conservation hold in every state of every interleaving |
| `ProtocolSafety.RunIsSafe` | apps/backend/internal/ingest/service.go:150-296 | no event is completed, and none skips its payload, before the payload is persisted, in every state of every interleaving without a misleading persist error |
| `ProtocolSafety.CompletedImpliesApplied` | apps/backend/internal/ingest/service.go:150-296 | a completed key had its payload persisted, with crashes, expired leases, failing calls and calls that fail after taking effect allowed, if no persist error misled |
| `ProtocolErrors.CompletedImpliesAppliedIff` | apps/backend/internal/ingest/service.go:255-277 | whatever else the stores answer, completed implies applied in every reachable state if and only if none of the transient errors of persist calls without effect begins like a completion error, or there is only one attempt |
| `ProtocolErrors.StoresDoNotMislead` | apps/backend/internal/repository/postgres/ingest.go:542-550 | the transient errors of the repository's own stores meet that condition |
| `ProtocolSafety.SkippedPayloadsAreApplied` | apps/backend/internal/ingest/service.go:204-207 | a worker skips the payload only of keys that already had it persisted |
| `ProtocolSafety.RetriesStayWithinBudget` | apps/backend/internal/repository/memory/ingest.go:103-134 | a scheduled retry has attempts left and a due time; a record is leased out of the queue fewer than maxAttempts times; attempts exceed the maximum by at most the reclaims of expired leases |
| `ProtocolBudget.AttemptsBoundIff` | apps/backend/internal/repository/memory/ingest.go:103-169 | the attempts of all reachable events that were reclaimed at most b times are bounded by n if and only if maxAttempts + b is at most n |
| `ProtocolBudget.RetriesIff` | apps/backend/internal/repository/memory/ingest.go:103-169 | some reachable event has been leased i times from the queue and reclaimed b times if and only if i is below maxAttempts, whatever b is |
| `ProtocolBudget.LifeIsReached` | apps/backend/internal/repository/memory/ingest.go:103-169 | recorded transient failures lead to every number of queue leases below maxAttempts, and crashes from there to every number of reclaims |
| `ProtocolBudget.CrashLoop` | apps/backend/internal/repository/memory/ingest.go:337-346 | crashing holders are replaced any number of times without a dead letter |
| `ProtocolSafety.EventsAreConserved` | apps/backend/internal/repository/memory/ingest.go:171-198 | claims inserted minus retention deletes equals the sum of the four populations, across every run |
| `ProtocolSafety.AttemptsNeverDecrease` | apps/backend/internal/repository/memory/ingest.go:136-169 | the attempt count of a living record never decreases |
| `ProtocolWaits.RetriesWait` | apps/backend/internal/ingest/service.go:255-265 | in every run, a batch that takes an event out of the retry queue reads a clock no earlier than a transient failure of that event plus the delay of the failed attempt |
| `ProtocolWaits.RetriesWaitExponentially` | apps/backend/internal/ingest/service.go:298-311 | when doubling does not overflow, that delay is the base, doubled for each earlier attempt, and at most the maximum |
| `ProtocolTimed.LeasesExclude` | apps/backend/internal/repository/memory/ingest.go:136-169 | when the writes to an event are within their leases, and none is a completion mark that answers with an error, it has at most one live holder, which holds the record as stored, in Processing; other events may be written to at any time |
| `ProtocolTimed.TerminalsAreAbsorbing` | apps/backend/internal/repository/memory/ingest.go:88-134 | a terminal record to which only live holders write, and never with a completion mark that answers with an error, never changes until retention deletes it |
| `ProtocolStability.TerminalIsStableIff` | apps/backend/internal/repository/memory/ingest.go:88-134 | in any state, no continuation but a retention delete changes a terminal record if and only if nobody holds it with a write that would change it |
| `ProtocolTimed.BatchesSpareLiveHolders` | apps/backend/internal/repository/memory/ingest.go:337-346 | no batch takes a record from a live holder, even with a clock reading that lags |
| `ProtocolTimed.TimelyStep` | apps/backend/internal/repository/memory/ingest.go:88-169 | each step whose write to the event, if any, is within its lease and no lost completion mark keeps the holders of the event exclusive |
| `ProtocolClean.PayloadTakesEffectOnce` | apps/backend/internal/ingest/service.go:186-206 | in a run in which no holder of the event crashes, and none of its failure records or leases is lost, its payload is persisted at most once, and exactly once if the event completes; what happens to other events does not matter |
| `ProtocolClean.LastAttemptIsTerminal` | apps/backend/internal/ingest/service.go:255-265 | in such a run the event has at most maxAttempts attempts, and once the last is reported it is terminal |
| `ProtocolClean.CleanRun` | apps/backend/internal/ingest/service.go:150-296 | in such a run the event has a holder whenever it is Processing, its holders are exclusive and its effects are counted |
| `ProtocolPayload.CompletedImpliesOwnPayloadApplied` | apps/backend/internal/repository/memory/retention.go:90-114 | while retention spares keys that somebody may still complete, a completed record had its own payload persisted |
| `ProtocolRetention.RetentionIsSafeIff` | apps/backend/internal/repository/memory/retention.go:90-114 | in every such state, deleting keys is safe for all continuations if and only if no holder of one of them is at work on it or about to ask that the payload be skipped |
| `ProtocolFairness.SkippingBatchesAdvance` | apps/backend/internal/repository/memory/ingest.go:136-169 | a batch that skips a waiting event moves exactly limit earlier events behind it |
| `ProtocolFairness.NobodyOvertakes` | apps/backend/internal/repository/memory/ingest.go:348-353 | no other step adds to the events that are, or are about to be, before a waiting one, unless failures can be queued for the past |
| `ProtocolFairness.SkippedCapacity` | apps/backend/internal/repository/memory/ingest.go:136-169 | the batches that skip a waiting event have less room than events ranked before it, unless failures can be queued for the past |
| `ProtocolFairness.NoStarvation` | apps/backend/internal/repository/memory/ingest.go:136-169 | a due event that nobody holds is leased within ceil(m / limit) batches, m being the events not behind it and the failures on their way that would overtake it, unless failures can be queued for the past |
| `ProtocolStarvation.NoStarvationIff` | apps/backend/internal/repository/memory/ingest.go:136-169 | for settings that fit 64 bits, no waiting event misses its ceil(m / limit) batches, in any run from any reachable state, if and only if the first doubling to reach the maximum does not overflow or only one attempt is allowed |
| `ProtocolStarvation.OverflowStarves` | apps/backend/internal/repository/memory/ingest.go:136-169 | otherwise a reachable state, from which a failure recorded for the past takes the batch of an event that was due before |
| `ProtocolWitnesses.LateFailureRevivesCompleted` | apps/backend/internal/repository/memory/ingest.go:103-134 | a failure recorded after the lease ran out turns Completed back into RetryScheduled |
| `ProtocolWitnesses.LostMarkRevivesCompleted` | apps/backend/internal/ingest/service.go:279-296 | a completion mark that takes effect but answers with an error puts the completed event back into the queue, within the lease |
| `ProtocolWitnesses.LateCompletionHidesPayload` | apps/backend/internal/repository/memory/ingest.go:88-101 | a late completion after a retention delete marks a redelivery Completed whose payload was not persisted |
| `ProtocolWitnesses.MisleadingErrorSkipsPayload` | apps/backend/internal/ingest/service.go:275-277 | any transient persist error that begins like a completion error makes the retry skip the payload, if there is a retry |
| `IngestService.Service.constructor` | apps/backend/internal/ingest/service.go:54-76 | the service keeps the defaulted configuration |
| `IngestService.Service.RetryTime` | apps/backend/internal/ingest/service.go:255-259 | a transient failure is retried its delay after a reading of the clock, any other failure never |
| `IngestService.Service.HandleFailure` | apps/backend/internal/ingest/service.go:255-265 | the ledger after a failure, with the delay of its attempt from a clock reading if it was transient, and an answer that says how the ledger then stands; one call of the store, and nothing changes if it fails |
| `ServiceCalls.ReportMeans` | apps/backend/internal/ingest/service.go:255-265 | a recorded failure is queued again, for its delay after the clock reading, exactly if it was transient and attempts are left, and is a dead letter otherwise; nothing else in the ledger changes |
| `IngestService.Service.AnswerFailure` | apps/backend/internal/ingest/service.go:178-199 | the answer to a failed delivery, for a record that is as claimed, was changed or is gone: the failing call's own error comes with a dead letter or no outcome |
| `ServiceCalls.AnswerTells` | apps/backend/internal/ingest/service.go:178-201 | while the record is as claimed, the outcome of a delivery stands for the status that the ledger then holds; without one it is left in Processing |
| `IngestService.Service.ReportFailure` | apps/backend/internal/ingest/service.go:237-250 | the ledger and the outcome after a failed retry; an error means that nothing was recorded, or that the event is gone |
| `IngestService.Service.CompleteLeasedEvent` | apps/backend/internal/ingest/service.go:279-296 | a failed completion is reported with the prefixed error, and returns its own error if the event is gone |
| `IngestService.Service.CompleteDelivery` | apps/backend/internal/ingest/service.go:188-201 | the same for the completion of a first delivery |
| `IngestService.Service.PersistLeased` | apps/backend/internal/ingest/service.go:211-235 | a payload that decodes as its event type is passed to the store, whose answer is returned; otherwise the store is not called, and the answer is the decode error |
| `IngestService.Service.ProcessLeasedEvent` | apps/backend/internal/ingest/service.go:204-253 | the calls that one pass makes of the store, in order, and what the ledger, the rows and the outcome are, as their answers determine |
| `IngestService.Service.ClaimDelivery` | apps/backend/internal/ingest/service.go:150-176 | exactly the first delivery of a key is inserted, as a first attempt in Processing |
| `IngestService.Service.Deliver` | apps/backend/internal/ingest/service.go:178-201 | the same for a first delivery, and its answer |
| `IngestService.Service.Ingest` | apps/backend/internal/ingest/service.go:150-202 | a redelivery changes nothing and is answered as a duplicate, queued or a dead letter, as its record stands; a first delivery is claimed at a clock reading, persisted and completed as far as its calls succeed |
| `IngestService.Service.ProcessDueRetries` | apps/backend/internal/ingest/service.go:112-143 | a failed lease changes nothing; otherwise what is due by a clock reading is leased and every event attempted, the counters and the first error follow from what its calls answered, and add up to the batch exactly when no error is returned |
| `IngestService.Service.ProcessBatch` | apps/backend/internal/ingest/service.go:124-142 | a failing event does not stop those behind it, for any items and whatever the ledger holds for them |
| `IngestService.Service.LeaseDue` | apps/backend/internal/ingest/service.go:112-126 | the batch is due at a clock reading and limited as the caller asks; the answer is that of the store |
| `ServiceCalls.BatchAccounts` | apps/backend/internal/ingest/service.go:112-143 | without interference the counters of a batch are the populations of its events afterwards, and an error is returned exactly if one is left in Processing |
| `ServiceCalls.PassesAccount` | apps/backend/internal/ingest/service.go:124-142 | without interference no event outside the batch changes, each item stands as its outcome says, and those left in Processing are the unrecorded failures |
| `ServiceCalls.KeysIdentifyEvents` | apps/backend/internal/ingest/service.go:80-108 | deliveries share a key exactly if they are of one kind and have the same source and event id |
| `ServiceCalls.DecodesAsDelivered` | apps/backend/internal/ingest/service.go:211-235 | a payload decodes under the event type it was delivered with, and under no other |
| `ServiceLaws.CleanDelivery` | apps/backend/internal/ingest/service.go:150-202 | a first delivery none of whose calls fails is accepted, its event completed and its payload stored |
| `ServiceLaws.CleanBatch` | apps/backend/internal/ingest/service.go:112-143 | a retry batch none of whose calls fails completes every event, if their payloads decode |
| `ServiceLaws.DeliveryStands` | apps/backend/internal/ingest/service.go:186-201 | the answer to a first delivery, if it is no error, says how the ledger then stands |
| `ServiceLaws.DeliveryErrorIsAnswered` | apps/backend/internal/ingest/service.go:176-194 | an error that a first delivery returns is the answer of one of its calls |
| `ServiceLaws.BatchErrorIsAnswered` | apps/backend/internal/ingest/service.go:126-143 | so is the error of a retry batch |
| `ServiceLaws.BatchStands` | apps/backend/internal/ingest/service.go:112-143 | without interference the counters of a batch are how its events stand afterwards, and other events stay as they are |
| `IngestService.Repository.RecordEventFailure` | apps/backend/internal/ingest/service.go:25-34 | a failing call has no effect in the model, and is remembered as an unrecorded failure |
| `BatchAccounting.CountsPartition` | apps/backend/internal/ingest/service.go:124-141 | each leased event is completed, rescheduled, dead-lettered or still in Processing |
| `BatchAccounting.TallyAddsUp` | apps/backend/internal/ingest/service.go:124-142 | the three counters and the errors add up to the items gone through, and an error is returned exactly if an item met one, whatever anybody else does to the ledger meanwhile |
| `BatchAccounting.WholeBatchAddsUp` | apps/backend/internal/ingest/service.go:124-142 | completed + rescheduled + deadLettered never exceed processed, and equal it exactly without an error |
| `BatchAccounting.FirstErrorIsFirst` | apps/backend/internal/ingest/service.go:126-143 | the error of a batch is that of the first item that met one |
| `BatchAccounting.ItemIsCounted` | apps/backend/internal/ingest/service.go:126-138 | while nobody else writes to the batch, one more item keeps the counters equal to the populations and the error flag equal to an item in Processing |
| `BatchAccounting.ItemLeftProcessing` | apps/backend/internal/ingest/service.go:134-137 | while nobody else writes to the batch, an item stays in Processing exactly if its failure could not be recorded |
| `ServiceCalls.PassIsRun` | apps/backend/internal/ingest/service.go:204-296 | one pass over a leased event is a run of one protocol task, whatever its calls come to |
| `ServiceCalls.DeliveryIsRun` | apps/backend/internal/ingest/service.go:150-202 | the first delivery of an event is a run of the protocol that leaves no holder behind |
| `ServiceCalls.BatchIsRun` | apps/backend/internal/ingest/service.go:112-143 | a retry batch is a run of the protocol that leaves no holder behind |
| `ServiceSteps.Leases` | apps/backend/internal/ingest/service.go:117-122 | leasing a batch is one protocol step after a clock reading; each record gets one new holder, which skips the payload after a failed completion, and no other holder changes |
| `ServiceSteps.Fails` | apps/backend/internal/ingest/service.go:255-269 | a failure of either kind, recorded or not, is two protocol steps of its holder |
| `ServiceSteps.Deletes` | apps/backend/internal/repository/memory/retention.go:90-114 | deleting terminal events that nobody holds is a protocol step |
| `ServiceModel.HistoriesAreReal` | apps/backend/internal/ingest/service.go:150-296 | a reachable history comes from a run of the protocol, its rows from a run of the store, and every payload counted as persisted was delivered to the rows |
| `ServiceModel.CompletedWasDelivered` | apps/backend/internal/ingest/service.go:186-201 | a completed event is not lost: the rows are those of deliveries that include its payload, if no persist error misleads |
| `ServiceModel.CompletedConversationHasRow` | apps/backend/internal/repository/memory/ingest.go:223-261 | a completed conversation event has a row that starts no later and ends no earlier than the event says |
| `Api.Process.constructor` | apps/backend/cmd/api/main.go:94-119 | a new process has a history: an empty ledger, the seeded rows, and no holder |
| `Api.Process.Ingest` | apps/backend/internal/ingest/service.go:150-202 | every delivery leaves what a run of the protocol leaves; the answer says how the ledger stands; without a failing call a new event is accepted; an accepted event and a duplicate have their payload among those stored, if no error misleads; an error is the answer of a call |
| `Api.Process.ProcessDueRetries` | apps/backend/internal/ingest/service.go:112-143 | so does every retry batch: it leases what is due, its answer counts how the events then stand, other events stay, an error is the answer of a call, and without a failing call all leased events are completed |
| `Api.Process.RunRetention` | apps/backend/internal/retention/service.go:44-118 | so does every retention run: each target is pruned by its own window, counted back from now, as the report says, up to the first failing call, whose answer is returned |
| `Api.Process.GetSummary` | apps/backend/internal/repository/memory/repository.go:107-149 | requests are the attempts whose last delivery was made in the range, and the seeded one if it was; errors those of them whose last delivery failed |
| `Api.Process.RetentionIsRun` | apps/backend/internal/repository/memory/retention.go:56-114 | what a retention run leaves is what a protocol step and an operation on the rows leave |
| `Api.Process.CompletedIsStored` | apps/backend/internal/ingest/service.go:186-201 | in every state of the process, the payload of a completed event was delivered to the rows that the store holds |
| `Api.Process.CompletedConversationIsReflected` | apps/backend/internal/repository/memory/ingest.go:223-261 | in every state of the process, a completed conversation event has a row that takes it into account |
| `Store.MemoryStore.constructor` | apps/backend/internal/repository/memory/repository.go:37-101 | a new store has the seeded rows, the seeded raw payload and an empty ledger |
| `Store.MemoryStore.StoreIsIntact` | apps/backend/internal/repository/memory/repository.go:13-35 | ids, indexes and parent references are intact in every state of the store |
| `Store.MemoryStore.ClaimEvent` | apps/backend/internal/repository/memory/ingest.go:20-31 | inserts a new key only, and returns what the ledger holds for it |
| `Store.MemoryStore.MarkEventCompleted` | apps/backend/internal/repository/memory/ingest.go:88-101 | completes one event whatever its status, clears its error and its retry time, and changes nothing else; a missing one is ignored |
| `Store.MemoryStore.RecordEventFailure` | apps/backend/internal/repository/memory/ingest.go:103-134 | without a retry time or on an exhausted budget a dead letter without one, otherwise rescheduled for it; nothing else changes; the answer matches the new status |
| `Store.MemoryStore.CollectDue` | apps/backend/internal/repository/memory/ingest.go:141-149 | collects exactly the due records, each once |
| `Store.MemoryStore.LeaseRetryBatch` | apps/backend/internal/repository/memory/ingest.go:136-169 | leases a batch of the earliest records that are due by their times, up to the limit or 10, and stores and returns each with one more attempt, made now |
| `Store.MemoryStore.Stamp` | apps/backend/internal/repository/memory/ingest.go:157-168 | stores exactly the records of the batch as leased |
| `Store.MemoryStore.GetIngestStatus` | apps/backend/internal/repository/memory/ingest.go:171-198 | the figures are the populations of the ledger and its oldest ages |
| `Store.MemoryStore.UpsertAccount` | apps/backend/internal/repository/memory/ingest.go:200-221 | updates the account of the identity, or appends one |
| `Store.MemoryStore.UpsertConversation` | apps/backend/internal/repository/memory/ingest.go:223-261 | merges into the row that the index leads to, or appends one, also when the index entry dangles |
| `Store.MemoryStore.UpsertMessage` | apps/backend/internal/repository/memory/ingest.go:263-288 | overwrites the message of the identity, or appends one |
| `Store.MemoryStore.UpsertAttempt` | apps/backend/internal/repository/memory/ingest.go:290-327 | overwrites the attempt of the identity, or appends one |
| `Store.MemoryStore.PersistConversationEvent` | apps/backend/internal/repository/memory/ingest.go:33-43 | account, conversation and message change as one function of the rows |
| `Store.MemoryStore.PersistInfraSnapshot` | apps/backend/internal/repository/memory/ingest.go:45-76 | overwrites the snapshot of the event, or appends one |
| `Store.MemoryStore.PersistRequestAttempt` | apps/backend/internal/repository/memory/ingest.go:78-86 | account, conversation and attempt change as one function of the rows |
| `Store.MemoryStore.Persist` | apps/backend/internal/repository/memory/ingest.go:33-86 | persisting any event is one function of the rows, and keeps the store valid |
| `Store.MemoryStore.CompactRawMessagePayloads` | apps/backend/internal/repository/memory/retention.go:11-34 | removes the raw payloads of the limit smallest ids of messages created before the cutoff; a dry run reports the same count |
| `Store.MemoryStore.DeleteExpiredAuditEvents` | apps/backend/internal/repository/memory/retention.go:36-54 | removes exactly the first limit entries created before the cutoff, and leaves the others in order |
| `Store.MemoryStore.DeleteExpiredInfraSnapshots` | apps/backend/internal/repository/memory/retention.go:56-88 | removes exactly the first limit snapshots captured before the cutoff, never the latest |
| `Store.MemoryStore.DeleteExpiredIngestEvents` | apps/backend/internal/repository/memory/retention.go:90-114 | deletes the limit smallest keys of terminal events first seen before the cutoff, and nothing else |
| `Store.MemoryStore.GetLatestStatus` | apps/backend/internal/repository/memory/repository.go:262-278 | the first of the snapshots captured last |
| `Store.MemoryStore.InsertAuditEvent` | apps/backend/internal/repository/memory/repository.go:303-308 | appends to the audit log |
| `Pruning.CandidatesAreTerminal` | apps/backend/internal/repository/memory/retention.go:90-114 | queued events are never deleted: every retention delete is a step of the protocol |
| `Pruning.EventPassesConverge` | apps/backend/internal/repository/memory/retention.go:90-114 | with a fixed cutoff, ceil(n / limit) passes leave no terminal event first seen before it |
| `Pruning.RawPassesConverge` | apps/backend/internal/repository/memory/retention.go:11-34 | with a fixed cutoff, ceil(n / limit) passes over the same messages leave no raw payload of a message created before it |
| `Pruning.AuditPassesConverge` | apps/backend/internal/repository/memory/retention.go:36-54 | ceil(n / limit) passes with a fixed cutoff leave no audit entry created before it |
| `Pruning.FreshAuditsStay` | apps/backend/internal/repository/memory/retention.go:36-54 | an audit pass keeps the entries created at or after the cutoff, in order |
| `Pruning.SnapshotPassesLeaveNone` | apps/backend/internal/repository/memory/retention.go:56-88 | ceil(n / limit) passes leave no snapshot captured before the cutoff but the latest |
| `Tables.UpsertKeepsSound` | apps/backend/internal/repository/memory/repository.go:13-35 | ids stay unique and below the next id, and identities keep distinct ids, also when an index entry dangles |
| `Tables.UpsertRefinesMap` | apps/backend/internal/repository/memory/ingest.go:223-327 | rows and index refine a map keyed by identities: an upsert changes its own entry and no other |
| `Tables.UpsertIsIdempotent` | apps/backend/internal/repository/memory/ingest.go:223-327 | repeating an upsert changes nothing, even if the row was removed before |
| `Rows.PersistKeepsIntact` | apps/backend/internal/repository/memory/ingest.go:33-86 | every delivery keeps ids, indexes and parent references intact |
| `Rows.PersistIsIdempotent` | apps/backend/internal/repository/memory/ingest.go:33-86 | from every intact store, persisting an event twice equals persisting it once |
| `Rows.AccountUpsertKeepsSound` | apps/backend/internal/repository/memory/ingest.go:200-221 | an identity keeps one account at most |
| `StoreRuns.ReachableIsIntact` | apps/backend/internal/repository/memory/repository.go:37-101 | store integrity in every state that deliveries and snapshot retention can reach |
| `StoreRuns.ReachableIsRun` | apps/backend/internal/repository/memory/repository.go:37-101 | what a store can come to hold is what some run of deliveries and snapshot retention leaves |
| `StoreRuns.IdentitiesHaveOneRow` | apps/backend/internal/repository/memory/ingest.go:200-327 | each identity has at most one row in each table, and no row belongs to two, over any run |
| `StoreRuns.ReplayChangesNothing` | apps/backend/internal/repository/memory/ingest.go:33-86 | replay idempotence in every reachable store |
| `StoreRuns.RowIsFoldOfDeliveries` | apps/backend/internal/repository/memory/ingest.go:223-261 | a conversation row is the merge of the deliveries addressed to it, whatever else the run contains |
| `StoreRuns.StoresConverge` | apps/backend/internal/repository/memory/ingest.go:223-261 | two stores with the same deliveries for an identity, in any order, agree on its start and end, and on its status if all deliveries that could decide it agree |
| `LastWrites.MessageIsLastDelivery` | apps/backend/internal/repository/memory/ingest.go:263-290 | over any run, the message of an identity carries the last message delivered to it, field by field, and belongs to the conversation that this delivery names |
| `LastWrites.AttemptIsLastDelivery` | apps/backend/internal/repository/memory/ingest.go:292-327 | so does the request attempt of an identity |
| `LastWrites.SnapshotIsLastDelivery` | apps/backend/internal/repository/memory/ingest.go:49-81 | so does the snapshot of an event, which is missing only if retention has since had a cutoff after its capture |
| `LastWrites.AccountIsLastDelivery` | apps/backend/internal/repository/memory/ingest.go:200-221 | an account carries the e-mail and status of the last delivery that names it |
| `LastWrites.OwnerIsLastDelivery` | apps/backend/internal/repository/memory/ingest.go:223-261 | a conversation belongs to the account that the last delivery about it names |
| `LastWrites.ConversationMergesReports` | apps/backend/internal/repository/memory/ingest.go:223-261 | a conversation has the earliest start and the latest end that were reported, the channel of the last report, and the status of the first report with the latest end, or of the last one if none has ended |
| `Dashboard.RequestsCounted` | apps/backend/internal/repository/memory/repository.go:107-149 | over any run, the attempts counted in a range are the identities whose last delivery was made in it, and the seeded attempt |
| `Dashboard.FailuresCounted` | apps/backend/internal/repository/memory/repository.go:107-149 | the failures counted are the identities whose last delivery failed |
| `StoreRuns.RetentionKeepsLatest` | apps/backend/internal/repository/memory/retention.go:56-88 | retention never changes the reported infrastructure status, for any cutoff, limit and tie |
| `StoreRuns.SnapshotPassesConverge` | apps/backend/internal/repository/memory/retention.go:56-88 | repeated passes protect the same snapshot and remove limit expired ones each |
| `Retention.DropFirstCounts` | apps/backend/internal/repository/memory/retention.go:36-54 | a pass removes exactly min(limit, eligible) items, all of them eligible |
| `Retention.DropFirstSpares` | apps/backend/internal/repository/memory/retention.go:36-54 | ineligible items are all left |
| `Retention.PassesConverge` | apps/backend/internal/repository/memory/retention.go:36-54 | repeated passes over a slice leave what the remaining count says |
| `Retention.RemainingClosedForm` | apps/backend/internal/retention/service.go:44-118 | after any number of passes max(0, eligible - passes * limit) are left, none after ceil(eligible / limit) |
| `Retention.EnoughPasses` | apps/backend/internal/retention/service.go:44-118 | ceil(eligible / limit) passes leave nothing eligible |
| `Retention.WithoutPicked` | apps/backend/internal/repository/memory/retention.go:116-132 | removing the picked positions drops the first eligible items and keeps the order |
| `Retention.PickedAreFirst` | apps/backend/internal/repository/memory/retention.go:40-48 | the picked positions are those of the first limit eligible items |
| `Retention.WithoutAt` | apps/backend/internal/repository/memory/retention.go:116-132 | an item that is not removed comes right behind those before it that are not removed |
| `Retention.FirstEligible` | apps/backend/internal/repository/memory/retention.go:40-48 | the scan finds the first min(limit, eligible) eligible positions |
| `Retention.RemoveIndexes` | apps/backend/internal/repository/memory/retention.go:116-132 | keeps the items at the other positions, in order |
| `Retention.Smallest` | apps/backend/internal/repository/memory/retention.go:20-25 | the limit smallest candidates, each once |
| `RetentionService.Service.RunTarget` | apps/backend/internal/repository/memory/retention.go:11-114 | the count of a target is min(limit, eligible), dry or not; a dry run and a failing call change nothing; the answer is that of one call of the store |
| `RetentionService.Service.TargetsAreIndependent` | apps/backend/internal/retention/service.go:57-82 | no target changes what a later one selects |
| `RetentionService.Service.RunTargets` | apps/backend/internal/retention/service.go:57-102 | the reports are those predicted from the state before the run, up to the first failing store call, and exactly the targets run so far are enforced |
| `RetentionService.Service.RunOnce` | apps/backend/internal/retention/service.go:44-118 | a dry run reports the same candidate counts as an enforcing run and changes only the audit log; targets are pruned in order up to the first failing call, and a complete run is entered into the audit log |
| `RetentionService.Service.PredictedIsReported` | apps/backend/internal/retention/service.go:57-102 | each target of a run is pruned by its own window, counted back from now, and reported with what was found and removed; targets behind a failing call stay |
| `Timeseries.BucketContainsIff` | apps/backend/internal/repository/memory/repository.go:335-342 | a time lies in its bucket if and only if it is not before the epoch or its second is a bucket boundary |
| `Timeseries.FloorComposes` | apps/backend/internal/repository/memory/repository.go:335-342 | rounding to a finer bucket first does not change the coarser bucket |
| `Timeseries.FillBuckets` | apps/backend/internal/repository/memory/repository.go:159-180 | one entry for each bucket with a selected attempt, holding its total |
| `Timeseries.GetTimeseries` | apps/backend/internal/repository/memory/repository.go:151-190 | strictly ascending points, one for each non-empty bucket, with the bucket's total; nothing for an unknown bucket |
| `Timeseries.PointMeans` | apps/backend/internal/repository/memory/repository.go:159-180 | the value of a point is the number of attempts, their tokens, their cost or the number of failures in its bucket and range |
| `Timeseries.SeriesTotal` | apps/backend/internal/repository/memory/repository.go:151-190 | a series adds up to the metric over its range |
| `Timeseries.SeriesRefine` | apps/backend/internal/repository/memory/repository.go:320-333 | regrouping a fine series by a coarser bucket gives exactly the coarse series |
| `Timeseries.GetSummary` | apps/backend/internal/repository/memory/repository.go:107-149 | the numbers of attempts and of failures, the tokens and the cost of the range, the error rate and the active accounts |
| `Timeseries.SeriesMatchSummary` | apps/backend/internal/repository/memory/repository.go:107-190 | each series adds up to the summary's figure for its metric |
| `Telemetry.CumulativeMeans` | apps/backend/internal/telemetry/metrics.go:129-164 | the cumulative value at a bound is the number of durations within it |
| `Telemetry.AtMostIsMonotone` | apps/backend/internal/telemetry/metrics.go:129-164 | the bucket values do not decrease and stay within the count |
| `Telemetry.SumMeans` | apps/backend/internal/telemetry/metrics.go:57-94 | the sum of a histogram is the sum of its durations |
| `Telemetry.CountersMean` | apps/backend/internal/telemetry/metrics.go:57-94 | the counters are the numbers of requests of a key, and of those of a verb and route that ended with an error code |
| `Telemetry.Registry.constructor` | apps/backend/internal/telemetry/metrics.go:47-55 | an empty registry |
| `Telemetry.Registry.ObserveRequest` | apps/backend/internal/telemetry/metrics.go:57-94 | after any observations the counters and histograms are those of the observations so far |
| `Telemetry.Registry.CountInBucket` | apps/backend/internal/telemetry/metrics.go:76-93 | a duration counts in the first bucket that holds it, and in none beyond the last bound |
| `Telemetry.Registry.RenderHistogram` | apps/backend/internal/telemetry/metrics.go:129-164 | each bucket value is the number of durations of at most so many milliseconds, the sum is theirs; +Inf, the count and the request counter are equal, as the Prometheus text exposition format 0.0.4 asks for |
| `Findings.DetectionMeans` | apps/backend/internal/repository/memory/security.go:18-62 | a detection updates or creates the finding of its fingerprint, reopening a resolved one, and touches no other |
| `Findings.DetectionWrites` | apps/backend/internal/repository/memory/security.go:18-62 | what a detection writes, field by field: details and times, and open again if resolved |
| `Findings.DetectionsKeepIndexed` | apps/backend/internal/repository/memory/security.go:12-66 | one finding per fingerprint after any run of detections |
| `Findings.FirstDetectionIsKept` | apps/backend/internal/repository/memory/security.go:18-62 | the time of the first detection never changes |
| `Findings.DetectedTwiceIff` | apps/backend/internal/repository/memory/security.go:12-66 | repeating a detection at once changes nothing if and only if its finding was stored before, or arrives unresolved, with its detection time set, and updated now or at no set time |
| `Findings.EveryDetectionIsAnswered` | apps/backend/internal/repository/memory/security.go:12-66 | every detection is answered, in order, with the finding as it was stored then |
| `Findings.FindingStore.UpsertOne` | apps/backend/internal/repository/memory/security.go:17-63 | the findings, the index, the next id and the answer after one detection |
| `Findings.FindingStore.UpsertSecurityFindings` | apps/backend/internal/repository/memory/security.go:12-66 | the findings after a series of detections, and one answer for each |
| `Findings.FindingStore.ListSecurityFindings` | apps/backend/internal/repository/memory/security.go:68-97 | a page of the ordered listing of the admitted findings |
| `Findings.ListingIsDetermined` | apps/backend/internal/repository/memory/security.go:82-94 | the listing does not depend on how the sort treats its input |
| `Findings.ListingMeans` | apps/backend/internal/repository/memory/security.go:68-97 | a listing has the findings of the statuses and severities asked for, by their last detection and id |
| `Findings.PageIsDetermined` | apps/backend/internal/repository/memory/security.go:68-97 | what a page holds is determined by the findings and the filter |
| `Paging.PagesPartition` | apps/backend/internal/repository/memory/repository.go:344-360 | the pages give every item once and in order; pages but the last are full, and there is nothing after it |
| `Paging.FirstPageByDefault` | apps/backend/internal/repository/memory/repository.go:344-350 | a page number that is not positive asks for the first page |

## Left out

- HTTP routing, request decoding, authentication, log output, configuration loading, migrations and process start-up: plumbing around libraries.
- The Postgres store, except for the merge in its conversation upsert: transactions, row locks and driver errors have their own semantics, and its lease order sorts by the retry time whatever the status, which differs from the memory store.
- The rule catalogue and the masking of the security analysis; the findings are kept in a class of their own, `Findings.FindingStore`, although the source keeps them in the same store object.
- The list queries for conversations and audit events: filters before the page cut that `Paging` models.
- JSON: a stored payload either is the event that was delivered or does not parse (`Undecodable`); the raw bytes, the schema version and the processed-at time of a ledger record are not modelled.
- Mutexes: each store call is one atomic step, which is what the lock gives.
- Cloning of metadata maps and pointers: values cannot be aliased here.
- Integer widths, except in `Backoff`: ids, counters and page numbers do not overflow.
- Floating point: token sums and costs are exact numbers, durations are whole nanoseconds.
- Text rendering of the metrics, and their ordering on the page: only the numbers are modelled.
- IngestService.Repository.RecordEventFailure: a failing store call of the class has no effect. Calls that fail after taking effect are steps of the state machine only: `PersistLost` and `MarkLost`, and for the other calls a success whose caller crashes.
- The metadata of the audit entry of a retention run.
- The order in which a worker goes through its batch is not fixed in the state machine: each leased record is a task of its own, so all orders are covered.
- ProtocolFairness.NoStarvation: assumes clock readings no earlier than the start of the wait.
- ServiceCalls.BatchIsRun: the batch runs without interference from other callers, as do the operations of `Api.Process`; interleavings are the subject of the state machine.
- Convergence of an account's e-mail and of a conversation's channel and account: the last delivery wins by design (`LastWrites`).
- IngestService.Service.Now: the readings of a service's clock do not go back; in the state machine they may lag.
- The raw payload map of messages starts with the seeded entry; no modelled operation adds to it.
