/** The ingest service: one delivery and one retry batch, call by call, against a store any of whose calls
    may fail. Interleavings of these calls are the subject of the protocol modules. */
module IngestService {
  import opened Domain
  import opened Ledger
  import opened LedgerView
  import opened Store
  import opened BatchAccounting
  import opened ServiceCalls
  import Backoff
  import Protocol
  import Rows

  /** The answer to a redelivery. */
  function ExistingResult(r: Record): (result: IngestResult)
    ensures AnswersRedelivery(result, r.key, r)
  {
    match r.status
    case Completed => IngestResult(r.key, Duplicate, true, false, r.attemptCount)
    case RetryScheduled => IngestResult(r.key, Queued, false, true, r.attemptCount)
    case Processing => IngestResult(r.key, Queued, false, true, r.attemptCount)
    case DeadLetter => IngestResult(r.key, DeadLettered, false, false, r.attemptCount)
  }

  /** A store whose calls may fail. A failing call has no effect. */
  class Repository {
    const store: MemoryStore
    const persistErrors: Error -> bool   // the transient errors that a persist may return
    ghost var unrecorded: set<EventKey>  // keys for which recording a failure has failed
    ghost var log: seq<StoreCall>        // every call so far, with its answer

    constructor (store: MemoryStore, persistErrors: Error -> bool)
      ensures this.store == store && this.persistErrors == persistErrors && unrecorded == {} && log == []
    {
      this.store, this.persistErrors, unrecorded, log := store, persistErrors, {}, [];
    }

    method ClaimEvent(event: Record) returns (stored: Record, inserted: bool, err: Option<Error>)
      requires store.Valid()
      modifies store`ingestEvents, this`log
      ensures store.Valid() && log == old(log) + [ClaimCall(err)]
      ensures err.Some? ==> store.Events() == old(store.Events())
      ensures err.None? ==>
                && store.Events() == Claim(old(store.Events()), event)
                && (inserted <==> event.key !in old(store.Events()))
                && event.key in store.Events() && stored == store.Events()[event.key]
    {
      err := *;
      stored, inserted := event, false;
      if err.None? {
        stored, inserted := store.ClaimEvent(event);
      }
      log := log + [ClaimCall(err)];
    }

    method Persist(payload: Payload) returns (err: Option<Error>)
      requires store.Valid() && !payload.Undecodable?
      modifies store`accounts, store`nextAccountID, store`conversations, store`conversationByExternal,
               store`nextConversationID, store`messages, store`messageByExternal, store`nextMessageID,
               store`attempts, store`attemptByExternal, store`nextAttemptID,
               store`snapshots, store`snapshotByEvent, store`nextSnapshotID, this`log
      ensures store.Valid() && log == old(log) + [PersistCall(payload, err)]
      ensures err.Some? ==> store.State() == old(store.State()) && (err.value.transient ==> persistErrors(err.value))
      ensures err.None? ==> store.State() == Rows.Persist(old(store.State()), payload)
    {
      err := *;
      if err.Some? && err.value.transient && !persistErrors(err.value) {
        err := None;
      }
      if err.None? {
        store.Persist(payload);
      }
      log := log + [PersistCall(payload, err)];
    }

    method MarkEventCompleted(k: EventKey) returns (err: Option<Error>)
      requires store.Valid()
      modifies store`ingestEvents, this`log
      ensures store.Valid() && log == old(log) + [MarkCall(k, err)]
      ensures err.Some? ==> store.Events() == old(store.Events())
      ensures err.None? ==> store.Events() == Complete(old(store.Events()), k)
    {
      err := *;
      if err.None? {
        store.MarkEventCompleted(k);
      }
      log := log + [MarkCall(k, err)];
    }

    method RecordEventFailure(k: EventKey, lastError: string, nextRetryAt: Time, maxAttempts: int)
      returns (result: IngestResult, err: Option<Error>)
      requires store.Valid()
      modifies store`ingestEvents, this`unrecorded, this`log
      ensures store.Valid() && log == old(log) + [RecordCall(k, err)]
      ensures err.Some? ==> store.Events() == old(store.Events()) && unrecorded == old(unrecorded) + {k}
      ensures err.None? ==>
                && store.Events() == Fail(old(store.Events()), k, lastError, nextRetryAt, maxAttempts)
                && unrecorded == old(unrecorded) && Answers(result, k, store.Events())
    {
      err := *;
      result := IngestResult(EventKey([], [], []), NoOutcome, false, false, 0);
      if err.None? {
        result := store.RecordEventFailure(k, lastError, nextRetryAt, maxAttempts);
      } else {
        unrecorded := unrecorded + {k};
      }
      log := log + [RecordCall(k, err)];
    }

    method LeaseRetryBatch(now: Time, staleBefore: Time, limit: nat)
      returns (items: seq<Record>, ghost batch: seq<Record>, err: Option<Error>)
      requires store.Valid() && limit > 0
      modifies store`ingestEvents, this`log
      ensures store.Valid() && log == old(log) + [LeaseCall(err)]
      ensures err.Some? ==> store.Events() == old(store.Events())
      ensures err.None? ==>
                && IsBatch(old(store.Events()), now, staleBefore, limit, batch)
                && store.Events() == TakeBatch(old(store.Events()), now, batch)
                && items == LeasedAll(batch, now)
    {
      err := *;
      items, batch := [], [];
      if err.None? {
        items, batch := store.LeaseRetryBatch(now, staleBefore, limit);
      }
      log := log + [LeaseCall(err)];
    }
  }

  class Service {
    const repo: Repository
    const config: Protocol.Settings
    var clock: Time  // as last read

    constructor (repo: Repository, config: Protocol.Config)
      ensures this.repo == repo && this.config == config.WithDefaults() && clock == 0
    {
      this.repo, this.config, clock := repo, config.WithDefaults(), 0;
    }

    /** Reads the clock, which runs after the Unix epoch and does not go back. */
    method Now() returns (now: Time)
      requires clock >= 0
      modifies this`clock
      ensures now == clock >= old(clock)
    {
      var reading: int := *;
      clock := if reading > clock then reading else clock;
      now := clock;
    }

    /** A pass over `event` from the ledger `l` and the unrecorded failures `unrecorded` has come out as
        `calls` and `result` say. */
    ghost predicate PassedAs(result: ItemResult, l: Events, unrecorded: set<EventKey>, event: Record, calls: Calls)
      requires repo.store.Valid()
      reads repo, repo.store
    {
      && result == ResultOf(config, l, event, calls)
      && repo.store.Events() == LedgerAfter(config, l, event, calls)
      && repo.unrecorded == UnrecordedAfter(unrecorded, event, calls)
    }

    /** A first delivery of `stored`, claimed in the ledger `l`, has come out as `calls` and the answer say. */
    ghost predicate AnsweredAs(result: IngestResult, err: Option<Error>, l: Events, unrecorded: set<EventKey>,
                               stored: Record, calls: Calls)
      requires repo.store.Valid()
      reads repo, repo.store
    {
      && Answer(result.outcome, err) == AnswerOf(config, l, stored, calls)
      && Describes(result, stored, repo.store.Events())
      && repo.store.Events() == LedgerAfter(config, l, stored, calls)
      && repo.unrecorded == UnrecordedAfter(unrecorded, stored, calls)
    }

    /** When to retry after a failure: only if it was transient, and after the delay of the attempt, counted from
        a reading of the clock. */
    method RetryTime(attemptCount: int, err: Error) returns (nextRetryAt: Time, ghost at: nat)
      requires clock >= 0
      modifies this`clock
      ensures old(clock) <= at == clock
      ensures nextRetryAt == if err.transient then at + Backoff.DelayFor(config.baseDelay, config.maxDelay, attemptCount)
                             else ZERO_TIME
    {
      nextRetryAt, at := ZERO_TIME, clock;
      if err.transient {
        var now := Now();
        at := now;
        var delay, _ := Backoff.BackoffForAttempt(config.baseDelay, config.maxDelay, attemptCount);
        nextRetryAt := now + delay;
      }
    }

    /** Records a failure, with a retry time if it was transient. */
    method HandleFailure(k: EventKey, attemptCount: int, err: Error)
      returns (result: IngestResult, recordErr: Option<Error>, ghost at: nat)
      requires repo.store.Valid() && clock >= 0
      modifies repo.store`ingestEvents, repo, this`clock
      ensures repo.store.Valid() && old(clock) <= at == clock
      ensures repo.log == old(repo.log) + [RecordCall(k, recordErr)]
      ensures repo.unrecorded == old(repo.unrecorded) + if recordErr.None? then {} else {k}
      ensures recordErr.Some? ==> repo.store.Events() == old(repo.store.Events())
      ensures recordErr.None? ==>
                var retryAt := if err.transient then at + Backoff.DelayFor(config.baseDelay, config.maxDelay, attemptCount)
                               else ZERO_TIME;
                repo.store.Events() == Fail(old(repo.store.Events()), k, err.text, retryAt, config.maxAttempts)
      ensures recordErr.None? ==>
                Answers(result, k, repo.store.Events()) && result.outcome == OutcomeIn(repo.store.Events(), k)
    {
      var nextRetryAt;
      nextRetryAt, at := RetryTime(attemptCount, err);
      result, recordErr := repo.RecordEventFailure(k, err.text, nextRetryAt, config.maxAttempts);
    }

    /** Records the failure of a first delivery and answers it. */
    method AnswerFailure(stored: Record, failure: Error, cause: Error)
      returns (result: IngestResult, err: Option<Error>, ghost record: Option<Error>, ghost at: nat)
      requires repo.store.Valid() && clock >= 0
      modifies repo.store`ingestEvents, repo, this`clock
      ensures repo.store.Valid() && old(clock) <= at == clock
      ensures repo.log == old(repo.log) + [RecordCall(stored.key, record)]
      ensures repo.store.Events() == LedgerAfterReport(config, old(repo.store.Events()), stored, failure, record, at)
      ensures repo.unrecorded == old(repo.unrecorded) + if record.Some? then {stored.key} else {}
      ensures Answer(result.outcome, err)
           == AnswerToFailure(config, old(repo.store.Events()), stored, failure, cause, record, at)
      ensures Describes(result, stored, repo.store.Events())
    {
      ghost var l := repo.store.Events();
      result, err, at := HandleFailure(stored.key, stored.attemptCount, failure);
      AnsweredOutcome(config, l, stored, failure, cause, at);
      if err.None? {
        AnswerDescribes(result, stored, repo.store.Events());
      }
      record := err;
      if err.Some? {
        return IngestResult(EventKey([], [], []), NoOutcome, false, false, 0), err, record, at;
      }
      if result.outcome != Queued {
        err := Some(cause);
      }
    }

    /** Records a failure of a leased event and says what became of the event. */
    method ReportFailure(event: Record, failure: Error, cause: Error)
      returns (result: ItemResult, ghost record: Option<Error>, ghost at: nat)
      requires repo.store.Valid() && clock >= 0
      modifies repo.store`ingestEvents, repo, this`clock
      ensures repo.store.Valid() && old(clock) <= at == clock
      ensures repo.log == old(repo.log) + [RecordCall(event.key, record)]
      ensures repo.store.Events() == LedgerAfterReport(config, old(repo.store.Events()), event, failure, record, at)
      ensures repo.unrecorded == old(repo.unrecorded) + if record.Some? then {event.key} else {}
      ensures result == Reported(config, old(repo.store.Events()), event, failure, cause, record, at)
    {
      ghost var l := repo.store.Events();
      var recorded, recordErr;
      recorded, recordErr, at := HandleFailure(event.key, event.attemptCount, failure);
      ReportedOutcome(config, l, event, failure, cause, at);
      record := recordErr;
      if recordErr.Some? {
        return ItemError(recordErr.value), record, at;
      }
      result := ItemFor(recorded.outcome, cause);
    }

    /** Marks an event completed; if that fails, the failure is recorded so that the next attempt skips
        the payload. */
    method CompleteLeasedEvent(event: Record) returns (result: ItemResult, ghost calls: Calls)
      requires repo.store.Valid() && clock >= 0
      modifies repo.store`ingestEvents, repo, this`clock
      ensures repo.store.Valid() && old(clock) <= calls.at == clock
      ensures repo.log == LogAfter(old(repo.log), event, false, calls)
      ensures calls.persist.None? && PassedAs(result, old(repo.store.Events()), old(repo.unrecorded), event, calls)
    {
      var err := repo.MarkEventCompleted(event.key);
      calls := Calls(None, err, None, clock);
      if err.None? {
        return ItemCompleted, calls;
      }
      ghost var record, at;
      result, record, at := ReportFailure(event, CompletionError(err.value), err.value);
      calls := Calls(None, err, record, at);
    }

    /** Persists the payload of a leased event if it can be decoded, and answers as the store does. */
    method PersistLeased(event: Record) returns (err: Option<Error>)
      requires repo.store.Valid()
      modifies repo.store`accounts, repo.store`nextAccountID, repo.store`conversations, repo.store`conversationByExternal,
               repo.store`nextConversationID, repo.store`messages, repo.store`messageByExternal, repo.store`nextMessageID,
               repo.store`attempts, repo.store`attemptByExternal, repo.store`nextAttemptID,
               repo.store`snapshots, repo.store`snapshotByEvent, repo.store`nextSnapshotID, repo
      ensures repo.store.Valid() && repo.unrecorded == old(repo.unrecorded)
      ensures if Decodes(event.key.eventType, event.payload) then repo.log == old(repo.log) + [PersistCall(event.payload, err)]
              else repo.log == old(repo.log) && err == Some(DECODE_ERROR)
      ensures err.Some? ==>
                repo.store.State() == old(repo.store.State()) && (err.value.transient ==> repo.persistErrors(err.value))
      ensures err.None? ==> repo.store.State() == Rows.Persist(old(repo.store.State()), event.payload)
    {
      if Decodes(event.key.eventType, event.payload) {
        err := repo.Persist(event.payload);
      } else {
        err := Some(DECODE_ERROR);
      }
    }

    /** Persists the payload of a leased event, unless it was persisted before, and completes the event. */
    method ProcessLeasedEvent(event: Record) returns (result: ItemResult, ghost calls: Calls)
      requires repo.store.Valid() && clock >= 0
      modifies repo.store`ingestEvents, repo, this`clock,
               repo.store`accounts, repo.store`nextAccountID, repo.store`conversations, repo.store`conversationByExternal,
               repo.store`nextConversationID, repo.store`messages, repo.store`messageByExternal, repo.store`nextMessageID,
               repo.store`attempts, repo.store`attemptByExternal, repo.store`nextAttemptID,
               repo.store`snapshots, repo.store`snapshotByEvent, repo.store`nextSnapshotID
      ensures repo.store.Valid() && old(clock) <= calls.at == clock
      ensures repo.log == LogAfter(old(repo.log), event, PersistIsDue(event), calls)
      ensures PassedAs(result, old(repo.store.Events()), old(repo.unrecorded), event, calls)
      ensures repo.store.State() == RowsAfter(old(repo.store.State()), event, calls)
      ensures calls.Permitted(repo.persistErrors) && RefusesUndecodable(event, calls)
    {
      if event.IsCompletionRetry() {
        result, calls := CompleteLeasedEvent(event);
        return;
      }
      ghost var l, log := repo.store.Events(), repo.log;
      var persistErr := PersistLeased(event);
      if persistErr.Some? {
        ghost var record, at;
        result, record, at := ReportFailure(event, persistErr.value, persistErr.value);
        PersistFails(config, l, log, event, PersistIsDue(event), persistErr.value, record, at);
        calls := Calls(persistErr, None, record, at);
      } else {
        result, calls := CompleteLeasedEvent(event);
        PersistSucceeds(log, event, calls);
      }
    }

    /** Persists the payload of a claimed event and completes the event. */
    method Deliver(payload: Payload, stored: Record)
      returns (result: IngestResult, err: Option<Error>, ghost calls: Calls)
      requires repo.store.Valid() && clock >= 0 && !payload.Undecodable?
      requires stored.payload == payload && !stored.IsCompletionRetry()
      modifies repo.store`ingestEvents, repo, this`clock,
               repo.store`accounts, repo.store`nextAccountID, repo.store`conversations, repo.store`conversationByExternal,
               repo.store`nextConversationID, repo.store`messages, repo.store`messageByExternal, repo.store`nextMessageID,
               repo.store`attempts, repo.store`attemptByExternal, repo.store`nextAttemptID,
               repo.store`snapshots, repo.store`snapshotByEvent, repo.store`nextSnapshotID
      ensures repo.store.Valid() && old(clock) <= calls.at == clock
      ensures repo.log == LogAfter(old(repo.log), stored, true, calls)
      ensures calls.Permitted(repo.persistErrors)
      ensures AnsweredAs(result, err, old(repo.store.Events()), old(repo.unrecorded), stored, calls)
      ensures repo.store.State() == RowsAfter(old(repo.store.State()), stored, calls)
    {
      ghost var l, log := repo.store.Events(), repo.log;
      var persistErr := repo.Persist(payload);
      ghost var record, at;
      if persistErr.Some? {
        result, err, record, at := AnswerFailure(stored, persistErr.value, persistErr.value);
        PersistFails(config, l, log, stored, true, persistErr.value, record, at);
        calls := Calls(persistErr, None, record, at);
        return;
      }
      result, err, calls := CompleteDelivery(stored);
      PersistSucceeds(log, stored, calls);
    }

    /** Marks a claimed event completed, or answers that this failed. */
    method CompleteDelivery(stored: Record) returns (result: IngestResult, err: Option<Error>, ghost calls: Calls)
      requires repo.store.Valid() && clock >= 0
      modifies repo.store`ingestEvents, repo, this`clock
      ensures repo.store.Valid() && calls.persist.None? && old(clock) <= calls.at == clock
      ensures repo.log == LogAfter(old(repo.log), stored, false, calls)
      ensures AnsweredAs(result, err, old(repo.store.Events()), old(repo.unrecorded), stored, calls)
    {
      var markErr := repo.MarkEventCompleted(stored.key);
      calls := Calls(None, markErr, None, clock);
      if markErr.None? {
        return IngestResult(stored.key, Accepted, false, false, stored.attemptCount), None, calls;
      }
      ghost var record, at;
      result, err, record, at := AnswerFailure(stored, CompletionError(markErr.value), markErr.value);
      calls := Calls(None, markErr, record, at);
    }

    /** Claims an event for a delivery; an event that was delivered before stays as it is. */
    method ClaimDelivery(key: EventKey, payload: Payload) returns (stored: Record, inserted: bool, err: Option<Error>)
      requires repo.store.Valid() && clock >= 0
      modifies repo.store`ingestEvents, repo`log, this`clock
      ensures repo.store.Valid() && repo.log == old(repo.log) + [ClaimCall(err)] && old(clock) <= clock
      ensures !inserted ==> repo.store.Events() == old(repo.store.Events())
      ensures err.Some? ==> !inserted
      ensures err.None? && !inserted ==>
                key in repo.store.Events() && stored == repo.store.Events()[key] && stored.key == key
      ensures err.None? ==> (inserted <==> key !in old(repo.store.Events()))
      ensures inserted ==>
                && stored == Record(key, payload, Processing, "", 1, clock, clock, ZERO_TIME)
                && repo.store.Events() == old(repo.store.Events())[key := stored]
    {
      var now := Now();
      stored, inserted, err := repo.ClaimEvent(NewRecord(key, payload, now));
      inserted := inserted && err.None?;
    }

    /** Takes one delivery. The first delivery of an event is claimed, persisted and completed; a redelivery
        is answered from the ledger and changes nothing. */
    method Ingest(key: EventKey, payload: Payload)
      returns (result: IngestResult, err: Option<Error>, ghost first: bool, ghost stored: Record, ghost calls: Calls)
      requires repo.store.Valid() && clock >= 0 && !payload.Undecodable?
      modifies repo.store`ingestEvents, repo, this`clock,
               repo.store`accounts, repo.store`nextAccountID, repo.store`conversations, repo.store`conversationByExternal,
               repo.store`nextConversationID, repo.store`messages, repo.store`messageByExternal, repo.store`nextMessageID,
               repo.store`attempts, repo.store`attemptByExternal, repo.store`nextAttemptID,
               repo.store`snapshots, repo.store`snapshotByEvent, repo.store`nextSnapshotID
      ensures repo.store.Valid() && old(clock) <= clock
      ensures first ==> key !in old(repo.store.Events())
      ensures key !in old(repo.store.Events()) && err.None? ==> first
      // a redelivery, or a failed claim
      ensures !first ==>
                && repo.store.Events() == old(repo.store.Events()) && repo.store.State() == old(repo.store.State())
                && repo.unrecorded == old(repo.unrecorded)
                && repo.log == old(repo.log) + [ClaimCall(err)] && (err.Some? ==> result.outcome == NoOutcome)
      ensures !first && err.None? ==>
                key in old(repo.store.Events()) && AnswersRedelivery(result, key, old(repo.store.Events())[key])
      // a first delivery
      ensures first ==>
                && stored == Record(key, payload, Processing, "", 1, stored.firstSeenAt, stored.firstSeenAt, ZERO_TIME)
                && old(clock) <= stored.firstSeenAt <= calls.at <= clock
                && repo.log == LogAfter(old(repo.log) + [ClaimCall(None)], stored, true, calls)
                && calls.Permitted(repo.persistErrors)
                && repo.store.State() == RowsAfter(old(repo.store.State()), stored, calls)
                && AnsweredAs(result, err, old(repo.store.Events())[key := stored], old(repo.unrecorded), stored, calls)
    {
      calls := Calls(None, None, None, 0);
      var claimed, inserted, claimErr := ClaimDelivery(key, payload);
      stored, first := claimed, inserted;
      if claimErr.Some? {
        return IngestResult(EventKey([], [], []), NoOutcome, false, false, 0), claimErr, first, stored, calls;
      }
      if !inserted {
        return ExistingResult(claimed), None, first, stored, calls;
      }
      NewRecordIsNoRetry(key, payload, claimed.firstSeenAt);
      result, err, calls := Deliver(payload, claimed);
    }

    /** Leases one batch of due events and goes through all of it, whatever becomes of each event. The
        ghost results say when the batch was leased, what it was, and what became of each event. */
    method ProcessDueRetries(limit: int)
      returns (result: BatchResult, err: Option<Error>,
               ghost leased: bool, ghost at: Time, ghost batch: seq<Record>, ghost items: seq<Record>, ghost passes: seq<Calls>)
      requires repo.store.Valid() && clock >= 0
      modifies repo.store`ingestEvents, repo, this`clock,
               repo.store`accounts, repo.store`nextAccountID, repo.store`conversations, repo.store`conversationByExternal,
               repo.store`nextConversationID, repo.store`messages, repo.store`messageByExternal, repo.store`nextMessageID,
               repo.store`attempts, repo.store`attemptByExternal, repo.store`nextAttemptID,
               repo.store`snapshots, repo.store`snapshotByEvent, repo.store`nextSnapshotID
      ensures repo.store.Valid() && old(clock) <= at <= clock
      // a failed lease changes nothing
      ensures !leased ==>
                && err.Some? && result == BatchResult(0, 0, 0, 0) && repo.unrecorded == old(repo.unrecorded)
                && repo.store.Events() == old(repo.store.Events()) && repo.store.State() == old(repo.store.State())
                && repo.log == old(repo.log) + [LeaseCall(err)]
      // otherwise every event of a full batch has been attempted and is accounted for
      ensures leased ==>
                && BatchAsked(config, old(repo.store.Events()), at, limit, batch) && items == LeasedAll(batch, at)
                && |passes| == |items| && Surprises(repo.persistErrors, passes) == {}
                && repo.log == LogAfterAll(old(repo.log) + [LeaseCall(None)], items, passes)
                && AllProper(items, passes, at)
                && repo.store.Events() == LedgerAfterAll(config, TakeBatch(old(repo.store.Events()), at, batch), items, passes)
                && repo.store.State() == RowsAfterAll(old(repo.store.State()), items, passes)
                && repo.unrecorded == UnrecordedAfterAll(old(repo.unrecorded), items, passes)
                && (var results := ResultsOf(config, TakeBatch(old(repo.store.Events()), at, batch), items, passes);
                    result == Tally(|items|, results) && err == FirstError(results))
                && (err.None? <==> result.completed + result.rescheduled + result.deadLettered == result.processed)
      ensures result.completed + result.rescheduled + result.deadLettered <= result.processed
    {
      result, passes := BatchResult(0, 0, 0, 0), [];
      var taken;
      taken, err, at, batch := LeaseDue(limit);
      leased, items := err.None?, taken;
      if err.None? {
        result, err, passes := ProcessBatch(taken);
      }
    }

    /** Leases what is due by the clock. */
    method LeaseDue(limit: int) returns (items: seq<Record>, err: Option<Error>, ghost at: Time, ghost batch: seq<Record>)
      requires repo.store.Valid() && clock >= 0
      modifies repo.store`ingestEvents, repo`log, this`clock
      ensures repo.store.Valid() && old(clock) <= at == clock
      ensures repo.log == old(repo.log) + [LeaseCall(err)]
      ensures err.Some? ==> repo.store.Events() == old(repo.store.Events())
      ensures err.None? ==>
                && BatchAsked(config, old(repo.store.Events()), at, limit, batch)
                && repo.store.Events() == TakeBatch(old(repo.store.Events()), at, batch)
                && items == LeasedAll(batch, at)
    {
      ghost var l := repo.store.Events();
      var now := Now();
      at := now;
      var staleBefore, max := now - config.leaseTimeout, BatchSize(limit);
      items, batch, err := repo.LeaseRetryBatch(now, staleBefore, max);
      if err.None? {
        BatchIsAsked(config, l, now, staleBefore, limit, batch);
      }
    }

    /** Goes through a batch: a failing event does not stop the ones behind it. The answer follows from what
        became of each event, and, if nobody else writes to the batch, describes the ledger. */
    method ProcessBatch(items: seq<Record>)
      returns (result: BatchResult, err: Option<Error>, ghost passes: seq<Calls>)
      requires repo.store.Valid() && clock >= 0
      modifies repo.store`ingestEvents, repo, this`clock,
               repo.store`accounts, repo.store`nextAccountID, repo.store`conversations, repo.store`conversationByExternal,
               repo.store`nextConversationID, repo.store`messages, repo.store`messageByExternal, repo.store`nextMessageID,
               repo.store`attempts, repo.store`attemptByExternal, repo.store`nextAttemptID,
               repo.store`snapshots, repo.store`snapshotByEvent, repo.store`nextSnapshotID
      ensures repo.store.Valid() && old(clock) <= clock
      ensures |passes| == |items| && Surprises(repo.persistErrors, passes) == {}
      ensures repo.log == LogAfterAll(old(repo.log), items, passes)
      ensures AllProper(items, passes, old(clock))
      ensures repo.store.Events() == LedgerAfterAll(config, old(repo.store.Events()), items, passes)
      ensures repo.store.State() == RowsAfterAll(old(repo.store.State()), items, passes)
      ensures repo.unrecorded == UnrecordedAfterAll(old(repo.unrecorded), items, passes)
      ensures var results := ResultsOf(config, old(repo.store.Events()), items, passes);
              result == Tally(|items|, results) && err == FirstError(results)
      ensures result.completed + result.rescheduled + result.deadLettered <= result.processed
      ensures err.None? <==> result.completed + result.rescheduled + result.deadLettered == result.processed
    {
      ghost var before, rows, unrecorded, log := repo.store.Events(), repo.store.State(), repo.unrecorded, repo.log;
      ghost var results: seq<ItemResult> := [];
      result, err, passes := BatchResult(|items|, 0, 0, 0), None, [];
      for i := 0 to |items|
        invariant repo.store.Valid() && |passes| == i && Surprises(repo.persistErrors, passes) == {}
        invariant old(clock) <= clock
        invariant repo.log == LogAfterAll(log, items, passes)
        invariant AllProper(items, passes, old(clock))
        invariant repo.store.Events() == LedgerAfterAll(config, before, items, passes)
        invariant repo.store.State() == RowsAfterAll(rows, items, passes)
        invariant repo.unrecorded == UnrecordedAfterAll(unrecorded, items, passes)
        invariant results == ResultsOf(config, before, items, passes)
        invariant result == Tally(|items|, results) && err == FirstError(results)
      {
        var outcome;
        ghost var calls;
        outcome, calls := ProcessLeasedEvent(items[i]);
        OneMorePass(config, before, rows, unrecorded, repo.persistErrors, items, passes, calls);
        OneMoreResult(|items|, results, outcome);
        OneMoreLogged(log, items, passes, calls, old(clock));
        passes, results := passes + [calls], results + [outcome];
        result := Counted(result, outcome);
        if err.None? && outcome.ItemError? {
          err := Some(outcome.err);
        }
      }
      WholeBatchAddsUp(results);
    }
  }
}
