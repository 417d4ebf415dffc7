/** What one pass over an event does, as a function of how the store's calls came out; and the proof that
    the passes of the ingest service are runs of the protocol. */
module ServiceCalls {
  import opened BatchAccounting
  import opened Domain
  import opened Ledger
  import opened Protocol
  import opened Store
  import opened ServiceModel
  import opened ServiceSteps
  import Backoff
  import Rows

  const CONVERSATION_EVENT: Bytes := Ascii("conversation_event")
  const INFRA_SNAPSHOT: Bytes := Ascii("infra_snapshot")
  const REQUEST_ATTEMPT: Bytes := Ascii("request_attempt")

  /** The key under which a handler delivers an event. */
  function KeyOf(payload: Payload): EventKey
    requires !payload.Undecodable?
  {
    match payload
    case ConversationPayload(e) => EventKey(CONVERSATION_EVENT, e.source, e.eventID)
    case SnapshotPayload(e) => EventKey(INFRA_SNAPSHOT, e.source, e.eventID)
    case AttemptPayload(e) => EventKey(REQUEST_ATTEMPT, e.source, e.eventID)
  }

  /** The stored payload parses as the event type asks for. */
  predicate Decodes(eventType: Bytes, payload: Payload) {
    match payload
    case ConversationPayload(_) => eventType == CONVERSATION_EVENT
    case SnapshotPayload(_) => eventType == INFRA_SNAPSHOT
    case AttemptPayload(_) => eventType == REQUEST_ATTEMPT
    case Undecodable => false
  }

  /** A payload parses under the event type that it was delivered with, and under no other. */
  lemma DecodesAsDelivered(payload: Payload, eventType: Bytes)
    requires !payload.Undecodable?
    ensures Decodes(eventType, payload) <==> eventType == KeyOf(payload).eventType
  {
  }

  lemma EventTypesDiffer()
    ensures CONVERSATION_EVENT != INFRA_SNAPSHOT && CONVERSATION_EVENT != REQUEST_ATTEMPT && INFRA_SNAPSHOT != REQUEST_ATTEMPT
  {
    assert |CONVERSATION_EVENT| == 18 && |INFRA_SNAPSHOT| == 14 && |REQUEST_ATTEMPT| == 15;
  }

  /** Source and event id of a delivery. */
  function SourceAndID(payload: Payload): (Bytes, Bytes)
    requires !payload.Undecodable?
  {
    match payload
    case ConversationPayload(e) => (e.source, e.eventID)
    case SnapshotPayload(e) => (e.source, e.eventID)
    case AttemptPayload(e) => (e.source, e.eventID)
  }

  /** Deliveries share a key exactly if they are of one kind and have the same source and event id: different
      kinds of events can reuse an id. */
  lemma KeysIdentifyEvents(p: Payload, q: Payload)
    requires !p.Undecodable? && !q.Undecodable?
    ensures KeyOf(p) == KeyOf(q) <==>
              && SourceAndID(p) == SourceAndID(q)
              && (p.ConversationPayload? <==> q.ConversationPayload?) && (p.SnapshotPayload? <==> q.SnapshotPayload?)
  {
    EventTypesDiffer();
  }

  /** A call of the store by the ingest service, with its answer: None is success. */
  datatype StoreCall =
    | ClaimCall(err: Option<Error>)
    | PersistCall(payload: Payload, err: Option<Error>)
    | MarkCall(key: EventKey, err: Option<Error>)
    | RecordCall(key: EventKey, err: Option<Error>)
    | LeaseCall(err: Option<Error>)

  /** All calls from the `n`-th on succeeded. */
  predicate AllSucceed(log: seq<StoreCall>, n: nat) {
    forall i :: n <= i < |log| ==> log[i].err.None?
  }

  /** One of the calls from the `n`-th on gave this answer. */
  predicate SomeAnswers(log: seq<StoreCall>, n: nat, err: Option<Error>) {
    exists i :: n <= i < |log| && log[i].err == err
  }

  const DECODE_ERROR := Error("decode event payload", false)

  /** How the calls of one pass came out: None is success. Calls that were not made count as anything.
      `at` is the clock reading from which a retry is counted. */
  datatype Calls = Calls(persist: Option<Error>, mark: Option<Error>, record: Option<Error>, at: nat)
  {
    /** A transient persist error is one of `errs`. */
    predicate Permitted(errs: Error -> bool) {
      persist.Some? && persist.value.transient ==> errs(persist.value)
    }
  }

  /** The transient persist errors of the passes that are not among `errs`. */
  function Surprises(errs: Error -> bool, passes: seq<Calls>): set<Error> {
    if passes == [] then {}
    else
      var calls := passes[|passes| - 1];
      Surprises(errs, passes[..|passes| - 1]) + if calls.Permitted(errs) then {} else {calls.persist.value}
  }

  /** The error of the call that failed. */
  function CauseOf(r: Record, calls: Calls): Option<Error> {
    if !r.IsCompletionRetry() && calls.persist.Some? then calls.persist else calls.mark
  }

  /** The failure that a pass reports: that of a completion is marked as such. */
  function FailureOf(r: Record, calls: Calls): Option<Error> {
    if !r.IsCompletionRetry() && calls.persist.Some? then calls.persist
    else match calls.mark
      case None => None
      case Some(e) => Some(CompletionError(e))
  }

  function CompletionError(e: Error): Error {
    Error(COMPLETION_PREFIX + e.text, e.transient)
  }

  /** The ledger after a failure `e` of `r` has been reported, `record` being the outcome of recording it. */
  function LedgerAfterReport(c: Config, l: Events, r: Record, e: Error, record: Option<Error>, at: nat): Events {
    if record.None? then Fail(l, r.key, e.text, RetryAt(c, r, e, at), c.maxAttempts) else l
  }

  /** What became of a leased event whose failure `e`, with the given cause, has been reported. An event that
      is gone from the ledger keeps its own error. */
  function Reported(c: Config, l: Events, r: Record, e: Error, cause: Error, record: Option<Error>, at: nat): ItemResult {
    if record.Some? then ItemError(record.value)
    else if r.key !in l then ItemError(cause)
    else if LedgerAfterReport(c, l, r, e, record, at)[r.key].status == RetryScheduled then ItemRescheduled
    else ItemDeadLettered
  }

  /** The answer to a first delivery, if it has an outcome, is about the delivered event: its attempts are those of
      the ledger, it is no duplicate, and it is queued if a retry is scheduled. */
  predicate Describes(result: IngestResult, stored: Record, l: Events) {
    result.outcome == Accepted || result.outcome == Queued || result.outcome == DeadLettered ==>
      && result.key == stored.key && !result.duplicate && (result.queued <==> result.outcome == Queued)
      && result.attemptCount
         == if result.outcome == Accepted || stored.key !in l then stored.attemptCount else l[stored.key].attemptCount
  }

  lemma AnswerDescribes(result: IngestResult, stored: Record, l: Events)
    requires Answers(result, stored.key, l)
    ensures Describes(result, stored, l)
  {
  }

  /** The answer to a redelivery: a completed event is reported as a duplicate, one that is in the queue or at work
      as queued, and a dead letter as such. */
  predicate AnswersRedelivery(result: IngestResult, key: EventKey, r: Record) {
    && result.key == key && result.attemptCount == r.attemptCount
    && (result.outcome == Duplicate <==> r.status == Completed)
    && (result.outcome == Queued <==> r.status == RetryScheduled || r.status == Processing)
    && (result.outcome == DeadLettered <==> r.status == DeadLetter)
    && (result.duplicate <==> r.status == Completed)
    && (result.queued <==> r.status == RetryScheduled || r.status == Processing)
  }

  /** The result of a retry whose failure has been recorded with this outcome. */
  function ItemFor(outcome: Outcome, cause: Error): ItemResult {
    match outcome
    case Queued => ItemRescheduled
    case DeadLettered => ItemDeadLettered
    case _ => ItemError(cause)
  }

  /** The result of a retry follows from the outcome of recording its failure. */
  lemma ReportedOutcome(c: Config, l: Events, r: Record, e: Error, cause: Error, at: nat)
    ensures Reported(c, l, r, e, cause, None, at)
         == ItemFor(OutcomeIn(LedgerAfterReport(c, l, r, e, None, at), r.key), cause)
  {
  }

  /** The log after a pass: the payload is persisted, if that is due; the event is marked completed, unless that
      failed; and a failure of either is recorded. */
  function LogAfter(log: seq<StoreCall>, r: Record, persists: bool, calls: Calls): seq<StoreCall> {
    var tried := if persists then log + [PersistCall(r.payload, calls.persist)] else log;
    var marked := if r.IsCompletionRetry() || calls.persist.None? then tried + [MarkCall(r.key, calls.mark)] else tried;
    if FailureOf(r, calls).Some? then marked + [RecordCall(r.key, calls.record)] else marked
  }

  /** A retry persists the payload if it was not persisted before and can be decoded. */
  predicate PersistIsDue(r: Record) {
    !r.IsCompletionRetry() && Decodes(r.key.eventType, r.payload)
  }

  function LogAfterAll(log: seq<StoreCall>, items: seq<Record>, passes: seq<Calls>): seq<StoreCall>
    requires |passes| <= |items|
  {
    if passes == [] then log
    else
      var n := |passes| - 1;
      LogAfter(LogAfterAll(log, items, passes[..n]), items[n], PersistIsDue(items[n]), passes[n])
  }

  /** A payload that cannot be decoded fails like a permanent persist error. */
  predicate RefusesUndecodable(r: Record, calls: Calls) {
    !r.IsCompletionRetry() && !Decodes(r.key.eventType, r.payload) ==> calls.persist == Some(DECODE_ERROR)
  }

  /** Each pass refused what cannot be decoded, and met its failures at clock readings from `at` on. */
  predicate AllProper(items: seq<Record>, passes: seq<Calls>, at: Time)
    requires |passes| <= |items|
  {
    if passes == [] then true
    else
      var n := |passes| - 1;
      AllProper(items, passes[..n], at) && RefusesUndecodable(items[n], passes[n]) && at <= passes[n].at
  }

  lemma OneMoreLogged(log: seq<StoreCall>, items: seq<Record>, passes: seq<Calls>, calls: Calls, at: Time)
    requires |passes| < |items|
    ensures var n := |passes|;
            && LogAfterAll(log, items, passes + [calls])
               == LogAfter(LogAfterAll(log, items, passes), items[n], PersistIsDue(items[n]), calls)
            && (AllProper(items, passes, at) && RefusesUndecodable(items[n], calls) && at <= calls.at ==>
                  AllProper(items, passes + [calls], at))
  {
    assert (passes + [calls])[..|passes|] == passes;
  }

  function ResultOf(c: Config, l: Events, r: Record, calls: Calls): ItemResult {
    match FailureOf(r, calls)
    case None => ItemCompleted
    case Some(e) => Reported(c, l, r, e, CauseOf(r, calls).value, calls.record, calls.at)
  }

  /** The answer to a first delivery: its outcome, and the error, if it returns one. */
  datatype Answer = Answer(outcome: Outcome, err: Option<Error>)

  function AnswerToFailure(c: Config, l: Events, r: Record, e: Error, cause: Error, record: Option<Error>, at: nat): Answer {
    if record.Some? then Answer(NoOutcome, record)
    else if r.key !in l then Answer(NoOutcome, Some(cause))
    else if LedgerAfterReport(c, l, r, e, record, at)[r.key].status == RetryScheduled then Answer(Queued, None)
    else Answer(DeadLettered, Some(cause))
  }

  /** So does the answer to a first delivery. */
  lemma AnsweredOutcome(c: Config, l: Events, r: Record, e: Error, cause: Error, at: nat)
    ensures var outcome := OutcomeIn(LedgerAfterReport(c, l, r, e, None, at), r.key);
            AnswerToFailure(c, l, r, e, cause, None, at) == Answer(outcome, if outcome == Queued then None else Some(cause))
  {
  }

  function AnswerOf(c: Config, l: Events, r: Record, calls: Calls): Answer {
    match FailureOf(r, calls)
    case None => Answer(Accepted, None)
    case Some(e) => AnswerToFailure(c, l, r, e, CauseOf(r, calls).value, calls.record, calls.at)
  }

  /** The unrecorded failures after a pass. */
  function UnrecordedAfter(unrecorded: set<EventKey>, r: Record, calls: Calls): set<EventKey> {
    unrecorded + if FailureOf(r, calls).Some? && calls.record.Some? then {r.key} else {}
  }

  function LedgerAfter(c: Config, l: Events, r: Record, calls: Calls): Events {
    match FailureOf(r, calls)
    case None => Complete(l, r.key)
    case Some(e) => LedgerAfterReport(c, l, r, e, calls.record, calls.at)
  }

  function RowsAfter(rows: Rows.StoreRows, r: Record, calls: Calls): Rows.StoreRows {
    if r.IsCompletionRetry() || calls.persist.Some? then rows else Rows.Persist(rows, r.payload)
  }

  /** A pass whose persist fails reports this failure. */
  lemma PersistFails(c: Config, l: Events, log: seq<StoreCall>, r: Record, persists: bool, e: Error, record: Option<Error>,
                     at: nat)
    requires !r.IsCompletionRetry()
    ensures var calls := Calls(Some(e), None, record, at);
            && ResultOf(c, l, r, calls) == Reported(c, l, r, e, e, record, at)
            && AnswerOf(c, l, r, calls) == AnswerToFailure(c, l, r, e, e, record, at)
            && LedgerAfter(c, l, r, calls) == LedgerAfterReport(c, l, r, e, record, at)
            && LogAfter(log, r, persists, calls)
               == (if persists then log + [PersistCall(r.payload, Some(e))] else log) + [RecordCall(r.key, record)]
  {
  }

  /** A pass whose persist succeeds goes on to complete the event. */
  lemma PersistSucceeds(log: seq<StoreCall>, r: Record, calls: Calls)
    requires !r.IsCompletionRetry() && calls.persist.None?
    ensures LogAfter(log, r, true, calls) == LogAfter(log + [PersistCall(r.payload, None)], r, false, calls)
  {
  }

  function LedgerAfterAll(c: Config, l: Events, items: seq<Record>, passes: seq<Calls>): Events
    requires |passes| <= |items|
  {
    if passes == [] then l
    else
      var n := |passes| - 1;
      LedgerAfter(c, LedgerAfterAll(c, l, items, passes[..n]), items[n], passes[n])
  }

  function RowsAfterAll(rows: Rows.StoreRows, items: seq<Record>, passes: seq<Calls>): Rows.StoreRows
    requires |passes| <= |items|
  {
    if passes == [] then rows
    else
      var n := |passes| - 1;
      RowsAfter(RowsAfterAll(rows, items, passes[..n]), items[n], passes[n])
  }

  function ResultsOf(c: Config, l: Events, items: seq<Record>, passes: seq<Calls>): (results: seq<ItemResult>)
    requires |passes| <= |items|
    ensures |results| == |passes|
  {
    if passes == [] then []
    else
      var n := |passes| - 1;
      ResultsOf(c, l, items, passes[..n]) + [ResultOf(c, LedgerAfterAll(c, l, items, passes[..n]), items[n], passes[n])]
  }

  function UnrecordedAfterAll(unrecorded: set<EventKey>, items: seq<Record>, passes: seq<Calls>): set<EventKey>
    requires |passes| <= |items|
  {
    if passes == [] then unrecorded
    else
      var n := |passes| - 1;
      UnrecordedAfter(UnrecordedAfterAll(unrecorded, items, passes[..n]), items[n], passes[n])
  }

  /** The records differ at most in how the last attempt ended. */
  predicate SameAttempt(r: Record, r': Record) {
    r' == r.(status := r'.status, lastError := r'.lastError, nextRetryAt := r'.nextRetryAt)
  }

  /** A recorded failure is queued again exactly if it was transient and attempts are left, and is a dead
      letter otherwise; nothing else in the ledger changes. */
  lemma ReportMeans(c: Config, l: Events, r: Record, e: Error, at: nat)
    requires c.Valid() && r.key in l
    ensures var l' := LedgerAfterReport(c, l, r, e, None, at);
            && r.key in l' && l' == l[r.key := l'[r.key]]
            && SameAttempt(l[r.key], l'[r.key]) && l'[r.key].lastError == e.text
            && l'[r.key].nextRetryAt
               == (if e.transient && l[r.key].attemptCount < c.maxAttempts
                   then at + Backoff.DelayFor(c.baseDelay, c.maxDelay, r.attemptCount) else ZERO_TIME)
            && l'[r.key].status == if e.transient && l[r.key].attemptCount < c.maxAttempts then RetryScheduled else DeadLetter
  {
    TransientFailuresAreRetried(c, r, e, at);
  }

  /** The outcome that stands for a status after a first delivery. */
  function OutcomeOf(status: Status): Outcome {
    match status
    case Completed => Accepted
    case RetryScheduled => Queued
    case DeadLetter => DeadLettered
    case Processing => NoOutcome
  }

  /** If the record is still as it was claimed, the answer to its delivery tells what became of it: the
      outcome is the status that the ledger then holds, and there is none exactly if the failure could not be
      recorded, which leaves the record in Processing until its lease runs out. */
  lemma AnswerTells(c: Config, l: Events, r: Record, calls: Calls, unrecorded: set<EventKey>)
    requires r.key in l && l[r.key] == r && r.status == Processing
    ensures var l', answer := LedgerAfter(c, l, r, calls), AnswerOf(c, l, r, calls);
            && r.key in l' && l' == l[r.key := l'[r.key]] && SameAttempt(r, l'[r.key])
            && answer.outcome == OutcomeOf(l'[r.key].status)
            && (answer.err.None? <==> l'[r.key].status == Completed || l'[r.key].status == RetryScheduled)
            && UnrecordedAfter(unrecorded, r, calls) == unrecorded + if answer.outcome == NoOutcome then {r.key} else {}
  {
  }

  /** The outcome of a pass tells what became of the event. */
  lemma PassTells(c: Config, l: Events, r: Record, calls: Calls, unrecorded: set<EventKey>)
    ensures Tells(ResultOf(c, l, r, calls), r.key, l, unrecorded,
                  LedgerAfter(c, l, r, calls), UnrecordedAfter(unrecorded, r, calls))
  {
  }

  /** If nobody else writes to the batch, the outcomes of its passes account for every leased event. */
  lemma {:induction false} PassesAccount(c: Config, l: Events, items: seq<Record>, passes: seq<Calls>, unrecorded: set<EventKey>)
    requires AsLeased(items, l) && |passes| <= |items|
    ensures Progress(items, ResultsOf(c, l, items, passes), l, LedgerAfterAll(c, l, items, passes),
                     unrecorded, UnrecordedAfterAll(unrecorded, items, passes))
    decreases |passes|
  {
    if passes == [] {
      BatchStarts(items, l, unrecorded);
    } else {
      var n := |passes| - 1;
      var init, before := passes[..n], LedgerAfterAll(c, l, items, passes[..n]);
      var recorded := UnrecordedAfterAll(unrecorded, items, init);
      PassesAccount(c, l, items, init, unrecorded);
      PassTells(c, before, items[n], passes[n], recorded);
      ItemMakesProgress(items, ResultsOf(c, l, items, init), l, before, LedgerAfterAll(c, l, items, passes),
                        unrecorded, recorded, UnrecordedAfter(recorded, items[n], passes[n]),
                        ResultOf(c, before, items[n], passes[n]));
    }
  }

  /** A retry batch accounts for every event that it leased. */
  lemma BatchAccounts(c: Config, l: Events, at: Time, staleBefore: Time, batch: seq<Record>, passes: seq<Calls>)
    requires AreDue(l, at, staleBefore, batch) && |passes| == |batch|
    ensures var items, taken := LeasedAll(batch, at), TakeBatch(l, at, batch);
            var results := ResultsOf(c, taken, items, passes);
            AccountsFor(Tally(|items|, results), FirstError(results), items, results, LedgerAfterAll(c, taken, items, passes))
  {
    var items, taken := LeasedAll(batch, at), TakeBatch(l, at, batch);
    BatchIsAsLeased(l, at, staleBefore, batch);
    PassesAccount(c, taken, items, passes, {});
    WholeBatchAddsUp(ResultsOf(c, taken, items, passes));
    assert items[..|items|] == items;
  }

  lemma OneMorePass(c: Config, l: Events, rows: Rows.StoreRows, unrecorded: set<EventKey>, errs: Error -> bool,
                    items: seq<Record>, passes: seq<Calls>, calls: Calls)
    requires |passes| < |items|
    ensures calls.Permitted(errs) ==> Surprises(errs, passes + [calls]) == Surprises(errs, passes)
    ensures LedgerAfterAll(c, l, items, passes + [calls])
         == LedgerAfter(c, LedgerAfterAll(c, l, items, passes), items[|passes|], calls)
    ensures ResultsOf(c, l, items, passes + [calls])
         == ResultsOf(c, l, items, passes) + [ResultOf(c, LedgerAfterAll(c, l, items, passes), items[|passes|], calls)]
    ensures UnrecordedAfterAll(unrecorded, items, passes + [calls])
         == UnrecordedAfter(UnrecordedAfterAll(unrecorded, items, passes), items[|passes|], calls)
    ensures RowsAfterAll(rows, items, passes + [calls]) == RowsAfter(RowsAfterAll(rows, items, passes), items[|passes|], calls)
  {
    assert (passes + [calls])[..|passes|] == passes;
  }

  lemma FinishingPassIsRun(c: Config, errs: Error -> bool, h: History, t: int, calls: Calls) returns (h': History)
    requires h in Histories(c, errs) && t in h.state.tasks && h.state.tasks[t].Finishing?
    requires h.state.tasks[t].r.IsCompletionRetry() || calls.persist.None?
    ensures h' in Histories(c, errs) && Ended(h, h', t) && h'.rows == h.rows
    ensures h'.state.ledger == LedgerAfter(c, h.state.ledger, h.state.tasks[t].r, calls)
  {
    if calls.mark.None? {
      h' := Completes(c, errs, h, t);
    } else {
      var err := Error(COMPLETION_PREFIX + calls.mark.value.text, calls.mark.value.transient);
      h' := Fails(c, errs, h, t, err, calls.at, calls.record.None?);
    }
  }

  /** A pass over a record is a run of one task of the protocol. */
  lemma PassIsRun(c: Config, errs: Error -> bool, h: History, t: int, r: Record, calls: Calls) returns (h': History)
    requires h in Histories(c, errs) && t in h.state.tasks && h.state.tasks[t] == Start(r) && calls.Permitted(errs)
    ensures h' in Histories(c, errs) && Ended(h, h', t)
    ensures h'.state.ledger == LedgerAfter(c, h.state.ledger, r, calls)
    ensures h'.rows == RowsAfter(h.rows, r, calls)
  {
    if r.IsCompletionRetry() {
      h' := FinishingPassIsRun(c, errs, h, t, calls);
    } else if calls.persist.Some? {
      h' := Fails(c, errs, h, t, calls.persist.value, calls.at, calls.record.None?);
    } else {
      var persisted := Persists(c, errs, h, t);
      h' := FinishingPassIsRun(c, errs, persisted, t, calls);
    }
  }

  lemma PassKeepsEvents(c: Config, l: Events, r: Record, calls: Calls)
    ensures LedgerAfter(c, l, r, calls).Keys == l.Keys
  {
  }

  /** The first delivery of an event is a run of the protocol. */
  lemma DeliveryIsRun(c: Config, errs: Error -> bool, h: History, key: EventKey, payload: Payload, now: Time,
                      calls: Calls)
    returns (h': History)
    requires h in Histories(c, errs) && key !in h.state.ledger && now >= 0 && calls.Permitted(errs)
    ensures h' in Histories(c, errs) && h'.state.tasks == h.state.tasks
    ensures var r := NewRecord(key, payload, now);
            && h'.state.ledger == LedgerAfter(c, h.state.ledger[key := r], r, calls)
            && h'.rows == RowsAfter(h.rows, r, calls)
  {
    var claimed := Claims(c, errs, h, key, payload, now);
    h' := PassIsRun(c, errs, claimed, h.state.nextTask, NewRecord(key, payload, now), calls);
  }

  /** The tasks from `first` up to `last` have ended and no other task has changed. */
  ghost predicate AllEnded(h: History, h': History, first: int, last: int) {
    && (forall t :: t in h'.state.tasks <==> t in h.state.tasks && !(first <= t < last))
    && (forall t :: t in h'.state.tasks ==> h'.state.tasks[t] == h.state.tasks[t])
  }

  lemma {:induction false} PassesAreRun(c: Config, errs: Error -> bool, h: History, first: int, items: seq<Record>,
                                        passes: seq<Calls>)
    returns (h': History)
    requires h in Histories(c, errs) && StartOn(h, first, items) && |passes| <= |items| && Surprises(errs, passes) == {}
    ensures h' in Histories(c, errs) && AllEnded(h, h', first, first + |passes|)
    ensures h'.state.ledger == LedgerAfterAll(c, h.state.ledger, items, passes)
    ensures h'.rows == RowsAfterAll(h.rows, items, passes)
    decreases |passes|
  {
    if passes == [] {
      h' := h;
    } else {
      var n := |passes| - 1;
      var earlier := PassesAreRun(c, errs, h, first, items, passes[..n]);
      h' := PassIsRun(c, errs, earlier, first + n, items[n], passes[n]);
    }
  }

  lemma JoinedHaveLeft(h: History, leased: History, h': History, items: seq<Record>)
    requires Joined(h, leased, items) && AllEnded(leased, h', h.state.nextTask, h.state.nextTask + |items|)
    ensures h'.state.tasks == h.state.tasks
  {
    forall t ensures t in h'.state.tasks <==> t in h.state.tasks {
      assert t in h'.state.tasks ==> t in leased.state.tasks;
      assert t in h.state.tasks ==> t in leased.state.tasks && t < h.state.nextTask;
    }
    forall t | t in h.state.tasks ensures h'.state.tasks[t] == h.state.tasks[t] {
      assert t in h'.state.tasks;
    }
  }

  /** `batch` may be leased by the clock reading `at` when the caller asks for `limit` events. */
  ghost predicate BatchAsked(c: Config, l: Events, at: Time, limit: int, batch: seq<Record>) {
    at >= 0 && IsBatch(l, at, at - c.leaseTimeout, BatchSize(limit), batch)
  }

  lemma BatchIsAsked(c: Config, l: Events, at: Time, staleBefore: Time, limit: int, batch: seq<Record>)
    requires at >= 0 && staleBefore == at - c.leaseTimeout && IsBatch(l, at, staleBefore, BatchSize(limit), batch)
    ensures BatchAsked(c, l, at, limit, batch)
  {
  }

  /** A retry batch is a run of the protocol, whatever its calls come to, and leaves no holder behind. */
  lemma BatchIsRun(c: Config, errs: Error -> bool, h: History, l: Events, at: Time, limit: int, batch: seq<Record>,
                   items: seq<Record>, passes: seq<Calls>)
    returns (h': History)
    requires h in Histories(c, errs) && l == h.state.ledger && BatchAsked(c, l, at, limit, batch)
    requires items == LeasedAll(batch, at) && |passes| == |items| && Surprises(errs, passes) == {}
    ensures h' in Histories(c, errs) && h'.state.tasks == h.state.tasks
    ensures h'.state.ledger == LedgerAfterAll(c, TakeBatch(l, at, batch), items, passes)
    ensures h'.rows == RowsAfterAll(h.rows, items, passes)
  {
    var leased := Leases(c, errs, h, at, BatchSize(limit), batch, items);
    h' := PassesAreRun(c, errs, leased, h.state.nextTask, items, passes);
    JoinedHaveLeft(h, leased, h', items);
  }
}
