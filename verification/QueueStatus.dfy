/** The queue figures reported to operators, counted one event at a time. */
module QueueStatus {
  import opened Domain
  import opened Ledger

  datatype IngestStatus = IngestStatus(
    queueDepth: nat, retryScheduled: nat, processing: nat, deadLetter: nat,
    oldestPendingAge: Duration, oldestRetryAge: Duration)

  function Max(a: int, b: int): int {
    if b > a then b else a
  }

  /** What one event adds to the figures. */
  function CountEvent(status: IngestStatus, event: Record, now: Time): IngestStatus {
    match event.status
    case Processing =>
      status.(processing := status.processing + 1, queueDepth := status.queueDepth + 1,
              oldestPendingAge := Max(status.oldestPendingAge, now - event.firstSeenAt))
    case RetryScheduled =>
      status.(retryScheduled := status.retryScheduled + 1, queueDepth := status.queueDepth + 1,
              oldestPendingAge := Max(status.oldestPendingAge, now - event.firstSeenAt),
              oldestRetryAge := Max(status.oldestRetryAge, now - event.nextRetryAt))
    case DeadLetter => status.(deadLetter := status.deadLetter + 1)
    case Completed => status
  }

  predicate IsOldest(age: Duration, ages: set<Duration>) {
    && (forall a :: a in ages ==> a <= age)
    && (age == 0 || age in ages)
  }

  function PendingAges(l: Events, now: Time): set<Duration> {
    set k | k in l && !l[k].Terminal() :: now - l[k].firstSeenAt
  }

  function RetryAges(l: Events, now: Time): set<Duration> {
    set k | k in l && l[k].status == RetryScheduled :: now - l[k].nextRetryAt
  }

  /** The figures describe the ledger. */
  ghost predicate Describes(status: IngestStatus, l: Events, now: Time) {
    && status.processing == |Population(l, Processing)|
    && status.retryScheduled == |Population(l, RetryScheduled)|
    && status.deadLetter == |Population(l, DeadLetter)|
    && status.queueDepth == status.processing + status.retryScheduled
    && IsOldest(status.oldestPendingAge, PendingAges(l, now))
    && IsOldest(status.oldestRetryAge, RetryAges(l, now))
  }

  lemma PopulationOfOneMore(l: Events, event: Record, status: Status)
    requires event.key !in l
    ensures |Population(l[event.key := event], status)|
         == |Population(l, status)| + if event.status == status then 1 else 0
  {
    assert Population(l[event.key := event], status)
        == Population(l, status) + if event.status == status then {event.key} else {};
  }

  lemma AgesOfOneMore(l: Events, event: Record, now: Time)
    requires event.key !in l
    ensures PendingAges(l[event.key := event], now)
         == PendingAges(l, now) + if event.Terminal() then {} else {now - event.firstSeenAt}
    ensures RetryAges(l[event.key := event], now)
         == RetryAges(l, now) + if event.status == RetryScheduled then {now - event.nextRetryAt} else {}
  {
    var l' := l[event.key := event];
    assert event.key in l';
    forall a | a in PendingAges(l, now) ensures a in PendingAges(l', now) {
      var k :| k in l && !l[k].Terminal() && a == now - l[k].firstSeenAt;
      assert k in l';
    }
    forall a | a in RetryAges(l, now) ensures a in RetryAges(l', now) {
      var k :| k in l && l[k].status == RetryScheduled && a == now - l[k].nextRetryAt;
      assert k in l';
    }
  }

  lemma OldestOfOneMore(age: Duration, ages: set<Duration>, a: Duration)
    requires IsOldest(age, ages)
    ensures IsOldest(Max(age, a), ages + {a})
  {
  }

  lemma CountOneMore(status: IngestStatus, l: Events, event: Record, now: Time)
    requires Describes(status, l, now) && event.key !in l
    ensures Describes(CountEvent(status, event, now), l[event.key := event], now)
  {
    PopulationOfOneMore(l, event, Processing);
    PopulationOfOneMore(l, event, RetryScheduled);
    PopulationOfOneMore(l, event, DeadLetter);
    OldestStaysOldest(status, l, event, now);
  }

  lemma OldestStaysOldest(status: IngestStatus, l: Events, event: Record, now: Time)
    requires event.key !in l
    requires IsOldest(status.oldestPendingAge, PendingAges(l, now)) && IsOldest(status.oldestRetryAge, RetryAges(l, now))
    ensures var status', l' := CountEvent(status, event, now), l[event.key := event];
            IsOldest(status'.oldestPendingAge, PendingAges(l', now)) && IsOldest(status'.oldestRetryAge, RetryAges(l', now))
  {
    AgesOfOneMore(l, event, now);
    OldestOfOneMore(status.oldestPendingAge, PendingAges(l, now), now - event.firstSeenAt);
    OldestOfOneMore(status.oldestRetryAge, RetryAges(l, now), now - event.nextRetryAt);
    assert PendingAges(l, now) + {} == PendingAges(l, now) && RetryAges(l, now) + {} == RetryAges(l, now);
  }

  /** The figures after counting `events` one by one. */
  function CountEvents(events: seq<Record>, now: Time): IngestStatus {
    if events == [] then IngestStatus(0, 0, 0, 0, 0, 0)
    else CountEvent(CountEvents(events[..|events| - 1], now), events[|events| - 1], now)
  }

  /** `events` are the records of the ledger, each once, in some order. */
  ghost predicate Enumerates(events: seq<Record>, l: Events) {
    && DistinctKeys(events)
    && (forall i :: 0 <= i < |events| ==> events[i].key in l && l[events[i].key] == events[i])
    && (forall k :: k in l ==> l[k] in events)
  }

  /** Counting the records of a ledger in any order gives its figures. */
  lemma {:induction false} CountDescribes(events: seq<Record>, l: Events, now: Time)
    requires WellKeyed(l) && Enumerates(events, l)
    ensures Describes(CountEvents(events, now), l, now)
    decreases |events|
  {
    if events == [] {
      assert l == map[];
    } else {
      var init, last := events[..|events| - 1], events[|events| - 1];
      var rest := l - {last.key};
      RestIsEnumerated(events, l);
      CountDescribes(init, rest, now);
      CountOneMore(CountEvents(init, now), rest, last, now);
      assert l == rest[last.key := last];
    }
  }

  lemma RestIsEnumerated(events: seq<Record>, l: Events)
    requires events != [] && WellKeyed(l) && Enumerates(events, l)
    ensures Enumerates(events[..|events| - 1], l - {events[|events| - 1].key})
  {
    var init, last := events[..|events| - 1], events[|events| - 1];
    forall k | k in l && k != last.key ensures l[k] in init {
      var i :| 0 <= i < |events| && events[i] == l[k];
      assert init[i] == l[k];
    }
  }
}
