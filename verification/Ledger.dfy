/** The ingest ledger as a value: what each atomic ledger call of the in-memory store does. */
module Ledger {
  import opened Domain

  /** The text that a failed completion prepends to its error. */
  const COMPLETION_PREFIX := "mark event completed: "

  datatype Status = Processing | RetryScheduled | Completed | DeadLetter

  datatype Record = Record(
    key: EventKey, payload: Payload, status: Status, lastError: string, attemptCount: int,
    firstSeenAt: Time, lastAttemptAt: Time, nextRetryAt: Time)
  {
    predicate Terminal() {
      status == Completed || status == DeadLetter
    }

    /** The payload was applied earlier; only the completion mark is outstanding. */
    predicate IsCompletionRetry() {
      COMPLETION_PREFIX <= lastError
    }
  }

  type Events = map<EventKey, Record>

  ghost predicate WellKeyed(l: Events) {
    forall k :: k in l ==> l[k].key == k
  }

  /** The record that a first delivery asks to insert. */
  function NewRecord(key: EventKey, payload: Payload, now: Time): Record {
    Record(key, payload, Processing, "", 1, now, now, ZERO_TIME)
  }

  lemma NewRecordIsNoRetry(key: EventKey, payload: Payload, now: Time)
    ensures !NewRecord(key, payload, now).IsCompletionRetry()
  {
  }

  function Claim(l: Events, r: Record): Events {
    if r.key in l then l else l[r.key := r]
  }

  function Complete(l: Events, k: EventKey): Events {
    if k in l then l[k := l[k].(status := Completed, lastError := "", nextRetryAt := ZERO_TIME)] else l
  }

  /** A failure without a retry time, or on an exhausted budget, is final. */
  function Failed(r: Record, lastError: string, nextRetryAt: Time, maxAttempts: int): Record {
    if nextRetryAt == ZERO_TIME || r.attemptCount >= maxAttempts
    then r.(status := DeadLetter, lastError := lastError, nextRetryAt := ZERO_TIME)
    else r.(status := RetryScheduled, lastError := lastError, nextRetryAt := nextRetryAt)
  }

  function Fail(l: Events, k: EventKey, lastError: string, nextRetryAt: Time, maxAttempts: int): Events {
    if k in l then l[k := Failed(l[k], lastError, nextRetryAt, maxAttempts)] else l
  }

  predicate Leaseable(r: Record, now: Time, staleBefore: Time) {
    match r.status
    case RetryScheduled => r.nextRetryAt <= now
    case Processing => r.lastAttemptAt <= staleBefore
    case _ => false
  }

  function LeaseSortTime(r: Record): Time {
    if r.status == RetryScheduled && r.nextRetryAt != ZERO_TIME then r.nextRetryAt else r.lastAttemptAt
  }

  function Leased(r: Record, now: Time): Record {
    r.(status := Processing, attemptCount := r.attemptCount + 1, lastAttemptAt := now)
  }

  function KeysOf(items: seq<Record>): set<EventKey> {
    set i | 0 <= i < |items| :: items[i].key
  }

  predicate DistinctKeys(items: seq<Record>) {
    forall i, j :: 0 <= i < j < |items| ==> items[i].key != items[j].key
  }

  /** The records `items` are distinct, as stored, and due. */
  ghost predicate AreDue(l: Events, now: Time, staleBefore: Time, items: seq<Record>) {
    && DistinctKeys(items)
    && forall i :: 0 <= i < |items| ==>
         items[i].key in l && l[items[i].key] == items[i] && Leaseable(items[i], now, staleBefore)
  }

  ghost predicate NoneIsEarlier(items: seq<Record>, r: Record) {
    forall i :: 0 <= i < |items| ==> LeaseSortTime(items[i]) <= LeaseSortTime(r)
  }

  /** The records `items` are a batch that may be leased: due, ordered, within the limit, and filled
      before a due record is left behind that is no earlier. Ties are broken arbitrarily. */
  ghost predicate IsBatch(l: Events, now: Time, staleBefore: Time, limit: nat, items: seq<Record>) {
    && AreDue(l, now, staleBefore, items)
    && |items| <= limit
    && (forall i, j :: 0 <= i < j < |items| ==> LeaseSortTime(items[i]) <= LeaseSortTime(items[j]))
    && (forall k :: k in l && Leaseable(l[k], now, staleBefore) && k !in KeysOf(items) ==>
          |items| == limit && NoneIsEarlier(items, l[k]))
  }

  /** How many records a batch may have when a caller asks for `limit`. */
  function BatchSize(limit: int): (n: nat)
    ensures n > 0
    ensures limit > 0 ==> n == limit
    ensures limit <= 0 ==> n == 10
  {
    if limit <= 0 then 10 else limit
  }

  /** The records of a batch as it hands them out. */
  function LeasedAll(items: seq<Record>, now: Time): (leased: seq<Record>)
    ensures |leased| == |items|
  {
    if items == [] then [] else LeasedAll(items[..|items| - 1], now) + [Leased(items[|items| - 1], now)]
  }

  lemma {:induction false} LeasedOne(items: seq<Record>, now: Time, i: nat)
    requires i < |items|
    ensures LeasedAll(items, now)[i] == Leased(items[i], now)
  {
    if i < |items| - 1 {
      LeasedOne(items[..|items| - 1], now, i);
    }
  }

  lemma EachIsLeased(items: seq<Record>, now: Time)
    ensures forall i :: 0 <= i < |items| ==> LeasedAll(items, now)[i] == Leased(items[i], now)
  {
    forall i | 0 <= i < |items| ensures LeasedAll(items, now)[i] == Leased(items[i], now) {
      LeasedOne(items, now, i);
    }
  }

  /** The ledger after a batch has been taken at `now`. */
  function TakeBatch(l: Events, now: Time, items: seq<Record>): Events {
    map k | k in l :: if k in KeysOf(items) then Leased(l[k], now) else l[k]
  }

  /** The rest of the batch is still as leased. */
  ghost predicate StillLeased(l: Events, items: seq<Record>, from: nat) {
    forall j :: from <= j < |items| ==> items[j].key in l && l[items[j].key] == items[j] && items[j].status == Processing
  }

  /** The records are as leased, each once. */
  ghost predicate AsLeased(items: seq<Record>, l: Events) {
    DistinctKeys(items) && StillLeased(l, items, 0)
  }

  /** A batch that has just been taken is as leased. */
  lemma BatchIsAsLeased(l: Events, now: Time, staleBefore: Time, batch: seq<Record>)
    requires AreDue(l, now, staleBefore, batch)
    ensures AsLeased(LeasedAll(batch, now), TakeBatch(l, now, batch))
  {
    EachIsLeased(batch, now);
    forall j | 0 <= j < |batch| ensures batch[j].key in KeysOf(batch) {
    }
  }

  /** Retention's delete of a set of keys. */
  function Purge(l: Events, keys: set<EventKey>): Events {
    l - keys
  }

  function Population(l: Events, status: Status): set<EventKey> {
    set k | k in l && l[k].status == status
  }

  lemma DisjointUnionSize(a: set<EventKey>, b: set<EventKey>)
    requires a !! b
    ensures |a + b| == |a| + |b|
  {
  }

  /** The four statuses partition the ledger. */
  lemma PopulationsPartition(l: Events)
    ensures |l| == |Population(l, Processing)| + |Population(l, RetryScheduled)|
                   + |Population(l, Completed)| + |Population(l, DeadLetter)|
  {
    var p, r := Population(l, Processing), Population(l, RetryScheduled);
    var c, d := Population(l, Completed), Population(l, DeadLetter);
    assert l.Keys == (p + r) + (c + d);
    DisjointUnionSize(p, r);
    DisjointUnionSize(c, d);
    DisjointUnionSize(p + r, c + d);
  }
}
