/** How a batch is chosen: the due records in some order, sorted by lease time, cut off at the limit. */
module Leasing {
  import opened Domain
  import opened Ledger
  import opened Sorting

  function ByLeaseTime(): (Record, Record) -> bool {
    (a: Record, b: Record) => LeaseSortTime(a) <= LeaseSortTime(b)
  }

  ghost predicate HasAllDue(l: Events, now: Time, staleBefore: Time, due: seq<Record>) {
    forall k :: k in l && Leaseable(l[k], now, staleBefore) ==> l[k] in due
  }

  function Cut(items: seq<Record>, limit: nat): seq<Record> {
    if |items| > limit then items[..limit] else items
  }

  lemma SortedStaysDue(l: Events, now: Time, staleBefore: Time, due: seq<Record>, sorted: seq<Record>)
    requires AreDue(l, now, staleBefore, due) && HasAllDue(l, now, staleBefore, due)
    requires multiset(sorted) == multiset(due)
    ensures AreDue(l, now, staleBefore, sorted) && HasAllDue(l, now, staleBefore, sorted)
  {
    SameElements(due, sorted);
    forall i | 0 <= i < |sorted|
      ensures sorted[i].key in l && l[sorted[i].key] == sorted[i] && Leaseable(sorted[i], now, staleBefore)
    {
      assert sorted[i] in due;
    }
    DistinctRecords(due);
    SortedStaysDistinct(due, sorted);
    forall i, j | 0 <= i < j < |sorted| ensures sorted[i].key != sorted[j].key {
      assert sorted[i] != sorted[j];
    }
  }

  lemma DistinctRecords(items: seq<Record>)
    requires DistinctKeys(items)
    ensures Distinct(items)
  {
  }

  lemma NothingEarlierBehind(items: seq<Record>, sorted: seq<Record>, r: Record)
    requires items <= sorted && Ordered(ByLeaseTime(), sorted) && r in sorted && r !in items
    ensures NoneIsEarlier(items, r)
  {
    var j :| 0 <= j < |sorted| && sorted[j] == r;
    forall i | 0 <= i < |items| ensures LeaseSortTime(items[i]) <= LeaseSortTime(r) {
      assert ByLeaseTime()(sorted[i], sorted[j]);
    }
  }

  lemma CutIsOrderedAndDue(l: Events, now: Time, staleBefore: Time, limit: nat, sorted: seq<Record>)
    requires AreDue(l, now, staleBefore, sorted) && Ordered(ByLeaseTime(), sorted)
    ensures var items := Cut(sorted, limit);
            && AreDue(l, now, staleBefore, items)
            && forall i, j :: 0 <= i < j < |items| ==> LeaseSortTime(items[i]) <= LeaseSortTime(items[j])
  {
    assert forall i, j :: 0 <= i < j < |sorted| ==> ByLeaseTime()(sorted[i], sorted[j]);
  }

  /** The earliest of the due records are a batch. */
  lemma SortedPrefixIsBatch(l: Events, now: Time, staleBefore: Time, limit: nat, sorted: seq<Record>)
    requires WellKeyed(l) && AreDue(l, now, staleBefore, sorted) && HasAllDue(l, now, staleBefore, sorted)
    requires Ordered(ByLeaseTime(), sorted)
    ensures IsBatch(l, now, staleBefore, limit, Cut(sorted, limit))
  {
    var items := Cut(sorted, limit);
    CutIsOrderedAndDue(l, now, staleBefore, limit, sorted);
    forall k | k in l && Leaseable(l[k], now, staleBefore) && k !in KeysOf(items)
      ensures |items| == limit && NoneIsEarlier(items, l[k])
    {
      assert l[k] !in items by {
        assert forall i :: 0 <= i < |items| ==> items[i].key in KeysOf(items);
      }
      NothingEarlierBehind(items, sorted, l[k]);
    }
  }

  /** A batch in terms of its records: it takes a retry only once its time has come, a record in Processing only
      once its lease has run out, and nothing else; only a full batch leaves such a record behind. */
  ghost predicate TakesDue(l: Events, now: Time, staleBefore: Time, limit: nat, batch: seq<Record>) {
    && |batch| <= limit
    && (forall i :: 0 <= i < |batch| ==>
          && batch[i].key in l && l[batch[i].key] == batch[i]
          && ((batch[i].status == RetryScheduled && batch[i].nextRetryAt <= now)
              || (batch[i].status == Processing && batch[i].lastAttemptAt <= staleBefore)))
    && (|batch| < limit ==>
          forall k :: k in l && l[k] !in batch ==>
            && (l[k].status == RetryScheduled ==> now < l[k].nextRetryAt)
            && (l[k].status == Processing ==> staleBefore < l[k].lastAttemptAt))
  }

  lemma TakenRecords(l: Events, now: Time, staleBefore: Time, batch: seq<Record>)
    requires AreDue(l, now, staleBefore, batch)
    ensures forall k :: k in KeysOf(batch) ==> k in l && l[k] in batch
  {
  }

  lemma BatchTakesDue(l: Events, now: Time, staleBefore: Time, limit: nat, batch: seq<Record>)
    requires WellKeyed(l) && IsBatch(l, now, staleBefore, limit, batch)
    ensures TakesDue(l, now, staleBefore, limit, batch)
  {
    TakenRecords(l, now, staleBefore, batch);
  }

  lemma TerminalsAreNeverLeased(l: Events, now: Time, staleBefore: Time, limit: nat, batch: seq<Record>, r: Record)
    requires IsBatch(l, now, staleBefore, limit, batch) && (r.status == Completed || r.status == DeadLetter)
    ensures r !in batch
  {
    assert forall i :: 0 <= i < |batch| ==> Leaseable(batch[i], now, staleBefore);
  }

  /** The time that the record has been due since: that of the retry, or that of the attempt that went stale. */
  predicate DueSince(r: Record, t: Time) {
    && (r.status == RetryScheduled ==> t == r.nextRetryAt)
    && (r.status == Processing ==> t == r.lastAttemptAt)
  }

  /** The records of a batch have been due the longest: those taken before those left, and in this order. A
      scheduled retry always has a time. */
  lemma BatchIsOldestFirst(l: Events, now: Time, staleBefore: Time, limit: nat, batch: seq<Record>, i: nat, k: EventKey,
                           t: Time, u: Time)
    requires IsBatch(l, now, staleBefore, limit, batch) && i < |batch| && k in l && WellKeyed(l)
    requires forall k' :: k' in l && l[k'].status == RetryScheduled ==> l[k'].nextRetryAt != ZERO_TIME
    requires (exists j :: i < j < |batch| && batch[j] == l[k])
             || (l[k] !in batch && ((l[k].status == RetryScheduled && l[k].nextRetryAt <= now)
                                    || (l[k].status == Processing && l[k].lastAttemptAt <= staleBefore)))
    requires DueSince(batch[i], t) && DueSince(l[k], u)
    ensures t <= u
  {
    if j :| i < j < |batch| && batch[j] == l[k] {
      assert LeaseSortTime(batch[i]) <= LeaseSortTime(batch[j]);
    } else {
      assert k !in KeysOf(batch);
    }
    assert l[batch[i].key] == batch[i];
  }

  /** Stamping one more record of a batch. */
  lemma TakeOneMore(l: Events, now: Time, staleBefore: Time, items: seq<Record>, i: nat)
    requires AreDue(l, now, staleBefore, items) && i < |items|
    ensures TakeBatch(l, now, items[..i + 1]) == TakeBatch(l, now, items[..i])[items[i].key := Leased(items[i], now)]
  {
    var taken, more := items[..i], items[..i + 1];
    assert KeysOf(more) == KeysOf(taken) + {items[i].key} by {
      assert more == taken + [items[i]];
      assert forall n :: 0 <= n < |taken| ==> more[n] == taken[n];
      assert more[i] == items[i];
    }
  }
}
