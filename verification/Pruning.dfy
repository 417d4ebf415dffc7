/** What a pass of retention removes, target by target. */
module Pruning {
  import opened Domain
  import opened Ledger
  import opened LedgerView
  import opened Retention
  import opened Sorting
  import opened Tables
  import Rows
  import StoreRuns

  datatype AuditEvent = AuditEvent(actor: string, action: string, metadata: string, createdAt: Time)

  /** Ids of messages created before the cutoff that still have a raw payload. */
  function RawCandidates(messages: seq<Row<Rows.Message>>, raw: map<int, Bytes>, cutoff: Time): set<int> {
    set i | 0 <= i < |messages| && messages[i].data.createdAt < cutoff
            && messages[i].id in raw && |raw[messages[i].id]| > 0 :: messages[i].id
  }

  function AuditExpired(cutoff: Time): AuditEvent -> bool {
    (e: AuditEvent) => e.createdAt < cutoff
  }

  /** Deleting chosen candidates is a retention step of the protocol: it deletes terminal events only. */
  lemma CandidatesAreTerminal(events: Encoded, cutoff: Time, chosen: set<Bytes>)
    requires Keyed(events) && chosen <= EventCandidates(events, cutoff)
    ensures Keyed(events - chosen) && View(events - chosen) == Purge(View(events), Identities(events, chosen))
    ensures forall k :: k in Identities(events, chosen) ==> k in View(events) && View(events)[k].Terminal()
  {
    ViewDelete(events, chosen);
    forall k | k in Identities(events, chosen) ensures k in View(events) && View(events)[k].Terminal() {
      var b :| b in chosen && b in events && events[b].key == k;
      ViewLookup(events, k);
    }
  }

  /** Stored keys of terminal events first seen before the cutoff. */
  function EventCandidates(events: Encoded, cutoff: Time): set<Bytes> {
    set b | b in events && events[b].Terminal() && events[b].firstSeenAt < cutoff
  }

  /** A pass of event retention, as `DeleteExpiredIngestEvents` makes it. */
  ghost predicate IsEventPass(before: Encoded, after: Encoded, cutoff: Time, limit: nat) {
    exists chosen :: IsSmallest(LexLeq, EventCandidates(before, cutoff), limit, chosen) && after == before - chosen
  }

  /** No terminal event is left that was first seen before the cutoff. */
  ghost predicate NoneEndedLongAgo(events: Encoded, cutoff: Time) {
    forall b :: b in events ==> !EndedLongAgo(events[b], cutoff)
  }

  lemma EventPassLeaves(before: Encoded, after: Encoded, cutoff: Time, limit: nat)
    requires IsEventPass(before, after, cutoff, limit)
    ensures |EventCandidates(after, cutoff)| == |EventCandidates(before, cutoff)| - Min(limit, |EventCandidates(before, cutoff)|)
  {
    var chosen :| IsSmallest(LexLeq, EventCandidates(before, cutoff), limit, chosen) && after == before - chosen;
    assert EventCandidates(after, cutoff) == EventCandidates(before, cutoff) - chosen;
    SmallestLeaves(LexLeq, EventCandidates(before, cutoff), limit, chosen);
  }

  /** Passes of event retention with a fixed cutoff converge: ceil(n / limit) of them leave no expired
      terminal event. */
  lemma {:induction false} EventPassesConverge(stores: seq<Encoded>, cutoff: Time, limit: nat)
    requires stores != [] && limit > 0
    requires forall i :: 0 < i < |stores| ==> IsEventPass(stores[i - 1], stores[i], cutoff, limit)
    ensures var n := |EventCandidates(stores[0], cutoff)|;
            && |EventCandidates(stores[|stores| - 1], cutoff)| == Remaining(n, limit, |stores| - 1)
            && (|stores| - 1 >= (n + limit - 1) / limit ==> NoneEndedLongAgo(stores[|stores| - 1], cutoff))
    decreases |stores|
  {
    var n := |EventCandidates(stores[0], cutoff)|;
    if |stores| > 1 {
      var rest := stores[1..];
      assert forall i :: 0 < i < |rest| ==> rest[i - 1] == stores[i] && rest[i] == stores[i + 1];
      EventPassLeaves(stores[0], stores[1], cutoff, limit);
      EventPassesConverge(rest, cutoff, limit);
    }
    if |stores| - 1 >= (n + limit - 1) / limit {
      EnoughPasses(n, limit, |stores| - 1);
      var left := stores[|stores| - 1];
      assert EventCandidates(left, cutoff) == {};
      assert forall b :: b in left && EndedLongAgo(left[b], cutoff) ==> b in EventCandidates(left, cutoff);
    }
  }

  /** A pass of raw payload retention, as `CompactRawMessagePayloads` makes it. */
  ghost predicate IsRawPass(messages: seq<Row<Rows.Message>>, before: map<int, Bytes>, after: map<int, Bytes>,
                            cutoff: Time, limit: nat) {
    exists chosen :: IsSmallest(IntLeq, RawCandidates(messages, before, cutoff), limit, chosen) && after == before - chosen
  }

  /** No message created before the cutoff has a raw payload left. */
  ghost predicate NoneHoldsOldPayload(messages: seq<Row<Rows.Message>>, raw: map<int, Bytes>, cutoff: Time) {
    forall i :: 0 <= i < |messages| ==> !HoldsOldPayload(messages[i], raw, cutoff)
  }

  lemma RawPassLeaves(messages: seq<Row<Rows.Message>>, before: map<int, Bytes>, after: map<int, Bytes>,
                      cutoff: Time, limit: nat)
    requires IsRawPass(messages, before, after, cutoff, limit)
    ensures |RawCandidates(messages, after, cutoff)|
         == |RawCandidates(messages, before, cutoff)| - Min(limit, |RawCandidates(messages, before, cutoff)|)
  {
    var chosen :| IsSmallest(IntLeq, RawCandidates(messages, before, cutoff), limit, chosen) && after == before - chosen;
    assert RawCandidates(messages, after, cutoff) == RawCandidates(messages, before, cutoff) - chosen;
    SmallestLeaves(IntLeq, RawCandidates(messages, before, cutoff), limit, chosen);
  }

  /** Passes of raw payload retention over the same messages converge: ceil(n / limit) of them leave no
      expired message with a raw payload. */
  lemma {:induction false} RawPassesConverge(messages: seq<Row<Rows.Message>>, raws: seq<map<int, Bytes>>,
                                             cutoff: Time, limit: nat)
    requires raws != [] && limit > 0
    requires forall i :: 0 < i < |raws| ==> IsRawPass(messages, raws[i - 1], raws[i], cutoff, limit)
    ensures var n := |RawCandidates(messages, raws[0], cutoff)|;
            && |RawCandidates(messages, raws[|raws| - 1], cutoff)| == Remaining(n, limit, |raws| - 1)
            && (|raws| - 1 >= (n + limit - 1) / limit ==> NoneHoldsOldPayload(messages, raws[|raws| - 1], cutoff))
    decreases |raws|
  {
    var n := |RawCandidates(messages, raws[0], cutoff)|;
    if |raws| > 1 {
      var rest := raws[1..];
      assert forall i :: 0 < i < |rest| ==> rest[i - 1] == raws[i] && rest[i] == raws[i + 1];
      RawPassLeaves(messages, raws[0], raws[1], cutoff, limit);
      RawPassesConverge(messages, rest, cutoff, limit);
    }
    if |raws| - 1 >= (n + limit - 1) / limit {
      EnoughPasses(n, limit, |raws| - 1);
      var raw := raws[|raws| - 1];
      assert RawCandidates(messages, raw, cutoff) == {};
      assert forall i :: 0 <= i < |messages| && HoldsOldPayload(messages[i], raw, cutoff) ==>
               messages[i].id in RawCandidates(messages, raw, cutoff);
    }
  }

  predicate IntLeq(a: int, b: int) {
    a <= b
  }

  /** The positions of the first `limit` entries created before the cutoff. */
  ghost predicate OldestAudits(log: seq<AuditEvent>, drop: set<nat>, cutoff: Time, limit: nat) {
    && |drop| <= limit
    && (forall i :: i in drop ==> i < |log| && log[i].createdAt < cutoff)
    && (forall i: nat :: i < |log| && log[i].createdAt < cutoff && i !in drop ==>
          |drop| == limit && forall j :: j in drop ==> j < i)
  }

  /** An audit pass in terms of the entries' times: it takes the first `limit` entries created before the
      cutoff, and leaves all others in their order. A dry run only counts them. */
  ghost predicate AuditsPruned(before: seq<AuditEvent>, after: seq<AuditEvent>, cutoff: Time, limit: nat, count: nat,
                               dryRun: bool) {
    exists drop: set<nat> ::
      OldestAudits(before, drop, cutoff, limit) && count == |drop| && after == if dryRun then before else Without(before, drop)
  }

  lemma AuditPassMeans(log: seq<AuditEvent>, cutoff: Time, limit: nat, dryRun: bool)
    ensures AuditsPruned(log, if dryRun then log else DropFirst(log, AuditExpired(cutoff), limit), cutoff, limit,
                         Min(limit, Count(log, AuditExpired(cutoff))), dryRun)
  {
    PickedAreFirst(log, AuditExpired(cutoff), limit);
    WithoutPicked(log, AuditExpired(cutoff), limit);
    assert OldestAudits(log, Picked(log, AuditExpired(cutoff), limit), cutoff, limit);
  }

  lemma {:induction false} KeptIsMonotone(drop: set<nat>, i: nat, j: nat)
    requires i < j && i !in drop
    ensures KeptBefore(drop, i) < KeptBefore(drop, j)
    decreases j
  {
    if i + 1 < j {
      KeptIsMonotone(drop, i, j - 1);
    }
  }

  /** An audit pass keeps the entries created at or after the cutoff, in their order. */
  lemma FreshAuditsStay(before: seq<AuditEvent>, after: seq<AuditEvent>, cutoff: Time, limit: nat, count: nat, dryRun: bool,
                        i: nat, j: nat)
    returns (p: nat, q: nat)
    requires AuditsPruned(before, after, cutoff, limit, count, dryRun)
    requires i < j < |before| && before[i].createdAt >= cutoff && before[j].createdAt >= cutoff
    ensures p < q < |after| && after[p] == before[i] && after[q] == before[j]
  {
    var drop: set<nat> :|
      OldestAudits(before, drop, cutoff, limit) && count == |drop| && after == if dryRun then before else Without(before, drop);
    p, q := i, j;
    if !dryRun {
      WithoutAt(before, drop, i);
      WithoutAt(before, drop, j);
      KeptIsMonotone(drop, i, j);
      p, q := KeptBefore(drop, i), KeptBefore(drop, j);
    }
  }

  /** Passes over the same audit log converge: when n entries were created before the cutoff, ceil(n / limit) of
      them leave none. */
  lemma AuditPassesConverge(log: seq<AuditEvent>, cutoff: Time, limit: nat, times: nat)
    requires limit > 0
    requires times >= (|set i: nat | i < |log| && log[i].createdAt < cutoff| + limit - 1) / limit
    ensures forall e :: e in DropRepeatedly(log, AuditExpired(cutoff), limit, times) ==> e.createdAt >= cutoff
  {
    var left := DropRepeatedly(log, AuditExpired(cutoff), limit, times);
    CountIsSize(log, AuditExpired(cutoff));
    assert (set i: nat | i < |log| && log[i].createdAt < cutoff) == EligiblePositions(log, AuditExpired(cutoff));
    PassesConverge(log, AuditExpired(cutoff), limit, times);
    EnoughPasses(Count(log, AuditExpired(cutoff)), limit, times);
    CountIsSize(left, AuditExpired(cutoff));
    forall e | e in left ensures e.createdAt >= cutoff {
      var i: nat :| i < |left| && left[i] == e;
      assert i !in EligiblePositions(left, AuditExpired(cutoff));
    }
  }

  /** A snapshot pass takes the first `limit` snapshots captured before the cutoff, but never the latest. */
  ghost predicate SnapshotsPruned(before: seq<Row<Rows.Snapshot>>, after: seq<Row<Rows.Snapshot>>, cutoff: Time, limit: nat,
                                  count: nat, dryRun: bool) {
    exists drop: set<nat> ::
      && |drop| == count <= limit
      && (forall i :: i in drop ==> i < |before| && before[i].data.capturedAt < cutoff && !StoreRuns.IsLatestAt(before, i))
      && (forall i: nat ::
            i < |before| && before[i].data.capturedAt < cutoff && !StoreRuns.IsLatestAt(before, i) && i !in drop ==>
              count == limit && forall j :: j in drop ==> j < i)
      && after == if dryRun then before else Without(before, drop)
  }

  /** Only the latest snapshot has the protected id. */
  lemma ProtectedIsLatest(rows: seq<Row<Rows.Snapshot>>, i: nat)
    requires UniqueIds(rows) && i < |rows|
    ensures rows[i].id == StoreRuns.ProtectedId(rows) <==> StoreRuns.IsLatestAt(rows, i)
  {
    var l := StoreRuns.LatestPosition(rows);
    if StoreRuns.IsLatestAt(rows, i) {
      StoreRuns.LatestIsUnique(rows, i, l);
    }
  }

  lemma SnapshotPassMeans(rows: seq<Row<Rows.Snapshot>>, cutoff: Time, limit: nat, dryRun: bool)
    requires UniqueIds(rows)
    ensures SnapshotsPruned(rows, if dryRun then rows else StoreRuns.RetainSnapshots(rows, cutoff, limit), cutoff, limit,
                            Min(limit, Count(rows, StoreRuns.Expired(StoreRuns.ProtectedId(rows), cutoff))), dryRun)
  {
    var expired := StoreRuns.Expired(StoreRuns.ProtectedId(rows), cutoff);
    PickedAreFirst(rows, expired, limit);
    WithoutPicked(rows, expired, limit);
    forall i: nat | i < |rows|
      ensures expired(rows[i]) <==> rows[i].data.capturedAt < cutoff && !StoreRuns.IsLatestAt(rows, i)
    {
      ProtectedIsLatest(rows, i);
    }
  }

  /** Passes over the same snapshots converge: ceil(n / limit) of them leave no snapshot but the latest that was
      captured before the cutoff, if n were. */
  lemma SnapshotPassesLeaveNone(rows: seq<Row<Rows.Snapshot>>, cutoff: Time, limit: nat, times: nat, i: nat)
    requires UniqueIds(rows) && limit > 0
    requires times >= (|set j: nat | j < |rows| && rows[j].data.capturedAt < cutoff && !StoreRuns.IsLatestAt(rows, j)|
                       + limit - 1) / limit
    ensures var left := StoreRuns.RetainRepeatedly(rows, cutoff, limit, times);
            i < |left| ==> left[i].data.capturedAt >= cutoff || StoreRuns.IsLatestAt(left, i)
  {
    var left := StoreRuns.RetainRepeatedly(rows, cutoff, limit, times);
    var expired := StoreRuns.Expired(StoreRuns.ProtectedId(rows), cutoff);
    CountIsSize(rows, expired);
    forall j: nat | j < |rows|
      ensures expired(rows[j]) <==> rows[j].data.capturedAt < cutoff && !StoreRuns.IsLatestAt(rows, j)
    {
      ProtectedIsLatest(rows, j);
    }
    assert (set j: nat | j < |rows| && rows[j].data.capturedAt < cutoff && !StoreRuns.IsLatestAt(rows, j))
        == EligiblePositions(rows, expired);
    StoreRuns.SnapshotPassesConverge(rows, cutoff, limit, times);
    EnoughPasses(Count(rows, expired), limit, times);
    CountIsSize(left, expired);
    if i < |left| {
      assert i !in EligiblePositions(left, expired);
      RetainingKeepsIdsUnique(rows, cutoff, limit, times);
      ProtectedIsLatest(left, i);
    }
  }

  lemma {:induction false} RetainingKeepsIdsUnique(rows: seq<Row<Rows.Snapshot>>, cutoff: Time, limit: nat, times: nat)
    requires UniqueIds(rows)
    ensures UniqueIds(StoreRuns.RetainRepeatedly(rows, cutoff, limit, times))
    decreases times
  {
    if times > 0 {
      StoreRuns.DropKeepsIdsUnique(rows, StoreRuns.Expired(StoreRuns.ProtectedId(rows), cutoff), limit);
      RetainingKeepsIdsUnique(StoreRuns.RetainSnapshots(rows, cutoff, limit), cutoff, limit, times - 1);
    }
  }

  /** The message was created before the cutoff and still has a raw payload. */
  predicate HoldsOldPayload(message: Row<Rows.Message>, raw: map<int, Bytes>, cutoff: Time) {
    message.data.createdAt < cutoff && message.id in raw && raw[message.id] != []
  }

  /** A raw payload pass takes the payloads of the `limit` smallest ids of messages created before the cutoff. */
  ghost predicate RawsPruned(messages: seq<Row<Rows.Message>>, before: map<int, Bytes>, after: map<int, Bytes>,
                             cutoff: Time, limit: nat, count: nat, dryRun: bool) {
    exists ids: set<int> ::
      && |ids| == count <= limit
      && (forall id :: id in ids ==>
            exists i :: 0 <= i < |messages| && messages[i].id == id && HoldsOldPayload(messages[i], before, cutoff))
      && (forall i :: 0 <= i < |messages| && HoldsOldPayload(messages[i], before, cutoff) && messages[i].id !in ids ==>
            count == limit && forall id :: id in ids ==> id <= messages[i].id)
      && after == if dryRun then before else before - ids
  }

  lemma RawPassMeans(messages: seq<Row<Rows.Message>>, raw: map<int, Bytes>, cutoff: Time, limit: nat, ids: set<int>,
                     dryRun: bool)
    requires IsSmallest(IntLeq, RawCandidates(messages, raw, cutoff), limit, ids)
    ensures RawsPruned(messages, raw, if dryRun then raw else raw - ids, cutoff, limit, |ids|, dryRun)
  {
    var candidates := RawCandidates(messages, raw, cutoff);
    forall i | 0 <= i < |messages| && HoldsOldPayload(messages[i], raw, cutoff) && messages[i].id !in ids
      ensures |ids| == limit && forall id :: id in ids ==> id <= messages[i].id
    {
      assert messages[i].id in candidates;
      SomeLeftBehind(candidates, limit, ids, messages[i].id);
      assert forall id :: id in ids ==> IntLeq(id, messages[i].id);
    }
  }

  /** The event is terminal, and was first seen before the cutoff. */
  predicate EndedLongAgo(r: Record, cutoff: Time) {
    (r.status == Completed || r.status == DeadLetter) && r.firstSeenAt < cutoff
  }

  /** A pass over the ledger takes the `limit` smallest stored keys of terminal events first seen before the
      cutoff. */
  ghost predicate EventsPruned(before: Encoded, after: Encoded, cutoff: Time, limit: nat, count: nat, dryRun: bool) {
    exists keys: set<Bytes> ::
      && |keys| == count <= limit
      && (forall b :: b in keys ==> b in before && EndedLongAgo(before[b], cutoff))
      && (forall b :: b in before && EndedLongAgo(before[b], cutoff) && b !in keys ==>
            count == limit && forall x :: x in keys ==> LexLeq(x, b))
      && after == if dryRun then before else before - keys
  }

  lemma EventPassMeans(events: Encoded, cutoff: Time, limit: nat, keys: set<Bytes>, dryRun: bool)
    requires IsSmallest(LexLeq, EventCandidates(events, cutoff), limit, keys)
    ensures EventsPruned(events, if dryRun then events else events - keys, cutoff, limit, |keys|, dryRun)
  {
    var candidates := EventCandidates(events, cutoff);
    forall b | b in events && EndedLongAgo(events[b], cutoff) && b !in keys
      ensures |keys| == limit && forall x :: x in keys ==> LexLeq(x, b)
    {
      assert b in candidates;
      SomeLeftBehind(candidates, limit, keys, b);
    }
  }

  lemma SomeLeftBehind<K>(candidates: set<K>, limit: nat, chosen: set<K>, x: K)
    requires chosen <= candidates && |chosen| == Min(limit, |candidates|) && x in candidates - chosen
    ensures |chosen| == limit
  {
    assert candidates == chosen + (candidates - chosen);
  }
}
