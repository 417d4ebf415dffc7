/** Exactly which settings of the backoff let a due event starve. */
module ProtocolStarvation {
  import opened Domain
  import opened Ledger
  import opened Protocol
  import opened ProtocolRuns
  import opened ProtocolSafety
  import opened ProtocolFairness
  import opened ProtocolBudget
  import Backoff

  /** `k` waits in `s`, and the run from there leaves it waiting although it has the batches that the rank of
      `k` asks for. */
  ghost predicate Starves(c: Config, s: State, steps: seq<Step>, k: EventKey, from: Time, limit: nat) {
    && Legal(c, s, steps) && Waits(c, s, k, from) && AllReadFrom(steps, from)
    && limit > 0 && (forall i :: 0 <= i < |steps| && steps[i].LeaseBatch? ==> steps[i].limit == limit)
    && Batches(steps) >= (Rank(c, s, LeaseSortTime(s.ledger[k])) + limit - 1) / limit
    && !SomeTakes(steps, k)
  }

  /** A worker reclaims the event of a holder whose lease has run out. */
  lemma Reclaimed(c: Config, s: State, r: Record) returns (s': State)
    requires c.Valid() && Reachable(c, s) && s.now >= 0 && r.lastAttemptAt <= s.now
    requires s.ledger == map[r.key := r] && r.status == Processing && !r.IsCompletionRetry()
    ensures Reachable(c, s') && s'.now >= 0 && s'.nextTask == s.nextTask + 1
    ensures s'.ledger == map[r.key := Leased(r, s'.now)]
    ensures s'.tasks == s.tasks[s.nextTask := Applying(Leased(r, s'.now))]
  {
    var at := s.now + c.leaseTimeout;
    s' := Next(c, s, Tick(at));
    ReclaimIsBatch(c, s'.ledger, r, at);
    s' := Taken(c, s', r);
  }

  /** The only holder is `t`, with a copy of the record from attempt `n`; the event itself is deleted. */
  predicate Orphaned(s: State, t: int, key: EventKey, n: nat) {
    && s.now >= 0 && s.ledger == map[] && t < s.nextTask
    && t in s.tasks && s.tasks == map[t := s.tasks[t]] && s.tasks[t].Applying?
    && s.tasks[t].r.key == key && s.tasks[t].r.attemptCount == n
  }

  /** A holder completes the only event, and retention deletes it. */
  lemma CompletedAndDeleted(c: Config, s: State, u: int) returns (s': State)
    requires Reachable(c, s) && u in s.tasks && s.tasks[u].Applying? && s.ledger.Keys == {s.tasks[u].r.key}
    ensures Reachable(c, s') && s'.ledger == map[] && s'.tasks == s.tasks - {u}
    ensures s'.now == s.now && s'.nextTask == s.nextTask
  {
    s' := Next(c, s, PersistOk(u));
    s' := Next(c, s', MarkOk(u));
    s' := Next(c, s', Retain({s.tasks[u].r.key}));
  }

  /** After enough crashes a holder of any attempt can be overtaken, and the event completed and deleted. */
  lemma Orphan(c: Config, key: EventKey, payload: Payload, n: nat) returns (s: State, t: int)
    requires c.Valid() && n >= 2
    ensures Reachable(c, s) && Orphaned(s, t, key, n)
  {
    s := LifeIsReached(c, key, payload, 0, n - 1);
    t := s.nextTask - 1;
    s := Reclaimed(c, s, s.ledger[key]);
    s := CompletedAndDeleted(c, s, t + 1);
  }

  /** Event `b` waits in the queue, ahead of a redelivery of `a`, and `t` is still at work on the old `a`. */
  ghost predicate AboutToStarve(c: Config, s: State, t: int, a: EventKey, b: EventKey, n: nat, from: Time) {
    && s.now == from >= 0 && a != b && s.ledger.Keys == {a, b} && Waits(c, s, b, from)
    && LeaseSortTime(s.ledger[b]) == from - 1 && s.ledger[a] == NewRecord(a, s.ledger[a].payload, from)
    && t in s.tasks && s.tasks[t].Applying? && s.tasks[t].r.key == a && s.tasks[t].r.attemptCount == n
    && forall u :: u in s.tasks ==> s.tasks[u].Applying?
  }

  /** A first delivery into an empty ledger fails, and waits in the queue. */
  lemma Queued(c: Config, s: State, key: EventKey, payload: Payload) returns (s': State)
    requires c.Valid() && c.maxAttempts > 1 && Reachable(c, s) && s.now >= 0 && s.ledger == map[]
    requires s.nextTask !in s.tasks
    ensures Reachable(c, s') && s'.now == s.now && s'.tasks == s.tasks && s'.nextTask == s.nextTask + 1
    ensures s'.ledger == map[key := Failed(NewRecord(key, payload, s.now), "busy", s.now + c.baseDelay, c.maxAttempts)]
  {
    var u := s.nextTask;
    s' := Next(c, s, Deliver(key, payload, s.now));
    s' := Next(c, s', PersistError(u, Error("busy", true), s.now));
    s' := Next(c, s', RecordOk(u));
  }

  lemma SetUp(c: Config, s0: State, t: int, a: EventKey, b: EventKey, payload: Payload, n: nat)
    returns (s: State, from: Time)
    requires c.Valid() && c.maxAttempts > 1 && Reachable(c, s0) && Orphaned(s0, t, a, n) && a != b
    ensures Reachable(c, s) && AboutToStarve(c, s, t, a, b, n, from)
  {
    s := Queued(c, s0, b, payload);
    from := s.now + c.baseDelay + 1;
    s := Next(c, s, Tick(from));
    s := Next(c, s, Deliver(a, payload, from));
  }

  /** A failure recorded with a negative delay is queued before the waiting event. */
  lemma RecordedForThePast(c: Config, s: State, t: int, a: EventKey, b: EventKey, n: nat, from: Time)
    returns (steps: seq<Step>)
    requires c.Valid() && c.maxAttempts > 1 && AboutToStarve(c, s, t, a, b, n, from)
    requires Backoff.DelayFor(c.baseDelay, c.maxDelay, n) < 0
    ensures |steps| == 2 && Legal(c, s, steps) && AllReadFrom(steps, from)
    ensures !steps[0].LeaseBatch? && !steps[1].LeaseBatch?
    ensures var s' := Run(c, s, steps);
            && s'.now == from && s'.ledger.Keys == {a, b} && s'.ledger[b] == s.ledger[b] && s'.ledger[a].key == a
            && s'.ledger[a].status == RetryScheduled && LeaseSortTime(s'.ledger[a]) == s'.ledger[a].nextRetryAt < from
  {
    var e := Error("busy", true);
    TransientFailuresAreRetried(c, s.tasks[t].r, e, from);
    steps := Extend(c, s, [], PersistError(t, e, from));
    steps := Extend(c, s, steps, RecordOk(t));
  }

  lemma OneBatch(steps: seq<Step>)
    requires |steps| == 3 && !steps[0].LeaseBatch? && !steps[1].LeaseBatch? && steps[2].LeaseBatch?
    ensures Batches(steps) == 1
  {
    var rest, last := steps[1..], steps[2..];
    assert rest[1..] == last && rest[0] == steps[1] && last[0] == steps[2];
    assert Batches(last[1..]) == 0;
    assert Batches(last) == 1;
    assert Batches(rest) == 1;
  }

  /** A retry recorded for the past overtakes the waiting event. */
  lemma Overtaken(c: Config, s: State, t: int, a: EventKey, b: EventKey, n: nat, from: Time) returns (steps: seq<Step>)
    requires c.Valid() && c.maxAttempts > 1 && AboutToStarve(c, s, t, a, b, n, from)
    requires Backoff.DelayFor(c.baseDelay, c.maxDelay, n) < 0
    ensures Starves(c, s, steps, b, from, 1)
  {
    steps := RecordedForThePast(c, s, t, a, b, n, from);
    var l := Run(c, s, steps).ledger;
    EarlierIsBatch(c, l, a, b, from);
    OnlyOneWaits(c, s, t, a, b, n, from);
    steps := OvertakingBatch(c, s, steps, b, from, l[a]);
  }

  lemma OvertakingBatch(c: Config, s: State, steps: seq<Step>, k: EventKey, from: Time, r: Record)
    returns (longer: seq<Step>)
    requires Legal(c, s, steps) && AllReadFrom(steps, from) && Waits(c, s, k, from)
    requires |steps| == 2 && !steps[0].LeaseBatch? && !steps[1].LeaseBatch?
    requires Enabled(c, Run(c, s, steps), LeaseBatch(from, 1, [r])) && r.key != k
    requires Rank(c, s, LeaseSortTime(s.ledger[k])) == 1
    ensures Starves(c, s, longer, k, from, 1)
  {
    longer := Extend(c, s, steps, LeaseBatch(from, 1, [r]));
    OneBatch(longer);
    SingleKey(r);
  }

  lemma EarlierIsBatch(c: Config, l: Events, a: EventKey, b: EventKey, at: Time)
    requires a != b && l.Keys == {a, b} && l[a].key == a && l[a].status == RetryScheduled && l[a].nextRetryAt <= at
    requires LeaseSortTime(l[a]) <= LeaseSortTime(l[b])
    ensures IsBatch(l, at, at - c.leaseTimeout, 1, [l[a]])
  {
    assert [l[a]][0] == l[a];
    SingleKey(l[a]);
  }

  lemma OnlyOneWaits(c: Config, s: State, t: int, a: EventKey, b: EventKey, n: nat, from: Time)
    requires AboutToStarve(c, s, t, a, b, n, from)
    ensures Rank(c, s, LeaseSortTime(s.ledger[b])) == 1
  {
    assert Ahead(s.ledger, from - 1) == {b};
    forall u | u in s.tasks ensures u !in Overtaking(c, s, from - 1) {
      assert s.tasks[u].Applying?;
    }
    assert Overtaking(c, s, from - 1) == {};
  }

  lemma OverflowStarves(c: Config) returns (s: State, steps: seq<Step>, k: EventKey, from: Time)
    requires c.Valid() && c.baseDelay < Backoff.TWO_63 && c.maxDelay < Backoff.TWO_63
    requires c.maxAttempts > 1 && !PositiveDelays(c)
    ensures Reachable(c, s) && Starves(c, s, steps, k, from, 1)
  {
    var j := Backoff.OverflowIsNegative(c.baseDelay, c.maxDelay);
    var a, b := EventKey([], [], []), EventKey([], [], [1]);
    var t;
    s, t := Orphan(c, a, Undecodable, j + 1);
    s, from := SetUp(c, s, t, a, b, Undecodable, j + 1);
    k := b;
    steps := Overtaken(c, s, t, a, b, j + 1, from);
  }

  /** Settings that fit 64 bits let no waiting event starve, in any run from any reachable state, exactly when
      the first doubling that reaches the maximum does not overflow, or only one attempt is allowed. */
  lemma NoStarvationIff(c: Config)
    requires c.Valid() && c.baseDelay < Backoff.TWO_63 && c.maxDelay < Backoff.TWO_63
    ensures (forall s, steps, k, from, limit :: Reachable(c, s) ==> !Starves(c, s, steps, k, from, limit))
            <==> c.maxAttempts == 1 || Backoff.Crossing(c.baseDelay, c.maxDelay) < Backoff.TWO_63
  {
    if c.maxAttempts == 1 || PositiveDelays(c) {
      forall s, steps, k, from, limit | Reachable(c, s) ensures !Starves(c, s, steps, k, from, limit) {
        if Starves(c, s, steps, k, from, limit) {
          ReachableQueuesForward(c, s);
          NoStarvation(c, s, steps, k, from, limit);
        }
      }
    } else {
      var s, steps, k, from := OverflowStarves(c);
    }
  }

  lemma ReachableQueuesForward(c: Config, s: State)
    requires c.Valid() && Reachable(c, s) && (c.maxAttempts == 1 || PositiveDelays(c))
    ensures QueuesForward(c, s)
  {
    ReachableIsBooked(c, s);
  }
}
