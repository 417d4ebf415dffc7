/** Exactly how often an event can be attempted. */
module ProtocolBudget {
  import opened Domain
  import opened Ledger
  import opened Protocol
  import opened ProtocolRuns
  import opened ProtocolSafety

  /** The only event is `key`, in its attempt `n`, and its only holder is about to persist the payload. */
  ghost predicate InAttempt(c: Config, s: State, key: EventKey, n: nat, life: Life) {
    && Reachable(c, s) && s.now >= 0 && key in s.ledger
    && var r := s.ledger[key];
       && s.ledger == map[key := r] && s.lives == map[key := life] && s.tasks == map[s.nextTask - 1 := Applying(r)]
       && r.key == key && r.status == Processing && !r.IsCompletionRetry()
       && r.attemptCount == n && r.lastAttemptAt <= s.now
  }

  /** The attempt fails with a transient error, the failure is recorded, and a worker takes the retry. */
  lemma FailsAndRetries(c: Config, s: State, key: EventKey, n: nat, life: Life) returns (s': State)
    requires c.Valid() && n < c.maxAttempts && InAttempt(c, s, key, n, life)
    ensures InAttempt(c, s', key, n + 1, life.(retryLeases := life.retryLeases + 1))
  {
    var t, e := s.nextTask - 1, Error("busy", true);
    TransientFailuresAreRetried(c, s.ledger[key], e, s.now);
    s' := Next(c, s, PersistError(t, e, s.now));
    s' := Next(c, s', RecordOk(t));
    var r := s'.ledger[key];
    var at := if s.now < r.nextRetryAt then r.nextRetryAt else s.now;
    s' := Next(c, s', Tick(at));
    DueIsBatch(c, s'.ledger, r, at);
    CountedLease(s', r);
    s' := Taken(c, s', r);
  }

  /** The holder crashes, its lease runs out, and a worker takes the event again. */
  lemma CrashesAndIsReclaimed(c: Config, s: State, key: EventKey, n: nat, life: Life) returns (s': State)
    requires c.Valid() && InAttempt(c, s, key, n, life)
    ensures InAttempt(c, s', key, n + 1, life.(staleLeases := life.staleLeases + 1))
  {
    var r, at := s.ledger[key], s.now + c.leaseTimeout;
    s' := Next(c, s, Crash(s.nextTask - 1));
    s' := Next(c, s', Tick(at));
    ReclaimIsBatch(c, s'.ledger, r, at);
    CountedLease(s', r);
    s' := Taken(c, s', r);
  }

  lemma CountedLease(s: State, r: Record)
    requires s.ledger == map[r.key := r] && r.key in s.lives && s.lives == map[r.key := s.lives[r.key]]
    ensures var life := s.lives[r.key];
            LeasedLives(s, [r]) == map[r.key := if r.status == RetryScheduled
                                                then life.(retryLeases := life.retryLeases + 1)
                                                else life.(staleLeases := life.staleLeases + 1)]
  {
    SingleKey(r);
  }

  /** An event can be retried `i` times and then be reclaimed `b` times, for every `i` that leaves attempts and
      every `b`. */
  lemma {:induction false} LifeIsReached(c: Config, key: EventKey, payload: Payload, i: nat, b: nat) returns (s: State)
    requires c.Valid() && i < c.maxAttempts
    ensures InAttempt(c, s, key, 1 + i + b, Life(0, i, b))
    decreases i + b
  {
    if b > 0 {
      s := LifeIsReached(c, key, payload, i, b - 1);
      s := CrashesAndIsReclaimed(c, s, key, i + b, Life(0, i, b - 1));
    } else if i > 0 {
      s := LifeIsReached(c, key, payload, i - 1, 0);
      s := FailsAndRetries(c, s, key, i, Life(0, i - 1, 0));
    } else {
      assert Legal(c, Init(0), []);
      Reached(c, 0, []);
      s := Next(c, Init(0), Deliver(key, payload, 0));
    }
  }

  /** Only recorded failures count against the budget: an event whose holders keep crashing is leased
      again and again, and no number of attempts makes it a dead letter. */
  lemma CrashLoop(c: Config, key: EventKey, payload: Payload, n: nat) returns (s: State)
    requires c.Valid() && n >= 1
    ensures Reachable(c, s) && s.tasks == map[] && key in s.ledger
    ensures s.ledger[key].attemptCount == n && s.ledger[key].status == Processing
  {
    s := LifeIsReached(c, key, payload, 0, n - 1);
    s := Next(c, s, Crash(s.nextTask - 1));
  }

  /** The record of `k` has been leased from the retry queue `i` times and reclaimed `b` times. */
  predicate Lived(s: State, k: EventKey, i: nat, b: nat) {
    k in s.ledger && k in s.lives && s.lives[k].retryLeases == i && s.lives[k].staleLeases == b
  }

  /** The scheduled retries that an event can get, with any number of reclaims, are exactly those that leave
      the first attempt within the maximum. */
  lemma RetriesIff(c: Config, i: nat, b: nat)
    requires c.Valid()
    ensures (exists s, k :: Reachable(c, s) && Lived(s, k, i, b)) <==> i < c.maxAttempts
  {
    if i < c.maxAttempts {
      var k := EventKey([], [], []);
      var s := LifeIsReached(c, k, Undecodable, i, b);
      assert Lived(s, k, i, b);
    }
    forall s, k | Reachable(c, s) && Lived(s, k, i, b) ensures i < c.maxAttempts {
      ReachableIsBooked(c, s);
    }
  }

  lemma ReachableIsBooked(c: Config, s: State)
    requires c.Valid() && Reachable(c, s)
    ensures Booked(c, s)
  {
    var start, steps :| Legal(c, Init(start), steps) && Run(c, Init(start), steps) == s;
    RunIsBooked(c, Init(start), steps);
  }

  /** The record of `k` has had at most `n` attempts, unless it was reclaimed more than `b` times. */
  predicate AttemptsWithin(s: State, k: EventKey, b: nat, n: int) {
    k in s.ledger && k in s.lives && s.lives[k].staleLeases <= b ==> s.ledger[k].attemptCount <= n
  }

  /** The attempts of events that were reclaimed at most `b` times are bounded by exactly the maximum plus `b`. */
  lemma AttemptsBoundIff(c: Config, b: nat, n: int)
    requires c.Valid()
    ensures (forall s, k :: Reachable(c, s) ==> AttemptsWithin(s, k, b, n)) <==> c.maxAttempts + b <= n
  {
    if c.maxAttempts + b <= n {
      forall s, k | Reachable(c, s) ensures AttemptsWithin(s, k, b, n) {
        ReachableIsBooked(c, s);
      }
    } else {
      var k := EventKey([], [], []);
      var s := LifeIsReached(c, k, Undecodable, c.maxAttempts - 1, b);
      assert !AttemptsWithin(s, k, b, n);
    }
  }
}
