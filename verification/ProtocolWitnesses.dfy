/** Runs that show why the protocol's guarantees need their conditions. */
module ProtocolWitnesses {
  import opened Domain
  import opened Ledger
  import opened Protocol
  import opened ProtocolRuns
  import opened ProtocolPayload

  /** Two holders of one event: the first delivery outlived its lease and a worker reclaimed it. */
  lemma TwoHolders(c: Config, key: EventKey, payload: Payload) returns (steps: seq<Step>)
    requires c.Valid()
    ensures Legal(c, Init(0), steps)
    ensures var s := Run(c, Init(0), steps);
            var r := NewRecord(key, payload, 0);
            && s.now == c.leaseTimeout && s.nextTask == 2
            && s.tasks == map[0 := Applying(r), 1 := Applying(Leased(r, s.now))]
            && s.ledger == map[key := Leased(r, s.now)]
            && s.applied == {} && s.appliedPayloads == {}
  {
    var r, at := NewRecord(key, payload, 0), c.leaseTimeout;
    steps := Extend(c, Init(0), [], Deliver(key, payload, 0));
    steps := Extend(c, Init(0), steps, Tick(at));
    ReclaimIsBatch(c, map[key := r], r, at);
    steps := Extend(c, Init(0), steps, LeaseBatch(at, 1, [r]));
  }

  /** Without the timing assumption Completed is not absorbing: a holder whose lease ran out puts a
      completed event back into the retry queue. */
  lemma LateFailureRevivesCompleted(c: Config, key: EventKey, payload: Payload) returns (steps: seq<Step>, last: Step)
    requires c.Valid() && c.maxAttempts > 2
    ensures Legal(c, Init(0), steps) && Enabled(c, Run(c, Init(0), steps), last)
    ensures var s := Run(c, Init(0), steps);
            && key in s.ledger && s.ledger[key].status == Completed
            && key in Apply(c, s, last).ledger && Apply(c, s, last).ledger[key].status == RetryScheduled
  {
    steps := TwoHolders(c, key, payload);
    var at := c.leaseTimeout;
    steps := Extend(c, Init(0), steps, PersistOk(1));
    steps := Extend(c, Init(0), steps, MarkOk(1));
    var r := NewRecord(key, payload, 0);
    steps := Extend(c, Init(0), steps, PersistError(0, Error("busy", true), at));
    last := RecordOk(0);
  }

  /** A completion mark that takes effect but answers with an error does the same within the lease: the failure
      that its holder reports puts the completed event back into the retry queue. */
  lemma LostMarkRevivesCompleted(c: Config, key: EventKey, payload: Payload) returns (steps: seq<Step>, last: Step)
    requires c.Valid() && c.maxAttempts > 1
    ensures Legal(c, Init(0), steps) && Enabled(c, Run(c, Init(0), steps), last)
    ensures var s := Run(c, Init(0), steps);
            && s.now == 0 && key in s.ledger && s.ledger[key].status == Completed
            && key in Apply(c, s, last).ledger && Apply(c, s, last).ledger[key].status == RetryScheduled
  {
    steps := Extend(c, Init(0), [], Deliver(key, payload, 0));
    steps := Extend(c, Init(0), steps, PersistOk(0));
    steps := Extend(c, Init(0), steps, MarkLost(0, Error("busy", true), 0));
    TransientFailuresAreRetried(c, NewRecord(key, payload, 0), Error("busy", true), 0);
    last := RecordOk(0);
  }

  /** When retention deletes a key that somebody still holds, a redelivery of the key can end Completed
      although its payload was never persisted. */
  lemma LateCompletionHidesPayload(c: Config, key: EventKey, payload: Payload, other: Payload) returns (steps: seq<Step>)
    requires c.Valid() && payload != other
    ensures Legal(c, Init(0), steps)
    ensures var s := Run(c, Init(0), steps);
            && key in s.ledger && s.ledger[key].status == Completed && s.ledger[key].payload == other
            && !AppliedWith(s, key, other)
  {
    steps := TwoHolders(c, key, payload);
    steps := Extend(c, Init(0), steps, PersistOk(1));
    steps := Extend(c, Init(0), steps, MarkOk(1));
    steps := Extend(c, Init(0), steps, Retain({key}));
    steps := Extend(c, Init(0), steps, Deliver(key, other, c.leaseTimeout));
    steps := Extend(c, Init(0), steps, PersistOk(0));
    steps := Extend(c, Init(0), steps, MarkOk(0));
  }

  predicate MeetsOnly(steps: seq<Step>, e: Error) {
    forall i :: 0 <= i < |steps| && steps[i].PersistError? ==> steps[i].error == e
  }

  /** A first delivery whose persist fails with a transient error waits in the queue. */
  lemma FailureIsQueued(c: Config, key: EventKey, payload: Payload, e: Error) returns (steps: seq<Step>)
    requires c.Valid() && e.transient && c.maxAttempts > 1
    ensures Legal(c, Init(0), steps) && MeetsOnly(steps, e)
    ensures var s := Run(c, Init(0), steps);
            && s.now == c.baseDelay && s.tasks == map[] && s.nextTask == 1 && s.applied == {}
            && s.ledger == map[key := Failed(NewRecord(key, payload, 0), e.text, c.baseDelay, c.maxAttempts)]
  {
    steps := Extend(c, Init(0), [], Deliver(key, payload, 0));
    steps := Extend(c, Init(0), steps, PersistError(0, e, 0));
    steps := Extend(c, Init(0), steps, RecordOk(0));
    steps := Extend(c, Init(0), steps, Tick(c.baseDelay));
  }

  /** Any misleading persist error makes the next attempt skip the payload. */
  lemma MisleadingErrorSkipsPayload(c: Config, key: EventKey, payload: Payload, e: Error) returns (steps: seq<Step>)
    requires c.Valid() && Misleads(c, e)
    ensures Legal(c, Init(0), steps) && MeetsOnly(steps, e)
    ensures var s := Run(c, Init(0), steps);
            && key in s.ledger && s.ledger[key].status == Completed && key !in s.applied
  {
    steps := FailureIsQueued(c, key, payload, e);
    var queued := Failed(NewRecord(key, payload, 0), e.text, c.baseDelay, c.maxAttempts);
    DueIsBatch(c, map[key := queued], queued, c.baseDelay);
    steps := Extend(c, Init(0), steps, LeaseBatch(c.baseDelay, 1, [queued]));
    steps := Extend(c, Init(0), steps, MarkOk(1));
  }
}
