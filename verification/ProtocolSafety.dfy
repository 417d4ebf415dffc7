/** What holds in every reachable state of the protocol, whatever the interleaving: with crashes,
    expired leases, failing calls, late clock readings and retention. */
module ProtocolSafety {
  import opened Domain
  import opened Ledger
  import opened Protocol

  /** Every attempt of a record is its first delivery, a lease of a scheduled retry or the reclaim of an
      expired lease; scheduled retries stay within the budget. */
  predicate RecordWithinBudget(c: Config, r: Record, life: Life) {
    && r.attemptCount == 1 + life.retryLeases + life.staleLeases
    && life.retryLeases <= c.maxAttempts - 1
    && (r.status == RetryScheduled ==> r.attemptCount < c.maxAttempts && r.nextRetryAt != ZERO_TIME)
  }

  ghost predicate Budget(c: Config, s: State) {
    && WellKeyed(s.ledger)
    && s.lives.Keys == s.ledger.Keys
    && forall k :: k in s.ledger ==> RecordWithinBudget(c, s.ledger[k], s.lives[k])
  }

  /** The record's next attempt, if it has one, skips the payload. */
  predicate Skips(r: Record) {
    r.IsCompletionRetry() && r.status != DeadLetter
  }

  ghost predicate AppliedInLedger(s: State) {
    forall k :: k in s.ledger && (s.ledger[k].status == Completed || Skips(s.ledger[k])) ==> k in s.applied
  }

  /** Whoever is about to complete an event, or to ask that its next attempt skips the payload, holds a key
      whose payload was persisted. */
  ghost predicate AppliedByHolders(c: Config, s: State) {
    forall t :: t in s.tasks && (s.tasks[t].Finishing? || s.tasks[t].AsksToSkip(c)) ==> s.tasks[t].r.key in s.applied
  }

  predicate Conserved(s: State) {
    s.inserted == |s.ledger| + s.purged
  }

  /** What holds whatever the errors. */
  ghost predicate Booked(c: Config, s: State) {
    Budget(c, s) && Conserved(s)
  }

  ghost predicate Safe(c: Config, s: State) {
    Budget(c, s) && AppliedInLedger(s) && AppliedByHolders(c, s)
  }

  lemma BatchKeepsBudget(c: Config, s: State, at: Time, staleBefore: Time, items: seq<Record>)
    requires c.Valid() && AreDue(s.ledger, at, staleBefore, items) && Budget(c, s)
    ensures Budget(c, s.(ledger := TakeBatch(s.ledger, at, items), lives := LeasedLives(s, items)))
  {
  }

  lemma PersistKeepsBudget(c: Config, s: State, t: int)
    requires Budget(c, s) && t in s.tasks
    ensures Budget(c, Persisted(s, t))
  {
  }

  lemma RecordKeepsBudget(c: Config, s: State, t: int)
    requires c.Valid() && Enabled(c, s, RecordOk(t)) && Budget(c, s)
    ensures Budget(c, Apply(c, s, RecordOk(t)))
  {
  }

  lemma StepKeepsBudget(c: Config, s: State, step: Step)
    requires c.Valid() && Enabled(c, s, step) && Budget(c, s)
    ensures Budget(c, Apply(c, s, step))
  {
    match step
    case LeaseBatch(at, _, items) => BatchKeepsBudget(c, s, at, at - c.leaseTimeout, items);
    case PersistOk(t) => PersistKeepsBudget(c, s, t);
    case PersistLost(t, _, _) => PersistKeepsBudget(c, s, t);
    case RecordOk(t) => RecordKeepsBudget(c, s, t);
    case _ =>
  }

  lemma MarkKeepsAppliedInLedger(s: State, s': State, k: EventKey)
    requires AppliedInLedger(s) && k in s.applied
    requires s'.ledger == Complete(s.ledger, k) && s'.applied == s.applied
    ensures AppliedInLedger(s')
  {
  }

  lemma ReportKeepsAppliedInLedger(c: Config, s: State, t: int)
    requires Enabled(c, s, RecordOk(t)) && Safe(c, s)
    ensures AppliedInLedger(Apply(c, s, RecordOk(t)))
  {
    assert s.tasks[t].AsksToSkip(c) ==> s.tasks[t].r.key in s.applied;
  }

  lemma BatchKeepsAppliedInLedger(s: State, s': State, at: Time, staleBefore: Time, items: seq<Record>)
    requires AppliedInLedger(s) && AreDue(s.ledger, at, staleBefore, items)
    requires s'.ledger == TakeBatch(s.ledger, at, items) && s'.applied == s.applied
    ensures AppliedInLedger(s')
  {
  }

  lemma StepKeepsAppliedInLedger(c: Config, s: State, step: Step)
    requires Enabled(c, s, step) && Safe(c, s)
    ensures AppliedInLedger(Apply(c, s, step))
  {
    match step
    case MarkOk(t) => MarkKeepsAppliedInLedger(s, Apply(c, s, step), s.tasks[t].r.key);
    case MarkLost(t, _, _) => MarkKeepsAppliedInLedger(s, Apply(c, s, step), s.tasks[t].r.key);
    case RecordOk(t) => ReportKeepsAppliedInLedger(c, s, t);
    case LeaseBatch(at, _, items) => BatchKeepsAppliedInLedger(s, Apply(c, s, step), at, at - c.leaseTimeout, items);
    case _ =>
  }

  /** A worker skips the payload only of records whose payload was persisted. */
  lemma SkippedPayloadsAreApplied(s: State, at: Time, staleBefore: Time, items: seq<Record>)
    requires AppliedInLedger(s) && AreDue(s.ledger, at, staleBefore, items)
    ensures var tasks := NewTasks(s.nextTask, at, items);
            forall t :: t in tasks && tasks[t].Finishing? ==> tasks[t].r.key in s.applied
  {
    var tasks := NewTasks(s.nextTask, at, items);
    forall t | t in tasks && tasks[t].Finishing? ensures tasks[t].r.key in s.applied {
      assert s.ledger[items[t - s.nextTask].key] == items[t - s.nextTask];
    }
  }

  lemma StepKeepsAppliedByHolders(c: Config, s: State, step: Step)
    requires Enabled(c, s, step) && Plain(c, step) && AppliedInLedger(s) && AppliedByHolders(c, s)
    ensures AppliedByHolders(c, Apply(c, s, step))
  {
    match step
    case LeaseBatch(at, limit, items) => SkippedPayloadsAreApplied(s, at, at - c.leaseTimeout, items);
    case _ =>
  }

  lemma StepKeepsConserved(c: Config, s: State, step: Step)
    requires Enabled(c, s, step) && Conserved(s)
    ensures Conserved(Apply(c, s, step))
  {
    match step
    case LeaseBatch(at, _, items) =>
      assert TakeBatch(s.ledger, at, items).Keys == s.ledger.Keys;
    case Retain(keys) =>
      assert Purge(s.ledger, keys).Keys == s.ledger.Keys - keys;
    case _ =>
  }

  /** Budget and conservation hold over every run. */
  lemma {:induction false} RunIsBooked(c: Config, s: State, steps: seq<Step>)
    requires c.Valid() && Legal(c, s, steps) && Booked(c, s)
    ensures Booked(c, Run(c, s, steps))
    decreases |steps|
  {
    if steps != [] {
      StepKeepsBudget(c, s, steps[0]);
      StepKeepsConserved(c, s, steps[0]);
      RunIsBooked(c, Apply(c, s, steps[0]), steps[1..]);
    }
  }

  lemma StepIsSafe(c: Config, s: State, step: Step)
    requires c.Valid() && Enabled(c, s, step) && Plain(c, step) && Safe(c, s)
    ensures Safe(c, Apply(c, s, step))
  {
    StepKeepsBudget(c, s, step);
    StepKeepsAppliedInLedger(c, s, step);
    StepKeepsAppliedByHolders(c, s, step);
  }

  /** Nothing is completed before its payload is persisted, over every run without a misleading error. */
  lemma {:induction false} RunIsSafe(c: Config, s: State, steps: seq<Step>)
    requires c.Valid() && Legal(c, s, steps) && AllPlain(c, steps) && Safe(c, s)
    ensures Safe(c, Run(c, s, steps))
    decreases |steps|
  {
    if steps != [] {
      var rest := steps[1..];
      assert Plain(c, steps[0]) && forall i :: 0 <= i < |rest| ==> rest[i] == steps[i + 1];
      StepIsSafe(c, s, steps[0]);
      RunIsSafe(c, Apply(c, s, steps[0]), rest);
    }
  }

  /** Completed implies applied: in every reachable state of every interleaving, with crashes, expired leases
      and failing calls, a completed key had its payload persisted, unless a persist error misled. */
  lemma CompletedImpliesApplied(c: Config, start: Time, steps: seq<Step>, k: EventKey)
    requires c.Valid() && Legal(c, Init(start), steps) && AllPlain(c, steps)
    requires k in Run(c, Init(start), steps).ledger
    requires Run(c, Init(start), steps).ledger[k].status == Completed
    ensures k in Run(c, Init(start), steps).applied
  {
    RunIsSafe(c, Init(start), steps);
  }

  /** The retry budget of every reachable record: a scheduled retry has attempts left and a due time, a
      record is leased out of a scheduled retry fewer than `maxAttempts` times, and only reclaims of
      expired leases take it past the maximum. */
  lemma RetriesStayWithinBudget(c: Config, start: Time, steps: seq<Step>, k: EventKey)
    requires c.Valid() && Legal(c, Init(start), steps)
    requires k in Run(c, Init(start), steps).ledger
    ensures var s := Run(c, Init(start), steps);
            var r := s.ledger[k];
            && k in s.lives
            && (r.status == RetryScheduled ==> 1 <= r.attemptCount < c.maxAttempts && r.nextRetryAt != ZERO_TIME)
            && s.lives[k].retryLeases < c.maxAttempts
            && 1 <= r.attemptCount <= c.maxAttempts + s.lives[k].staleLeases
  {
    RunIsBooked(c, Init(start), steps);
  }

  /** Across every run, deliveries inserted minus retention deletes are the sum of the populations. */
  lemma EventsAreConserved(c: Config, start: Time, steps: seq<Step>)
    requires c.Valid() && Legal(c, Init(start), steps)
    ensures var s := Run(c, Init(start), steps);
            s.inserted - s.purged ==
            |Population(s.ledger, Processing)| + |Population(s.ledger, RetryScheduled)|
            + |Population(s.ledger, Completed)| + |Population(s.ledger, DeadLetter)|
  {
    RunIsBooked(c, Init(start), steps);
    PopulationsPartition(Run(c, Init(start), steps).ledger);
  }

  predicate Retains(step: Step, k: EventKey) {
    step.Retain? && k in step.keys
  }

  /** While a record lives, its attempt count never decreases. */
  lemma {:induction false} AttemptsNeverDecrease(c: Config, s: State, steps: seq<Step>, k: EventKey)
    requires Legal(c, s, steps) && k in s.ledger
    requires forall i :: 0 <= i < |steps| ==> !Retains(steps[i], k)
    ensures k in Run(c, s, steps).ledger
    ensures s.ledger[k].attemptCount <= Run(c, s, steps).ledger[k].attemptCount
    decreases |steps|
  {
    if steps != [] {
      assert !Retains(steps[0], k);
      AttemptsNeverDecrease(c, Apply(c, s, steps[0]), steps[1..], k);
    }
  }
}
