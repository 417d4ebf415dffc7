/** Backoff over whole runs: no retry is taken before the delay of the failed attempt is over. */
module ProtocolWaits {
  import opened Domain
  import opened Ledger
  import opened Leasing
  import opened Protocol
  import opened ProtocolSafety
  import Backoff

  /** A transient failure in attempt `attempt` at an event, met at the clock reading `at`. */
  datatype Failure = Failure(key: EventKey, attempt: int, at: Time)

  function FailureOf(task: Task, error: Error, at: Time): set<Failure> {
    if error.transient then {Failure(task.r.key, task.r.attemptCount, at)} else {}
  }

  /** The transient failures that the step meets. */
  function FailuresIn(c: Config, s: State, step: Step): set<Failure>
    requires Enabled(c, s, step)
  {
    match step
    case PersistError(t, error, at) => FailureOf(s.tasks[t], error, at)
    case PersistLost(t, error, at) => FailureOf(s.tasks[t], error, at)
    case MarkError(t, error, at) => FailureOf(s.tasks[t], error, at)
    case MarkLost(t, error, at) => FailureOf(s.tasks[t], error, at)
    case _ => {}
  }

  function Failures(c: Config, s: State, steps: seq<Step>): set<Failure>
    requires Legal(c, s, steps)
    decreases |steps|
  {
    if steps == [] then {} else FailuresIn(c, s, steps[0]) + Failures(c, Apply(c, s, steps[0]), steps[1..])
  }

  /** The event is due again once the delay of one of the failures is over. */
  ghost predicate Waited(c: Config, failures: set<Failure>, k: EventKey, due: Time) {
    exists f :: f in failures && f.key == k && due == f.at + Backoff.DelayFor(c.baseDelay, c.maxDelay, f.attempt)
  }

  /** Every retry that is scheduled, or about to be, waits for the delay of a failure. */
  ghost predicate Explained(c: Config, s: State, failures: set<Failure>) {
    && WellKeyed(s.ledger)
    && (forall k :: k in s.ledger && s.ledger[k].status == RetryScheduled ==> Waited(c, failures, k, s.ledger[k].nextRetryAt))
    && (forall t :: t in s.tasks && s.tasks[t].Reporting? && s.tasks[t].nextRetryAt != ZERO_TIME ==>
          Waited(c, failures, s.tasks[t].r.key, s.tasks[t].nextRetryAt))
  }

  lemma MoreFailuresExplain(c: Config, s: State, failures: set<Failure>, more: set<Failure>)
    requires Explained(c, s, failures)
    ensures Explained(c, s, failures + more)
  {
    forall k, due | Waited(c, failures, k, due) ensures Waited(c, failures + more, k, due) {
      var f :| f in failures && f.key == k && due == f.at + Backoff.DelayFor(c.baseDelay, c.maxDelay, f.attempt);
      assert f in failures + more;
    }
  }

  lemma FailureIsWaitedFor(c: Config, task: Task, error: Error, at: Time, failures: set<Failure>)
    requires FailureOf(task, error, at) <= failures
    ensures var due := RetryAt(c, task.r, error, at); due == ZERO_TIME || Waited(c, failures, task.r.key, due)
  {
    if error.transient {
      assert Failure(task.r.key, task.r.attemptCount, at) in failures;
    }
  }

  lemma FailureKeepsExplained(c: Config, s: State, step: Step, failures: set<Failure>)
    requires step.PersistError? || step.PersistLost? || step.MarkError? || step.MarkLost?
    requires Enabled(c, s, step) && Explained(c, s, failures) && FailuresIn(c, s, step) <= failures
    ensures Explained(c, Apply(c, s, step), failures)
  {
    FailureIsWaitedFor(c, s.tasks[step.t], step.error, step.at, failures);
  }

  lemma BatchKeepsExplained(c: Config, s: State, s': State, at: Time, items: seq<Record>, failures: set<Failure>)
    requires Explained(c, s, failures) && s'.ledger == TakeBatch(s.ledger, at, items)
    requires forall t :: t in s'.tasks && s'.tasks[t].Reporting? ==> t in s.tasks && s'.tasks[t] == s.tasks[t]
    ensures Explained(c, s', failures)
  {
  }

  lemma NewHoldersReportNothing(s: State, s': State, at: Time, items: seq<Record>)
    requires s'.tasks == s.tasks + NewTasks(s.nextTask, at, items)
    ensures forall t :: t in s'.tasks && s'.tasks[t].Reporting? ==> t in s.tasks && s'.tasks[t] == s.tasks[t]
  {
  }

  lemma StepKeepsExplained(c: Config, s: State, step: Step, failures: set<Failure>)
    requires Enabled(c, s, step) && Explained(c, s, failures) && FailuresIn(c, s, step) <= failures
    ensures Explained(c, Apply(c, s, step), failures)
  {
    match step
    case LeaseBatch(at, _, items) =>
      NewHoldersReportNothing(s, Apply(c, s, step), at, items);
      BatchKeepsExplained(c, s, Apply(c, s, step), at, items, failures);
    case PersistError(_, _, _) => FailureKeepsExplained(c, s, step, failures);
    case PersistLost(_, _, _) => FailureKeepsExplained(c, s, step, failures);
    case MarkError(_, _, _) => FailureKeepsExplained(c, s, step, failures);
    case MarkLost(_, _, _) => FailureKeepsExplained(c, s, step, failures);
    case _ =>
  }

  lemma {:induction false} RunIsExplained(c: Config, s: State, steps: seq<Step>, failures: set<Failure>)
    requires Legal(c, s, steps) && Explained(c, s, failures)
    ensures Explained(c, Run(c, s, steps), failures + Failures(c, s, steps))
    decreases |steps|
  {
    if steps == [] {
      assert failures + {} == failures;
    } else {
      var met, s' := FailuresIn(c, s, steps[0]), Apply(c, s, steps[0]);
      MoreFailuresExplain(c, s, failures, met);
      StepKeepsExplained(c, s, steps[0], failures + met);
      RunIsExplained(c, s', steps[1..], failures + met);
      assert (failures + met) + Failures(c, s', steps[1..]) == failures + Failures(c, s, steps);
    }
  }

  /** The batch was read off the clock no earlier than one of the failures of `k` plus the delay of its attempt. */
  ghost predicate TakenAfterDelay(c: Config, failures: set<Failure>, k: EventKey, at: Time) {
    exists f :: f in failures && f.key == k && f.at + Backoff.DelayFor(c.baseDelay, c.maxDelay, f.attempt) <= at
  }

  /** In every run, a batch that takes an event out of the retry queue reads a clock at or after the reading of
      a transient failure of that event plus the delay of the attempt that failed. */
  lemma RetriesWait(c: Config, start: Time, steps: seq<Step>, batch: Step, k: EventKey)
    requires Legal(c, Init(start), steps) && batch.LeaseBatch? && Enabled(c, Run(c, Init(start), steps), batch)
    requires k in KeysOf(batch.items) && k in Run(c, Init(start), steps).ledger
    requires Run(c, Init(start), steps).ledger[k].status == RetryScheduled
    ensures TakenAfterDelay(c, Failures(c, Init(start), steps), k, batch.at)
  {
    var s, failures := Run(c, Init(start), steps), Failures(c, Init(start), steps);
    RunIsExplained(c, Init(start), steps, {});
    assert {} + failures == failures;
    TakenIsDue(s.ledger, batch.at, batch.at - c.leaseTimeout, batch.limit, batch.items, k);
    var f :| f in failures && f.key == k
             && s.ledger[k].nextRetryAt == f.at + Backoff.DelayFor(c.baseDelay, c.maxDelay, f.attempt);
  }

  /** When doubling does not overflow, that delay is the base, doubled for each attempt before, and at most the
      maximum. */
  lemma RetriesWaitExponentially(c: Config, start: Time, steps: seq<Step>, batch: Step, k: EventKey) returns (f: Failure)
    requires Legal(c, Init(start), steps) && batch.LeaseBatch? && Enabled(c, Run(c, Init(start), steps), batch)
    requires k in KeysOf(batch.items) && k in Run(c, Init(start), steps).ledger
    requires Run(c, Init(start), steps).ledger[k].status == RetryScheduled
    requires 0 < c.baseDelay <= c.maxDelay && Backoff.Crossing(c.baseDelay, c.maxDelay) < Backoff.TWO_63
    ensures f in Failures(c, Init(start), steps) && f.key == k
    ensures var waits := c.baseDelay * Backoff.Pow2(if f.attempt <= 1 then 0 else f.attempt - 1);
            f.at + (if waits < c.maxDelay then waits else c.maxDelay) <= batch.at
  {
    RetriesWait(c, start, steps, batch, k);
    f :| f in Failures(c, Init(start), steps) && f.key == k
         && f.at + Backoff.DelayFor(c.baseDelay, c.maxDelay, f.attempt) <= batch.at;
    Backoff.ClosedFormWithoutOverflow(c.baseDelay, c.maxDelay, Backoff.Wanted(f.attempt));
  }

  lemma TakenIsDue(l: Events, now: Time, staleBefore: Time, limit: nat, batch: seq<Record>, k: EventKey)
    requires WellKeyed(l) && IsBatch(l, now, staleBefore, limit, batch) && k in KeysOf(batch) && k in l
    ensures l[k].status == RetryScheduled ==> l[k].nextRetryAt <= now
  {
    BatchTakesDue(l, now, staleBefore, limit, batch);
    TakenRecords(l, now, staleBefore, batch);
  }
}
