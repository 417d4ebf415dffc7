/** Clean runs of an event: none of its holders crashes, none of their failure records fails, no call of theirs
    takes effect and yet answers with an error, no persist error misleads, and no lease of the event expires.
    Whatever happens to other events, its payload then takes effect once and it is never stranded. */
module ProtocolClean {
  import opened Domain
  import opened Ledger
  import opened Protocol
  import opened ProtocolSafety
  import opened ProtocolTimed

  predicate HeldBy(s: State, k: EventKey, t: int) {
    t in s.tasks && s.tasks[t].r.key == k
  }

  function Holders(s: State, k: EventKey): set<int> {
    set t | t in s.tasks && HeldBy(s, k, t)
  }

  /** What the step does to the event `k`, if anything, is clean. */
  predicate Clean(c: Config, s: State, step: Step, k: EventKey) {
    match step
    case Crash(t) => !HeldBy(s, k, t)
    case RecordError(t) => !HeldBy(s, k, t)
    case PersistError(t, error, _) => HeldBy(s, k, t) ==> !Misleads(c, error)
    case PersistLost(t, _, _) => !HeldBy(s, k, t)
    case MarkLost(t, _, _) => !HeldBy(s, k, t)
    case LeaseBatch(_, _, items) => forall i :: 0 <= i < |items| && items[i].key == k ==> items[i].status == RetryScheduled
    case _ => true
  }

  ghost predicate AllClean(c: Config, s: State, steps: seq<Step>, k: EventKey)
    requires Legal(c, s, steps)
    decreases |steps|
  {
    steps == [] || (Clean(c, s, steps[0], k) && AllClean(c, Apply(c, s, steps[0]), steps[1..], k))
  }

  /** How often the payload of a holder's record has been applied may be `n`. */
  predicate TaskCount(c: Config, task: Task, n: nat) {
    match task
    case Applying(_) => n == 0
    case Finishing(_) => n == 1
    case Reporting(_, err, _) => n <= 1 && (task.AsksToSkip(c) ==> n == 1) && (!(COMPLETION_PREFIX <= err) ==> n == 0)
  }

  /** How often the payload of a record that nobody holds has been applied may be `n`. */
  predicate RecordCount(r: Record, n: nat) {
    match r.status
    case Completed => n == 1
    case DeadLetter => n <= 1
    case _ => n == if r.IsCompletionRetry() then 1 else 0
  }

  ghost predicate CountedByHolders(c: Config, s: State, k: EventKey) {
    forall t :: HeldBy(s, k, t) ==> k in s.lives && TaskCount(c, s.tasks[t], s.lives[k].applied)
  }

  predicate CountedInLedger(s: State, k: EventKey) {
    k in s.ledger && k in s.lives && s.ledger[k].status != Processing ==> RecordCount(s.ledger[k], s.lives[k].applied)
  }

  predicate NeverReclaimed(s: State, k: EventKey) {
    k in s.lives ==> s.lives[k].staleLeases == 0
  }

  ghost predicate Counted(c: Config, s: State, k: EventKey) {
    CountedByHolders(c, s, k) && CountedInLedger(s, k) && NeverReclaimed(s, k)
  }

  ghost predicate NotStranded(s: State, k: EventKey) {
    k in s.ledger && s.ledger[k].status == Processing ==> exists t :: HeldBy(s, k, t)
  }

  ghost predicate CleanInvariant(c: Config, s: State, k: EventKey) {
    && Budget(c, s) && FreshNumbers(s) && Exclusive(s, Holders(s, k))
    && Counted(c, s, k) && NotStranded(s, k)
  }

  /** A clean batch takes the event only out of the retry queue, where nobody holds it. */
  lemma BatchesTakeUnheld(s: State, at: Time, staleBefore: Time, items: seq<Record>, k: EventKey)
    requires Exclusive(s, Holders(s, k)) && AreDue(s.ledger, at, staleBefore, items)
    requires forall i :: 0 <= i < |items| && items[i].key == k ==> items[i].status == RetryScheduled
    ensures TakesOnlyUnheld(s, items, Holders(s, k))
  {
    forall t, i | t in Holders(s, k) && t in s.tasks && 0 <= i < |items| ensures items[i].key != s.tasks[t].r.key {
      assert Owns(s, t);
    }
  }

  lemma CleanWritesAreApart(c: Config, s: State, step: Step, k: EventKey)
    requires Exclusive(s, Holders(s, k)) && Clean(c, s, step, k)
    ensures WritesApart(s, step, Holders(s, k))
  {
  }

  lemma StepKeepsExclusiveClean(c: Config, s: State, step: Step, k: EventKey)
    requires Enabled(c, s, step) && Clean(c, s, step, k) && FreshNumbers(s) && Exclusive(s, Holders(s, k))
    ensures Exclusive(Apply(c, s, step), Holders(Apply(c, s, step), k))
  {
    var s' := Apply(c, s, step);
    if step.LeaseBatch? {
      BatchesTakeUnheld(s, step.at, step.at - c.leaseTimeout, step.items, k);
    }
    CleanWritesAreApart(c, s, step, k);
    StepKeepsExclusive(c, s, step, Holders(s, k));
    SuccessorsCoverHolders(c, s, step, k);
    FewerHoldersAreExclusive(s', Successors(c, s, step, Holders(s, k)), Holders(s', k));
  }

  lemma SuccessorsCoverHolders(c: Config, s: State, step: Step, k: EventKey)
    requires Enabled(c, s, step) && FreshNumbers(s)
    ensures Holders(Apply(c, s, step), k) <= Successors(c, s, step, Holders(s, k))
  {
  }

  /** A clean batch counts as a lease from the queue, and persists nothing. */
  lemma CleanLease(s: State, at: Time, staleBefore: Time, items: seq<Record>, k: EventKey)
    requires AreDue(s.ledger, at, staleBefore, items) && k in s.lives
    requires forall i :: 0 <= i < |items| && items[i].key == k ==> items[i].status == RetryScheduled
    ensures var life := LeasedLives(s, items)[k];
            life.applied == s.lives[k].applied && life.staleLeases == s.lives[k].staleLeases
  {
    if k in KeysOf(items) {
      var i :| 0 <= i < |items| && items[i].key == k;
      assert s.ledger[k] == items[i];
    }
  }

  lemma NewHolderIsCounted(c: Config, s: State, at: Time, staleBefore: Time, items: seq<Record>, t: int)
    requires AreDue(s.ledger, at, staleBefore, items) && t in NewTasks(s.nextTask, at, items)
    requires var r := items[t - s.nextTask];
             r.status == RetryScheduled && r.key in s.lives && CountedInLedger(s, r.key)
    ensures var task := NewTasks(s.nextTask, at, items)[t];
            task.r.key in s.lives && TaskCount(c, task, s.lives[task.r.key].applied)
  {
    assert s.ledger[items[t - s.nextTask].key] == items[t - s.nextTask];
  }

  lemma BatchKeepsCounts(c: Config, s: State, at: Time, staleBefore: Time, items: seq<Record>, s': State, k: EventKey)
    requires AreDue(s.ledger, at, staleBefore, items) && s.lives.Keys == s.ledger.Keys && Counted(c, s, k)
    requires forall i :: 0 <= i < |items| && items[i].key == k ==> items[i].status == RetryScheduled
    requires s'.ledger == TakeBatch(s.ledger, at, items) && s'.lives.Keys == s.lives.Keys
    requires k in s.lives ==> s'.lives[k].applied == s.lives[k].applied && s'.lives[k].staleLeases == s.lives[k].staleLeases
    requires s'.tasks == s.tasks + NewTasks(s.nextTask, at, items)
    ensures Counted(c, s', k)
  {
    forall t | HeldBy(s', k, t) ensures k in s'.lives && TaskCount(c, s'.tasks[t], s'.lives[k].applied) {
      if t in NewTasks(s.nextTask, at, items) {
        assert items[t - s.nextTask].key == k;
        NewHolderIsCounted(c, s, at, staleBefore, items, t);
      } else {
        assert HeldBy(s, k, t);
      }
    }
  }

  lemma LeaseKeepsCounts(c: Config, s: State, step: Step, k: EventKey)
    requires step.LeaseBatch? && Enabled(c, s, step) && Clean(c, s, step, k)
    requires s.lives.Keys == s.ledger.Keys && Counted(c, s, k)
    ensures Counted(c, Apply(c, s, step), k)
  {
    var at, items, s' := step.at, step.items, Apply(c, s, step);
    assert s'.lives.Keys == s.lives.Keys;
    if k in s.lives {
      CleanLease(s, at, at - c.leaseTimeout, items, k);
    }
    BatchKeepsCounts(c, s, at, at - c.leaseTimeout, items, s', k);
  }

  lemma WriteKeepsCounts(c: Config, s: State, step: Step, k: EventKey)
    requires step.PersistOk? || step.MarkOk? || step.RecordOk?
    requires Enabled(c, s, step) && Exclusive(s, Holders(s, k)) && Budget(c, s) && Counted(c, s, k)
    ensures Counted(c, Apply(c, s, step), k)
  {
    assert HeldBy(s, k, step.t) ==> step.t in Holders(s, k) && Owns(s, step.t);
  }

  lemma LedgerKeepsCounts(c: Config, s: State, step: Step, k: EventKey)
    requires step.Deliver? || step.Retain?
    requires Enabled(c, s, step) && FreshNumbers(s) && Exclusive(s, Holders(s, k)) && Budget(c, s) && Counted(c, s, k)
    ensures Counted(c, Apply(c, s, step), k)
  {
    var s' := Apply(c, s, step);
    forall t | HeldBy(s', k, t) ensures k in s'.lives && TaskCount(c, s'.tasks[t], s'.lives[k].applied) {
      if HeldBy(s, k, t) {
        assert t in Holders(s, k) && Owns(s, t);
      }
    }
    assert forall t :: HeldBy(s, k, t) ==> HeldBy(s', k, t);
  }

  lemma OthersKeepCounts(c: Config, s: State, step: Step, k: EventKey)
    requires step.PersistLost? || step.MarkLost? || step.PersistError? || step.MarkError?
    requires Enabled(c, s, step) && Clean(c, s, step, k) && WellKeyed(s.ledger) && Counted(c, s, k)
    ensures Counted(c, Apply(c, s, step), k)
  {
  }

  lemma StepKeepsCounts(c: Config, s: State, step: Step, k: EventKey)
    requires Enabled(c, s, step) && Clean(c, s, step, k) && CleanInvariant(c, s, k)
    ensures Counted(c, Apply(c, s, step), k)
  {
    match step
    case LeaseBatch(_, _, _) => LeaseKeepsCounts(c, s, step, k);
    case Deliver(_, _, _) => LedgerKeepsCounts(c, s, step, k);
    case Retain(_) => LedgerKeepsCounts(c, s, step, k);
    case PersistOk(_) => WriteKeepsCounts(c, s, step, k);
    case MarkOk(_) => WriteKeepsCounts(c, s, step, k);
    case RecordOk(_) => WriteKeepsCounts(c, s, step, k);
    case PersistError(_, _, _) => OthersKeepCounts(c, s, step, k);
    case PersistLost(_, _, _) => OthersKeepCounts(c, s, step, k);
    case MarkError(_, _, _) => OthersKeepCounts(c, s, step, k);
    case MarkLost(_, _, _) => OthersKeepCounts(c, s, step, k);
    case _ =>
  }

  lemma BatchStrandsNothing(s: State, at: Time, items: seq<Record>, s': State, k: EventKey)
    requires FreshNumbers(s) && NotStranded(s, k)
    requires s'.ledger == TakeBatch(s.ledger, at, items)
    requires s'.tasks == s.tasks + NewTasks(s.nextTask, at, items)
    ensures NotStranded(s', k)
  {
    if k in KeysOf(items) {
      var i :| 0 <= i < |items| && items[i].key == k;
      assert HeldBy(s', k, s.nextTask + i);
    } else if k in s.ledger && s.ledger[k].status == Processing {
      var t :| HeldBy(s, k, t);
      assert HeldBy(s', k, t);
    }
  }

  lemma StepStrandsNothing(c: Config, s: State, step: Step, k: EventKey)
    requires Enabled(c, s, step) && Clean(c, s, step, k) && FreshNumbers(s) && NotStranded(s, k)
    ensures NotStranded(Apply(c, s, step), k)
  {
    var s' := Apply(c, s, step);
    if step.LeaseBatch? {
      BatchStrandsNothing(s, step.at, step.items, s', k);
    } else if k in s'.ledger && s'.ledger[k].status == Processing {
      if k !in s.ledger {
        assert HeldBy(s', k, s.nextTask);
      } else {
        var t :| HeldBy(s, k, t);
        assert HeldBy(s', k, t);
      }
    }
  }

  lemma {:induction false} CleanRun(c: Config, s: State, steps: seq<Step>, k: EventKey)
    requires c.Valid() && Legal(c, s, steps) && AllClean(c, s, steps, k) && CleanInvariant(c, s, k)
    ensures CleanInvariant(c, Run(c, s, steps), k)
    decreases |steps|
  {
    if steps != [] {
      StepKeepsBudget(c, s, steps[0]);
      StepKeepsNumbersFresh(c, s, steps[0]);
      StepKeepsExclusiveClean(c, s, steps[0], k);
      StepKeepsCounts(c, s, steps[0], k);
      StepStrandsNothing(c, s, steps[0], k);
      CleanRun(c, Apply(c, s, steps[0]), steps[1..], k);
    }
  }

  /** Exactly-once effect: in a run that is clean for an event its payload is persisted at most once, and
      exactly once if the event ends Completed. */
  lemma PayloadTakesEffectOnce(c: Config, start: Time, steps: seq<Step>, k: EventKey)
    requires c.Valid() && Legal(c, Init(start), steps) && AllClean(c, Init(start), steps, k)
    requires k in Run(c, Init(start), steps).ledger
    ensures var s := Run(c, Init(start), steps);
            && k in s.lives && s.lives[k].applied <= 1
            && (s.ledger[k].status == Completed ==> s.lives[k].applied == 1)
  {
    CleanRun(c, Init(start), steps, k);
    var s := Run(c, Init(start), steps);
    if s.ledger[k].status == Processing {
      var t :| HeldBy(s, k, t);
    }
  }

  /** A run that is clean for an event never exceeds its budget, and once its last attempt has been reported
      the event is terminal. */
  lemma LastAttemptIsTerminal(c: Config, start: Time, steps: seq<Step>, k: EventKey)
    requires c.Valid() && Legal(c, Init(start), steps) && AllClean(c, Init(start), steps, k)
    requires k in Run(c, Init(start), steps).ledger
    ensures var s := Run(c, Init(start), steps);
            && s.ledger[k].attemptCount <= c.maxAttempts
            && (s.ledger[k].attemptCount == c.maxAttempts && (forall t :: !HeldBy(s, k, t)) ==> s.ledger[k].Terminal())
  {
    CleanRun(c, Init(start), steps, k);
  }
}
