/** Exactly when a terminal record can still change. */
module ProtocolStability {
  import opened Domain
  import opened Ledger
  import opened Protocol
  import opened ProtocolRuns
  import opened ProtocolSafety
  import opened ProtocolFairness

  /** All that the holder can still do is to report a failure that leaves the record as it is. */
  predicate ChangesNothing(c: Config, r: Record, task: Task) {
    task.Reporting? && Failed(r, task.err, task.nextRetryAt, c.maxAttempts) == r
  }

  /** Nobody holds the event with a write that would change it. */
  ghost predicate Settled(c: Config, s: State, k: EventKey)
    requires k in s.ledger
  {
    forall t :: t in s.tasks && s.tasks[t].r.key == k ==> ChangesNothing(c, s.ledger[k], s.tasks[t])
  }

  /** A continuation that changes the record of `k` other than by a retention delete. */
  ghost predicate Changes(c: Config, s: State, k: EventKey, steps: seq<Step>)
    requires k in s.ledger
  {
    && Legal(c, s, steps) && (forall i :: 0 <= i < |steps| ==> !Retains(steps[i], k))
    && !(k in Run(c, s, steps).ledger && Run(c, s, steps).ledger[k] == s.ledger[k])
  }

  lemma TerminalsAreNotLeased(c: Config, s: State, step: Step, k: EventKey)
    requires Enabled(c, s, step) && step.LeaseBatch? && k in s.ledger && s.ledger[k].Terminal()
    ensures !Takes(step, k)
  {
  }

  lemma StepKeepsSettled(c: Config, s: State, step: Step, k: EventKey)
    requires Enabled(c, s, step) && !Retains(step, k) && k in s.ledger && s.ledger[k].Terminal() && Settled(c, s, k)
    ensures k in Apply(c, s, step).ledger && Apply(c, s, step).ledger[k] == s.ledger[k] && Settled(c, Apply(c, s, step), k)
  {
    match step
    case LeaseBatch(at, _, items) =>
      TerminalsAreNotLeased(c, s, step, k);
      NewTasksAreOfTheBatch(s.nextTask, at, items, k);
    case MarkOk(t) => assert s.tasks[t].r.key != k;
    case RecordOk(t) => assert s.tasks[t].r.key == k ==> ChangesNothing(c, s.ledger[k], s.tasks[t]);
    case _ =>
  }

  lemma {:induction false} SettledStays(c: Config, s: State, k: EventKey, steps: seq<Step>)
    requires Legal(c, s, steps) && k in s.ledger && s.ledger[k].Terminal() && Settled(c, s, k)
    requires forall i :: 0 <= i < |steps| ==> !Retains(steps[i], k)
    ensures k in Run(c, s, steps).ledger && Run(c, s, steps).ledger[k] == s.ledger[k]
    decreases |steps|
  {
    if steps != [] {
      assert !Retains(steps[0], k);
      StepKeepsSettled(c, s, steps[0], k);
      SettledStays(c, Apply(c, s, steps[0]), k, steps[1..]);
    }
  }

  /** A task that is still at work can fail for good, with a text that is not the record's. */
  lemma WorkingHolderFails(c: Config, s: State, k: EventKey, t: int) returns (steps: seq<Step>)
    requires k in s.ledger && t in s.tasks && s.tasks[t].r.key == k && !s.tasks[t].Reporting?
    ensures Changes(c, s, k, steps)
  {
    var at, e := if s.now < 0 then 0 else s.now, Error(s.ledger[k].lastError + "x", false);
    steps := Extend(c, s, [], Tick(at));
    steps := Extend(c, s, steps, if s.tasks[t].Applying? then PersistError(t, e, at) else MarkError(t, e, at));
    var text := if s.tasks[t].Applying? then e.text else COMPLETION_PREFIX + e.text;
    assert Run(c, s, steps).tasks[t] == Reporting(s.tasks[t].r, text, ZERO_TIME);
    steps := Extend(c, s, steps, RecordOk(t));
    assert |Run(c, s, steps).ledger[k].lastError| > |s.ledger[k].lastError|;
  }

  /** A terminal record is stable exactly when nobody holds it with a write that would change it: then no
      continuation but a retention delete changes it, and otherwise some does. */
  lemma TerminalIsStableIff(c: Config, s: State, k: EventKey)
    requires k in s.ledger && s.ledger[k].Terminal()
    ensures (forall steps :: !Changes(c, s, k, steps)) <==> Settled(c, s, k)
  {
    if Settled(c, s, k) {
      forall steps ensures !Changes(c, s, k, steps) {
        if Changes(c, s, k, steps) {
          SettledStays(c, s, k, steps);
        }
      }
    } else {
      var t :| t in s.tasks && s.tasks[t].r.key == k && !ChangesNothing(c, s.ledger[k], s.tasks[t]);
      if s.tasks[t].Reporting? {
        var steps := Extend(c, s, [], RecordOk(t));
        assert Changes(c, s, k, steps);
      } else {
        var steps := WorkingHolderFails(c, s, k, t);
      }
    }
  }
}
