/** Completed implies applied, for the very payload that the record carries. The ledger identifies an
    event by its key alone, so this needs that retention spares the keys that somebody may still complete. */
module ProtocolPayload {
  import opened Domain
  import opened Ledger
  import opened Protocol
  import opened ProtocolSafety
  import opened ProtocolTimed

  /** All that the holder can still do is to report a failure after which the payload is not skipped. */
  predicate Harmless(c: Config, task: Task) {
    task.Reporting? && !task.AsksToSkip(c)
  }

  /** Retention deletes no key that somebody holds, unless the holder is harmless. */
  ghost predicate Spares(c: Config, s: State, step: Step) {
    step.Retain? ==> forall t :: t in s.tasks && s.tasks[t].r.key in step.keys ==> Harmless(c, s.tasks[t])
  }

  ghost predicate SparingRun(c: Config, s: State, steps: seq<Step>)
    requires Legal(c, s, steps)
    decreases |steps|
  {
    steps == [] || (Spares(c, s, steps[0]) && SparingRun(c, Apply(c, s, steps[0]), steps[1..]))
  }

  predicate AppliedWith(s: State, k: EventKey, payload: Payload) {
    (k, payload) in s.appliedPayloads
  }

  /** The holder has the payload that the ledger stores for its key. */
  predicate Agrees(s: State, task: Task) {
    task.r.key in s.ledger && s.ledger[task.r.key].payload == task.r.payload
  }

  ghost predicate HoldersAgree(c: Config, s: State) {
    forall t :: t in s.tasks ==> Agrees(s, s.tasks[t]) || Harmless(c, s.tasks[t])
  }

  ghost predicate PayloadAppliedInLedger(s: State) {
    forall k :: k in s.ledger && (s.ledger[k].status == Completed || Skips(s.ledger[k])) ==>
      AppliedWith(s, k, s.ledger[k].payload)
  }

  ghost predicate PayloadAppliedByHolders(c: Config, s: State) {
    forall t :: t in s.tasks && (s.tasks[t].Finishing? || s.tasks[t].AsksToSkip(c)) ==>
      AppliedWith(s, s.tasks[t].r.key, s.tasks[t].r.payload)
  }

  ghost predicate PayloadInvariant(c: Config, s: State) {
    && Budget(c, s) && FreshNumbers(s)
    && HoldersAgree(c, s) && PayloadAppliedInLedger(s) && PayloadAppliedByHolders(c, s)
  }

  /** A new holder has the stored payload, and skips it only if it was persisted. */
  lemma NewHolderAgrees(s: State, at: Time, staleBefore: Time, items: seq<Record>, t: int)
    requires PayloadAppliedInLedger(s) && WellKeyed(s.ledger) && AreDue(s.ledger, at, staleBefore, items)
    requires t in NewTasks(s.nextTask, at, items)
    ensures var task := NewTasks(s.nextTask, at, items)[t];
            Agrees(s, task) && (task.Finishing? ==> AppliedWith(s, task.r.key, task.r.payload)) && !task.Reporting?
  {
    assert s.ledger[items[t - s.nextTask].key] == items[t - s.nextTask];
  }

  ghost predicate NewHoldersAgree(s: State, added: map<int, Task>) {
    forall t :: t in added ==>
      Agrees(s, added[t]) && (added[t].Finishing? ==> AppliedWith(s, added[t].r.key, added[t].r.payload))
      && !added[t].Reporting?
  }

  lemma BatchAgrees(s: State, at: Time, staleBefore: Time, items: seq<Record>)
    requires PayloadAppliedInLedger(s) && WellKeyed(s.ledger) && AreDue(s.ledger, at, staleBefore, items)
    ensures NewHoldersAgree(s, NewTasks(s.nextTask, at, items))
  {
    var added := NewTasks(s.nextTask, at, items);
    forall t | t in added
      ensures Agrees(s, added[t]) && !added[t].Reporting?
      ensures added[t].Finishing? ==> AppliedWith(s, added[t].r.key, added[t].r.payload)
    {
      NewHolderAgrees(s, at, staleBefore, items, t);
    }
  }

  lemma NewHoldersKeepHolders(c: Config, s: State, at: Time, items: seq<Record>, added: map<int, Task>)
    requires HoldersAgree(c, s) && PayloadAppliedByHolders(c, s) && NewHoldersAgree(s, added)
    ensures var s' := s.(ledger := TakeBatch(s.ledger, at, items), tasks := s.tasks + added);
            HoldersAgree(c, s') && PayloadAppliedByHolders(c, s')
  {
  }

  lemma BatchKeepsHolders(c: Config, s: State, at: Time, staleBefore: Time, items: seq<Record>)
    requires PayloadInvariant(c, s) && AreDue(s.ledger, at, staleBefore, items)
    ensures var s' := s.(ledger := TakeBatch(s.ledger, at, items), tasks := s.tasks + NewTasks(s.nextTask, at, items));
            HoldersAgree(c, s') && PayloadAppliedByHolders(c, s')
  {
    BatchAgrees(s, at, staleBefore, items);
    NewHoldersKeepHolders(c, s, at, items, NewTasks(s.nextTask, at, items));
  }

  lemma StepKeepsHoldersAgree(c: Config, s: State, step: Step)
    requires Enabled(c, s, step) && Spares(c, s, step) && PayloadInvariant(c, s)
    ensures HoldersAgree(c, Apply(c, s, step))
  {
    match step
    case LeaseBatch(at, _, items) => BatchKeepsHolders(c, s, at, at - c.leaseTimeout, items);
    case _ =>
  }

  lemma StepKeepsPayloadAppliedByHolders(c: Config, s: State, step: Step)
    requires Enabled(c, s, step) && Plain(c, step) && PayloadInvariant(c, s)
    ensures PayloadAppliedByHolders(c, Apply(c, s, step))
  {
    match step
    case LeaseBatch(at, _, items) => BatchKeepsHolders(c, s, at, at - c.leaseTimeout, items);
    case _ =>
  }

  lemma MarkKeepsPayloadAppliedInLedger(c: Config, s: State, step: Step)
    requires step.MarkOk? || step.MarkLost?
    requires Enabled(c, s, step) && PayloadInvariant(c, s)
    ensures PayloadAppliedInLedger(Apply(c, s, step))
  {
    var task := s.tasks[step.t];
    assert AppliedWith(s, task.r.key, task.r.payload) && Agrees(s, task);
  }

  lemma ReportKeepsPayloadAppliedInLedger(c: Config, s: State, t: int)
    requires Enabled(c, s, RecordOk(t)) && PayloadInvariant(c, s)
    ensures PayloadAppliedInLedger(Apply(c, s, RecordOk(t)))
  {
    var task := s.tasks[t];
    assert task.AsksToSkip(c) ==> AppliedWith(s, task.r.key, task.r.payload) && Agrees(s, task);
  }

  lemma StepKeepsPayloadAppliedInLedger(c: Config, s: State, step: Step)
    requires Enabled(c, s, step) && PayloadInvariant(c, s)
    ensures PayloadAppliedInLedger(Apply(c, s, step))
  {
    match step
    case MarkOk(_) => MarkKeepsPayloadAppliedInLedger(c, s, step);
    case MarkLost(_, _, _) => MarkKeepsPayloadAppliedInLedger(c, s, step);
    case RecordOk(t) => ReportKeepsPayloadAppliedInLedger(c, s, t);
    case _ =>
  }

  lemma StepKeepsPayloads(c: Config, s: State, step: Step)
    requires c.Valid() && Enabled(c, s, step) && Spares(c, s, step) && Plain(c, step) && PayloadInvariant(c, s)
    ensures PayloadInvariant(c, Apply(c, s, step))
  {
    StepKeepsBudget(c, s, step);
    StepKeepsNumbersFresh(c, s, step);
    StepKeepsHoldersAgree(c, s, step);
    StepKeepsPayloadAppliedByHolders(c, s, step);
    StepKeepsPayloadAppliedInLedger(c, s, step);
  }

  lemma {:induction false} SparingRunKeepsPayloads(c: Config, s: State, steps: seq<Step>)
    requires c.Valid() && Legal(c, s, steps) && SparingRun(c, s, steps) && AllPlain(c, steps) && PayloadInvariant(c, s)
    ensures PayloadInvariant(c, Run(c, s, steps))
    decreases |steps|
  {
    if steps != [] {
      var rest := steps[1..];
      assert Plain(c, steps[0]) && forall i :: 0 <= i < |rest| ==> rest[i] == steps[i + 1];
      StepKeepsPayloads(c, s, steps[0]);
      SparingRunKeepsPayloads(c, Apply(c, s, steps[0]), rest);
    }
  }

  /** While retention spares the keys that somebody may still complete, a completed record had its own
      payload persisted. */
  lemma CompletedImpliesOwnPayloadApplied(c: Config, start: Time, steps: seq<Step>, k: EventKey)
    requires c.Valid() && Legal(c, Init(start), steps) && SparingRun(c, Init(start), steps) && AllPlain(c, steps)
    requires k in Run(c, Init(start), steps).ledger
    requires Run(c, Init(start), steps).ledger[k].status == Completed
    ensures AppliedWith(Run(c, Init(start), steps), k, Run(c, Init(start), steps).ledger[k].payload)
  {
    SparingRunKeepsPayloads(c, Init(start), steps);
  }
}
