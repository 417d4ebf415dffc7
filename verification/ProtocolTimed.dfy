/** Lease exclusion. A lease carries no token, only the time of the attempt, so it excludes other holders
    only under a timing assumption: nobody writes to the ledger after the lease timeout. */
module ProtocolTimed {
  import opened Domain
  import opened Ledger
  import opened Protocol
  import opened ProtocolSafety

  /** Holder `t` has the record exactly as the ledger stores it. */
  predicate Owns(s: State, t: int) {
    && t in s.tasks
    && s.tasks[t].r.key in s.ledger
    && s.ledger[s.tasks[t].r.key] == s.tasks[t].r
    && s.tasks[t].r.status == Processing
  }

  /** The holders in `held` own their records, and no two of them hold the same key. */
  ghost predicate Exclusive(s: State, held: set<int>) {
    && (forall t :: t in held ==> Owns(s, t))
    && (forall t, u :: t in held && u in held && t != u ==> s.tasks[t].r.key != s.tasks[u].r.key)
  }

  ghost predicate FreshNumbers(s: State) {
    forall t :: t in s.tasks ==> t < s.nextTask
  }

  /** The step is a ledger write by task `t`. */
  predicate WritesAs(step: Step, t: int) {
    match step
    case MarkOk(u) => t == u
    case MarkLost(u, _, _) => t == u
    case RecordOk(u) => t == u
    case _ => false
  }

  /** The step is a completion mark that takes effect although its caller goes on to report a failure. */
  predicate LosesMark(step: Step, t: int) {
    step.MarkLost? && step.t == t
  }

  /** The step writes to no record of a holder in `held`, except as that holder and for the last time. */
  ghost predicate WritesApart(s: State, step: Step, held: set<int>) {
    forall t, u :: WritesAs(step, t) && t in s.tasks && u in held && u in s.tasks && s.tasks[u].r.key == s.tasks[t].r.key ==>
      t == u && !LosesMark(step, t)
  }

  /** No record of the batch is held by one of `held`. */
  ghost predicate TakesOnlyUnheld(s: State, items: seq<Record>, held: set<int>) {
    forall t, i :: t in held && t in s.tasks && 0 <= i < |items| ==> items[i].key != s.tasks[t].r.key
  }

  /** The holders after a step that were holders before it, and the new ones. */
  function Successors(c: Config, s: State, step: Step, held: set<int>): set<int>
    requires Enabled(c, s, step)
  {
    set t | t in Apply(c, s, step).tasks && (t in held || t >= s.nextTask)
  }

  lemma StepKeepsNumbersFresh(c: Config, s: State, step: Step)
    requires Enabled(c, s, step) && FreshNumbers(s)
    ensures FreshNumbers(Apply(c, s, step))
  {
  }

  lemma BatchOwners(s: State, at: Time, staleBefore: Time, items: seq<Record>, held: set<int>, s': State, t: int)
    requires FreshNumbers(s) && (forall u :: u in held ==> Owns(s, u))
    requires AreDue(s.ledger, at, staleBefore, items) && TakesOnlyUnheld(s, items, held)
    requires s'.ledger == TakeBatch(s.ledger, at, items)
    requires s'.tasks == s.tasks + NewTasks(s.nextTask, at, items)
    requires t in s'.tasks && (t in held || t >= s.nextTask)
    ensures Owns(s', t)
  {
    if t in NewTasks(s.nextTask, at, items) {
      assert items[t - s.nextTask].key in KeysOf(items);
    } else {
      assert Owns(s, t);
    }
  }

  lemma BatchKeysDiffer(s: State, at: Time, items: seq<Record>, held: set<int>, s': State, t: int, u: int)
    requires FreshNumbers(s) && Exclusive(s, held) && DistinctKeys(items) && TakesOnlyUnheld(s, items, held)
    requires s'.tasks == s.tasks + NewTasks(s.nextTask, at, items)
    requires t in s'.tasks && (t in held || t >= s.nextTask)
    requires u in s'.tasks && (u in held || u >= s.nextTask)
    requires t != u
    ensures s'.tasks[t].r.key != s'.tasks[u].r.key
  {
    var added := NewTasks(s.nextTask, at, items);
    assert t in added ==> s'.tasks[t].r.key == items[t - s.nextTask].key;
    assert u in added ==> s'.tasks[u].r.key == items[u - s.nextTask].key;
  }

  lemma BatchKeepsExclusive(s: State, at: Time, staleBefore: Time, items: seq<Record>, held: set<int>, s': State)
    requires FreshNumbers(s) && Exclusive(s, held)
    requires AreDue(s.ledger, at, staleBefore, items) && TakesOnlyUnheld(s, items, held)
    requires s'.ledger == TakeBatch(s.ledger, at, items)
    requires s'.tasks == s.tasks + NewTasks(s.nextTask, at, items)
    ensures Exclusive(s', set t | t in s'.tasks && (t in held || t >= s.nextTask))
  {
    var held' := set t | t in s'.tasks && (t in held || t >= s.nextTask);
    forall t | t in held' ensures Owns(s', t) {
      BatchOwners(s, at, staleBefore, items, held, s', t);
    }
    forall t, u | t in held' && u in held' && t != u ensures s'.tasks[t].r.key != s'.tasks[u].r.key {
      BatchKeysDiffer(s, at, items, held, s', t, u);
    }
  }

  lemma StepKeepsExclusive(c: Config, s: State, step: Step, held: set<int>)
    requires Enabled(c, s, step) && FreshNumbers(s) && Exclusive(s, held)
    requires WritesApart(s, step, held)
    requires step.LeaseBatch? ==> TakesOnlyUnheld(s, step.items, held)
    ensures Exclusive(Apply(c, s, step), Successors(c, s, step, held))
  {
    if step.LeaseBatch? {
      BatchKeepsExclusive(s, step.at, step.at - c.leaseTimeout, step.items, held, Apply(c, s, step));
    } else {
      OtherStepKeepsExclusive(c, s, step, held);
    }
  }

  lemma OtherStepKeepsExclusive(c: Config, s: State, step: Step, held: set<int>)
    requires Enabled(c, s, step) && !step.LeaseBatch? && FreshNumbers(s) && Exclusive(s, held)
    requires WritesApart(s, step, held)
    ensures Exclusive(Apply(c, s, step), Successors(c, s, step, held))
  {
    var s' := Apply(c, s, step);
    forall t | t in Successors(c, s, step, held) ensures Owns(s', t) {
      assert t in held ==> Owns(s, t);
      assert step.MarkOk? || step.MarkLost? || step.RecordOk? ==> WritesAs(step, step.t);
    }
  }

  /** Holders of a key whose lease has not run out yet. */
  function Live(c: Config, s: State, k: EventKey): set<int> {
    set t | t in s.tasks && s.tasks[t].r.key == k && s.now < s.tasks[t].r.lastAttemptAt + c.leaseTimeout
  }

  ghost predicate TimedInvariant(c: Config, s: State, k: EventKey) {
    WellKeyed(s.ledger) && FreshNumbers(s) && Exclusive(s, Live(c, s, k))
  }

  /** The step writes to the event `k` only as one of its live holders, and for the last time. */
  ghost predicate TimelyWrite(c: Config, s: State, step: Step, k: EventKey) {
    forall t :: WritesAs(step, t) && t in s.tasks && s.tasks[t].r.key == k ==>
      t in Live(c, s, k) && !LosesMark(step, t)
  }

  /** A batch never takes a record from a live holder: what it reclaims was attempted a full lease
      timeout before a reading that is not ahead of the clock. */
  lemma BatchesSpareLiveHolders(c: Config, s: State, at: Time, items: seq<Record>, k: EventKey)
    requires Exclusive(s, Live(c, s, k)) && at <= s.now && AreDue(s.ledger, at, at - c.leaseTimeout, items)
    ensures TakesOnlyUnheld(s, items, Live(c, s, k))
  {
    forall t, i | t in Live(c, s, k) && t in s.tasks && 0 <= i < |items| ensures items[i].key != s.tasks[t].r.key {
      assert Owns(s, t) && Leaseable(items[i], at, at - c.leaseTimeout);
    }
  }

  lemma FewerHoldersAreExclusive(s: State, held: set<int>, fewer: set<int>)
    requires Exclusive(s, held) && fewer <= held
    ensures Exclusive(s, fewer)
  {
  }

  lemma TimelyWriteIsApart(c: Config, s: State, step: Step, k: EventKey)
    requires Exclusive(s, Live(c, s, k)) && TimelyWrite(c, s, step, k)
    ensures WritesApart(s, step, Live(c, s, k))
  {
  }

  lemma TimelyStep(c: Config, s: State, step: Step, k: EventKey)
    requires c.Valid() && Enabled(c, s, step) && TimedInvariant(c, s, k) && TimelyWrite(c, s, step, k)
    ensures TimedInvariant(c, Apply(c, s, step), k)
  {
    var s' := Apply(c, s, step);
    if step.LeaseBatch? {
      BatchesSpareLiveHolders(c, s, step.at, step.items, k);
    }
    TimelyWriteIsApart(c, s, step, k);
    StepKeepsExclusive(c, s, step, Live(c, s, k));
    StepKeepsNumbersFresh(c, s, step);
    SuccessorsCoverLive(c, s, step, k);
    FewerHoldersAreExclusive(s', Successors(c, s, step, Live(c, s, k)), Live(c, s', k));
  }

  lemma SuccessorsCoverLive(c: Config, s: State, step: Step, k: EventKey)
    requires Enabled(c, s, step) && FreshNumbers(s)
    ensures Live(c, Apply(c, s, step), k) <= Successors(c, s, step, Live(c, s, k))
  {
  }

  /** Every write of the run to the event `k` is made by a holder of `k` whose lease has not run out, and no
      completion mark of `k` takes effect and yet answers with an error. Writes to other events may come at
      any time and in any way. */
  ghost predicate Timely(c: Config, s: State, steps: seq<Step>, k: EventKey)
    requires Legal(c, s, steps)
    decreases |steps|
  {
    steps == [] ||
    (TimelyWrite(c, s, steps[0], k) && Timely(c, Apply(c, s, steps[0]), steps[1..], k))
  }

  lemma {:induction false} TimelyRun(c: Config, s: State, steps: seq<Step>, k: EventKey)
    requires c.Valid() && Legal(c, s, steps) && Timely(c, s, steps, k) && TimedInvariant(c, s, k)
    ensures TimedInvariant(c, Run(c, s, steps), k)
    decreases |steps|
  {
    if steps != [] {
      TimelyStep(c, s, steps[0], k);
      TimelyRun(c, Apply(c, s, steps[0]), steps[1..], k);
    }
  }

  /** Lease exclusion: when the writes to an event are timely, it has at most one live holder in every state
      of the run, and a live holder has the record exactly as stored, in status Processing. */
  lemma LeasesExclude(c: Config, start: Time, steps: seq<Step>, k: EventKey, t: int, u: int)
    requires c.Valid() && Legal(c, Init(start), steps) && Timely(c, Init(start), steps, k)
    requires t in Live(c, Run(c, Init(start), steps), k) && u in Live(c, Run(c, Init(start), steps), k)
    ensures Owns(Run(c, Init(start), steps), t) && t == u
  {
    TimelyRun(c, Init(start), steps, k);
  }

  /** Completed and DeadLetter are absorbing when the writes to the event are timely: only a retention delete
      ends them. */
  lemma {:induction false} TerminalsAreAbsorbing(c: Config, s: State, steps: seq<Step>, k: EventKey)
    requires c.Valid() && Legal(c, s, steps) && Timely(c, s, steps, k) && TimedInvariant(c, s, k)
    requires k in s.ledger && s.ledger[k].Terminal()
    requires forall i :: 0 <= i < |steps| ==> !Retains(steps[i], k)
    ensures k in Run(c, s, steps).ledger && Run(c, s, steps).ledger[k] == s.ledger[k]
    decreases |steps|
  {
    if steps != [] {
      assert !Retains(steps[0], k);
      TimelyStep(c, s, steps[0], k);
      TimelyStepKeepsTerminal(c, s, steps[0], k);
      TerminalsAreAbsorbing(c, Apply(c, s, steps[0]), steps[1..], k);
    }
  }

  lemma TimelyStepKeepsTerminal(c: Config, s: State, step: Step, k: EventKey)
    requires Enabled(c, s, step) && Exclusive(s, Live(c, s, k)) && TimelyWrite(c, s, step, k)
    requires k in s.ledger && s.ledger[k].Terminal() && !Retains(step, k)
    ensures k in Apply(c, s, step).ledger && Apply(c, s, step).ledger[k] == s.ledger[k]
  {
    match step
    case MarkOk(t) => assert WritesAs(step, t) && (s.tasks[t].r.key == k ==> Owns(s, t));
    case MarkLost(t, _, _) => assert WritesAs(step, t);
    case RecordOk(t) => assert WritesAs(step, t) && (s.tasks[t].r.key == k ==> Owns(s, t));
    case _ =>
  }
}
