/** No starvation: a due event that nobody holds is leased within a bounded number of batches. */
module ProtocolFairness {
  import opened Domain
  import opened Ledger
  import opened Protocol
  import opened Arithmetic
  import Backoff

  /** The events that the batch order may put before an event with sort time `sortTime`. */
  function Ahead(l: Events, sortTime: Time): set<EventKey> {
    set k | k in l && !l[k].Terminal() && LeaseSortTime(l[k]) <= sortTime
  }

  /** Every clock reading of the step is at `from` or later. */
  predicate ReadsFrom(step: Step, from: Time) {
    match step
    case Deliver(_, _, at) => at >= from
    case LeaseBatch(at, _, _) => at >= from
    case PersistError(_, _, at) => at >= from
    case PersistLost(_, _, at) => at >= from
    case MarkError(_, _, at) => at >= from
    case MarkLost(_, _, at) => at >= from
    case _ => true
  }

  predicate Takes(step: Step, k: EventKey) {
    step.LeaseBatch? && k in KeysOf(step.items)
  }

  /** Every failure is final: only one attempt is allowed, and each event has had it. */
  ghost predicate EveryFailureIsFinal(c: Config, s: State) {
    c.maxAttempts == 1 && forall k :: k in s.ledger ==> s.ledger[k].attemptCount >= 1
  }

  /** Holders whose failure, once recorded, puts its event before `sortTime`. */
  ghost function Overtaking(c: Config, s: State, sortTime: Time): set<int> {
    if EveryFailureIsFinal(c, s) then {}
    else set t | t in s.tasks && s.tasks[t].Reporting?
                 && s.tasks[t].nextRetryAt != ZERO_TIME && s.tasks[t].nextRetryAt <= sortTime
  }

  /** How many events are, or are about to be, before an event with sort time `sortTime`. */
  ghost function Rank(c: Config, s: State, sortTime: Time): nat {
    |Ahead(s.ledger, sortTime)| + |Overtaking(c, s, sortTime)|
  }

  /** All delays are positive. */
  predicate PositiveDelays(c: Config) {
    c.Valid() && Backoff.Crossing(c.baseDelay, c.maxDelay) < Backoff.TWO_63
  }

  /** No failure can be queued for a time before it is recorded. */
  ghost predicate QueuesForward(c: Config, s: State) {
    PositiveDelays(c) || EveryFailureIsFinal(c, s)
  }

  ghost predicate Unheld(s: State, k: EventKey) {
    forall t :: t in s.tasks ==> s.tasks[t].r.key != k
  }

  /** Event `k` has been due since `from`, and nothing else will write to it. */
  ghost predicate Waits(c: Config, s: State, k: EventKey, from: Time) {
    && k in s.ledger
    && Leaseable(s.ledger[k], from, from - c.leaseTimeout)
    && LeaseSortTime(s.ledger[k]) < from
    && Unheld(s, k)
  }

  lemma RetriesAreLater(c: Config, r: Record, error: Error, at: Time)
    requires PositiveDelays(c)
    ensures RetryAt(c, r, error, at) == ZERO_TIME || RetryAt(c, r, error, at) > at
  {
    Backoff.PositiveWithoutOverflow(c.baseDelay, c.maxDelay, Backoff.Wanted(r.attemptCount));
  }

  lemma StepKeepsForward(c: Config, s: State, step: Step)
    requires Enabled(c, s, step) && QueuesForward(c, s)
    ensures QueuesForward(c, Apply(c, s, step))
    ensures EveryFailureIsFinal(c, s) ==> EveryFailureIsFinal(c, Apply(c, s, step))
  {
  }

  lemma StepKeepsRecord(c: Config, s: State, step: Step, k: EventKey)
    requires Enabled(c, s, step) && k in s.ledger && !s.ledger[k].Terminal() && Unheld(s, k) && !Takes(step, k)
    ensures k in Apply(c, s, step).ledger && Apply(c, s, step).ledger[k] == s.ledger[k]
  {
    match step
    case MarkOk(t) => assert s.tasks[t].r.key != k;
    case MarkLost(t, _, _) => assert s.tasks[t].r.key != k;
    case RecordOk(t) => assert s.tasks[t].r.key != k;
    case _ =>
  }

  lemma StepKeepsUnheld(c: Config, s: State, step: Step, k: EventKey)
    requires Enabled(c, s, step) && k in s.ledger && Unheld(s, k) && !Takes(step, k)
    ensures Unheld(Apply(c, s, step), k)
  {
    if step.LeaseBatch? {
      NewTasksAreOfTheBatch(s.nextTask, step.at, step.items, k);
    }
  }

  lemma NewTasksAreOfTheBatch(first: int, at: Time, items: seq<Record>, k: EventKey)
    requires k !in KeysOf(items)
    ensures var added := NewTasks(first, at, items); forall t :: t in added ==> added[t].r.key != k
  {
    var added := NewTasks(first, at, items);
    assert forall t :: t in added ==> items[t - first].key in KeysOf(items);
  }

  lemma NoneJoinsOvertaking(c: Config, s: State, step: Step, sortTime: Time)
    requires QueuesForward(c, s) && Enabled(c, s, step) && ReadsFrom(step, sortTime)
    ensures Overtaking(c, Apply(c, s, step), sortTime) <= Overtaking(c, s, sortTime)
  {
    if EveryFailureIsFinal(c, s) {
      StepKeepsForward(c, s, step);
      return;
    }
    match step
    case PersistError(t, error, at) => RetriesAreLater(c, s.tasks[t].r, error, at);
    case PersistLost(t, error, at) => RetriesAreLater(c, s.tasks[t].r, error, at);
    case MarkError(t, error, at) => RetriesAreLater(c, s.tasks[t].r, error, at);
    case MarkLost(t, error, at) => RetriesAreLater(c, s.tasks[t].r, error, at);
    case _ =>
  }

  lemma StepKeepsWaiting(c: Config, s: State, step: Step, k: EventKey, from: Time)
    requires Enabled(c, s, step) && Waits(c, s, k, from)
    requires ReadsFrom(step, from) && !Takes(step, k)
    ensures Waits(c, Apply(c, s, step), k, from)
    ensures Apply(c, s, step).ledger[k] == s.ledger[k]
  {
    StepKeepsRecord(c, s, step, k);
    StepKeepsUnheld(c, s, step, k);
  }

  /** A recorded failure puts its event before `sortTime` only if its holder was counted before. */
  lemma ReportOvertakes(c: Config, s: State, t: int, sortTime: Time)
    requires QueuesForward(c, s) && Enabled(c, s, RecordOk(t))
    ensures var s' := Apply(c, s, RecordOk(t));
            && Overtaking(c, s', sortTime) <= Overtaking(c, s, sortTime) - {t}
            && Ahead(s'.ledger, sortTime)
               <= Ahead(s.ledger, sortTime) + if t in Overtaking(c, s, sortTime) then {s.tasks[t].r.key} else {}
  {
  }

  lemma OthersDoNotOvertake(c: Config, s: State, step: Step, sortTime: Time)
    requires Enabled(c, s, step) && !step.RecordOk? && !step.LeaseBatch?
    requires step.Deliver? ==> step.at > sortTime
    ensures Ahead(Apply(c, s, step).ledger, sortTime) <= Ahead(s.ledger, sortTime)
  {
  }

  /** No step adds to the events that are, or are about to be, before the waiting one. */
  lemma NobodyOvertakes(c: Config, s: State, step: Step, k: EventKey, from: Time)
    requires QueuesForward(c, s) && Enabled(c, s, step) && Waits(c, s, k, from)
    requires ReadsFrom(step, from) && !step.LeaseBatch?
    ensures Rank(c, Apply(c, s, step), LeaseSortTime(s.ledger[k])) <= Rank(c, s, LeaseSortTime(s.ledger[k]))
  {
    var s', sortTime := Apply(c, s, step), LeaseSortTime(s.ledger[k]);
    if step.RecordOk? {
      ReportOvertakes(c, s, step.t, sortTime);
      RecordedRank(c, s, s', step.t, sortTime);
    } else {
      OthersDoNotOvertake(c, s, step, sortTime);
      NoneJoinsOvertaking(c, s, step, sortTime);
      SubsetSize(Ahead(s'.ledger, sortTime), Ahead(s.ledger, sortTime));
      SubsetSize(Overtaking(c, s', sortTime), Overtaking(c, s, sortTime));
    }
  }

  lemma RecordedRank(c: Config, s: State, s': State, t: int, sortTime: Time)
    requires t in s.tasks && Overtaking(c, s', sortTime) <= Overtaking(c, s, sortTime) - {t}
    requires Ahead(s'.ledger, sortTime)
             <= Ahead(s.ledger, sortTime) + if t in Overtaking(c, s, sortTime) then {s.tasks[t].r.key} else {}
    ensures Rank(c, s', sortTime) <= Rank(c, s, sortTime)
  {
    SubsetSize(Overtaking(c, s', sortTime), Overtaking(c, s, sortTime) - {t});
    if t in Overtaking(c, s, sortTime) {
      SubsetSize(Ahead(s'.ledger, sortTime), Ahead(s.ledger, sortTime) + {s.tasks[t].r.key});
    } else {
      SubsetSize(Ahead(s'.ledger, sortTime), Ahead(s.ledger, sortTime));
    }
  }

  lemma {:induction false} SizeOfKeys(items: seq<Record>)
    requires DistinctKeys(items)
    ensures |KeysOf(items)| == |items|
  {
    if items != [] {
      var init, last := items[..|items| - 1], items[|items| - 1];
      SizeOfKeys(init);
      assert KeysOf(items) == KeysOf(init) + {last.key};
    }
  }

  /** A batch that skips the waiting event moves exactly `limit` events from before it to behind it. */
  lemma SkippingBatchesAdvance(c: Config, s: State, at: Time, limit: nat, items: seq<Record>, k: EventKey, from: Time)
    requires Waits(c, s, k, from) && at >= from && k !in KeysOf(items)
    requires IsBatch(s.ledger, at, at - c.leaseTimeout, limit, items)
    ensures var sortTime := LeaseSortTime(s.ledger[k]);
            |Ahead(TakeBatch(s.ledger, at, items), sortTime)| == |Ahead(s.ledger, sortTime)| - limit
  {
    var sortTime := LeaseSortTime(s.ledger[k]);
    assert |items| == limit && NoneIsEarlier(items, s.ledger[k]);
    SizeOfKeys(items);
    assert KeysOf(items) <= Ahead(s.ledger, sortTime);
    assert Ahead(TakeBatch(s.ledger, at, items), sortTime) == Ahead(s.ledger, sortTime) - KeysOf(items);
  }

  /** The batch limits of a run, added up. */
  function Capacity(steps: seq<Step>): nat {
    if steps == [] then 0
    else (if steps[0].LeaseBatch? then steps[0].limit else 0) + Capacity(steps[1..])
  }

  ghost predicate AllReadFrom(steps: seq<Step>, from: Time) {
    forall i :: 0 <= i < |steps| ==> ReadsFrom(steps[i], from)
  }

  ghost predicate SomeTakes(steps: seq<Step>, k: EventKey) {
    exists i :: 0 <= i < |steps| && Takes(steps[i], k)
  }

  /** The batches that pass over a waiting event have room for fewer events than ranked with it. */
  lemma {:induction false} SkippedCapacity(c: Config, s: State, steps: seq<Step>, k: EventKey, from: Time)
    requires QueuesForward(c, s) && Legal(c, s, steps) && Waits(c, s, k, from) && AllReadFrom(steps, from)
    requires !SomeTakes(steps, k)
    ensures Capacity(steps) < Rank(c, s, LeaseSortTime(s.ledger[k]))
    decreases |steps|
  {
    assert k in Ahead(s.ledger, LeaseSortTime(s.ledger[k]));
    if steps != [] {
      var step, rest := steps[0], steps[1..];
      assert forall i :: 0 <= i < |rest| ==> rest[i] == steps[i + 1];
      StepKeepsWaiting(c, s, step, k, from);
      StepKeepsForward(c, s, step);
      SkippedCapacity(c, Apply(c, s, step), rest, k, from);
      StepCapacity(c, s, step, k, from);
    }
  }

  lemma StepCapacity(c: Config, s: State, step: Step, k: EventKey, from: Time)
    requires QueuesForward(c, s) && Enabled(c, s, step) && Waits(c, s, k, from)
    requires ReadsFrom(step, from) && !Takes(step, k)
    ensures var sortTime := LeaseSortTime(s.ledger[k]);
            Rank(c, Apply(c, s, step), sortTime) + (if step.LeaseBatch? then step.limit else 0) <= Rank(c, s, sortTime)
  {
    if step.LeaseBatch? {
      var sortTime := LeaseSortTime(s.ledger[k]);
      SkippingBatchesAdvance(c, s, step.at, step.limit, step.items, k, from);
      NoneJoinsOvertaking(c, s, step, sortTime);
      SubsetSize(Overtaking(c, Apply(c, s, step), sortTime), Overtaking(c, s, sortTime));
    } else {
      NobodyOvertakes(c, s, step, k, from);
    }
  }

  lemma SubsetSize<T>(a: set<T>, b: set<T>)
    requires a <= b
    ensures |a| <= |b|
  {
    assert b == a + (b - a);
  }

  function Batches(steps: seq<Step>): nat {
    if steps == [] then 0 else (if steps[0].LeaseBatch? then 1 else 0) + Batches(steps[1..])
  }

  lemma {:induction false} CapacityOfEqualBatches(steps: seq<Step>, limit: nat)
    requires forall i :: 0 <= i < |steps| && steps[i].LeaseBatch? ==> steps[i].limit == limit
    ensures Capacity(steps) == Batches(steps) * limit
  {
    if steps != [] {
      CapacityOfEqualBatches(steps[1..], limit);
      assert (1 + Batches(steps[1..])) * limit == limit + Batches(steps[1..]) * limit;
    }
  }

  /** No starvation: with batches of `limit`, a waiting event of rank `m` (the events not behind it, itself
      included, and the failures on their way that would overtake it) is leased within ceil(m / limit)
      batches, whatever else happens meanwhile. */
  lemma NoStarvation(c: Config, s: State, steps: seq<Step>, k: EventKey, from: Time, limit: nat)
    requires QueuesForward(c, s) && Legal(c, s, steps) && Waits(c, s, k, from) && AllReadFrom(steps, from)
    requires limit > 0 && forall i :: 0 <= i < |steps| && steps[i].LeaseBatch? ==> steps[i].limit == limit
    requires var m := Rank(c, s, LeaseSortTime(s.ledger[k])); Batches(steps) >= (m + limit - 1) / limit
    ensures SomeTakes(steps, k)
  {
    var m := Rank(c, s, LeaseSortTime(s.ledger[k]));
    CapacityOfEqualBatches(steps, limit);
    CeilingCovers(m, limit, Batches(steps));
    if !SomeTakes(steps, k) {
      SkippedCapacity(c, s, steps, k, from);
    }
  }
}
