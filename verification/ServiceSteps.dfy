/** What one call of the ingest service's store does to the history of the store: the protocol steps of one
    task, a clock reading included. */
module ServiceSteps {
  import opened Domain
  import opened Ledger
  import opened Protocol
  import opened ProtocolErrors
  import opened ProtocolPayload
  import opened ProtocolTimed
  import opened ServiceModel
  import Rows

  /** The tasks from `first` on are about to start on the leased `items`. */
  ghost predicate StartOn(h: History, first: int, items: seq<Record>) {
    forall t :: first <= t < first + |items| ==> t in h.state.tasks && h.state.tasks[t] == Start(items[t - first])
  }

  /** The payload of task `t` has been persisted and no other task has changed. */
  predicate PersistedBy(h: History, h': History, t: int) {
    t in h.state.tasks && h'.state.tasks == h.state.tasks[t := Finishing(h.state.tasks[t].r)]
  }

  /** Task `t` has ended and no other task has changed. */
  predicate Ended(h: History, h': History, t: int) {
    h'.state.tasks == h.state.tasks - {t}
  }

  /** Holders for the leased `items` have joined, and no other task has changed. */
  ghost predicate Joined(h: History, h': History, items: seq<Record>) {
    var first := h.state.nextTask;
    && (forall t :: t in h'.state.tasks <==> t in h.state.tasks || first <= t < first + |items|)
    && (forall t :: t in h.state.tasks ==> t < first && h'.state.tasks[t] == h.state.tasks[t])
    && StartOn(h', first, items)
  }

  lemma NumbersAreFresh(c: Config, errs: Error -> bool, h: History)
    requires h in Histories(c, errs)
    ensures FreshNumbers(h.state)
  {
    HistoriesAreReal(c, errs, h);
  }

  /** The clock is read. */
  lemma ReadClock(c: Config, errs: Error -> bool, h: History, at: Time) returns (h': History)
    requires h in Histories(c, errs)
    ensures h' in Histories(c, errs) && at <= h'.state.now
    ensures h' == h.(state := h.state.(now := h'.state.now))
  {
    var step := Tick(if h.state.now < at then at else h.state.now);
    StepExtends(c, errs, h, step);
    h' := After(c, h, step);
  }

  /** A delivery claims a new event. */
  lemma Claims(c: Config, errs: Error -> bool, h: History, k: EventKey, payload: Payload, at: Time) returns (h': History)
    requires h in Histories(c, errs) && k !in h.state.ledger && at >= 0
    ensures h' in Histories(c, errs) && h'.rows == h.rows
    ensures h'.state.ledger == h.state.ledger[k := NewRecord(k, payload, at)]
    ensures h.state.nextTask !in h.state.tasks
    ensures h'.state.tasks == h.state.tasks[h.state.nextTask := Applying(NewRecord(k, payload, at))]
  {
    NumbersAreFresh(c, errs, h);
    var ticked := ReadClock(c, errs, h, at);
    var step := Deliver(k, payload, at);
    StepExtends(c, errs, ticked, step);
    h' := After(c, ticked, step);
  }

  lemma NewTaskStarts(tasks: map<int, Task>, first: int, at: Time, batch: seq<Record>, t: int)
    requires first <= t < first + |batch|
    ensures var all := tasks + NewTasks(first, at, batch);
            t in all && all[t] == Start(LeasedAll(batch, at)[t - first])
  {
    LeasedOne(batch, at, t - first);
    assert t in NewTasks(first, at, batch);
  }

  lemma NewTasksStartOn(h: History, tasks: map<int, Task>, first: int, at: Time, batch: seq<Record>, items: seq<Record>)
    requires items == LeasedAll(batch, at)
    requires h.state.tasks == tasks + NewTasks(first, at, batch)
    ensures StartOn(h, first, items)
  {
    forall t | first <= t < first + |items|
      ensures t in h.state.tasks && h.state.tasks[t] == Start(items[t - first])
    {
      NewTaskStarts(tasks, first, at, batch, t);
    }
  }

  lemma ReadingEnables(c: Config, s: State, at: Time, limit: nat, batch: seq<Record>)
    requires 0 <= at <= s.now && limit > 0 && IsBatch(s.ledger, at, at - c.leaseTimeout, limit, batch)
    ensures Enabled(c, s, LeaseBatch(at, limit, batch))
  {
  }

  lemma TakesBatch(c: Config, errs: Error -> bool, h: History, step: Step, items: seq<Record>) returns (h': History)
    requires h in Histories(c, errs) && step.LeaseBatch? && Enabled(c, h.state, step)
    requires items == LeasedAll(step.items, step.at)
    ensures h' in Histories(c, errs) && h'.rows == h.rows
    ensures h'.state.ledger == TakeBatch(h.state.ledger, step.at, step.items)
    ensures Joined(h, h', items)
  {
    NumbersAreFresh(c, errs, h);
    StepExtends(c, errs, h, step);
    h' := After(c, h, step);
    NewTasksStartOn(h', h.state.tasks, h.state.nextTask, step.at, step.items, items);
  }

  /** A batch is leased. */
  lemma Leases(c: Config, errs: Error -> bool, h: History, at: Time, limit: nat, batch: seq<Record>,
               items: seq<Record>)
    returns (h': History)
    requires h in Histories(c, errs) && at >= 0 && limit > 0 && IsBatch(h.state.ledger, at, at - c.leaseTimeout, limit, batch)
    requires items == LeasedAll(batch, at)
    ensures h' in Histories(c, errs) && h'.rows == h.rows
    ensures h'.state.ledger == TakeBatch(h.state.ledger, at, batch)
    ensures Joined(h, h', items)
  {
    var ticked := ReadClock(c, errs, h, at);
    ReadingEnables(c, ticked.state, at, limit, batch);
    h' := TakesBatch(c, errs, ticked, LeaseBatch(at, limit, batch), items);
  }

  /** The payload of a task is persisted. */
  lemma Persists(c: Config, errs: Error -> bool, h: History, t: int) returns (h': History)
    requires h in Histories(c, errs) && t in h.state.tasks && h.state.tasks[t].Applying?
    ensures h' in Histories(c, errs) && h'.state.ledger == h.state.ledger
    ensures h'.rows == Rows.Persist(h.rows, h.state.tasks[t].r.payload)
    ensures PersistedBy(h, h', t)
  {
    StepExtends(c, errs, h, PersistOk(t));
    h' := After(c, h, PersistOk(t));
  }

  /** The event of a task is marked completed. */
  lemma Completes(c: Config, errs: Error -> bool, h: History, t: int) returns (h': History)
    requires h in Histories(c, errs) && t in h.state.tasks && h.state.tasks[t].Finishing?
    ensures h' in Histories(c, errs) && h'.rows == h.rows
    ensures h'.state.ledger == Complete(h.state.ledger, h.state.tasks[t].r.key)
    ensures Ended(h, h', t)
  {
    StepExtends(c, errs, h, MarkOk(t));
    h' := After(c, h, MarkOk(t));
  }

  /** What a task does fails: it is about to report the failure. */
  lemma MeetsError(c: Config, errs: Error -> bool, h: History, t: int, err: Error, at: Time) returns (h': History)
    requires h in Histories(c, errs) && t in h.state.tasks && !h.state.tasks[t].Reporting? && at >= 0
    requires if h.state.tasks[t].Finishing? then COMPLETION_PREFIX <= err.text else err.transient ==> errs(err)
    ensures h' in Histories(c, errs) && h'.rows == h.rows && h'.state.ledger == h.state.ledger
    ensures h'.state.tasks == h.state.tasks[t := Reporting(h.state.tasks[t].r, err.text, RetryAt(c, h.state.tasks[t].r, err, at))]
  {
    var ticked := ReadClock(c, errs, h, at);
    var n := |COMPLETION_PREFIX|;
    var step :=
      if h.state.tasks[t].Finishing? then MarkError(t, Error(err.text[n..], err.transient), at) else PersistError(t, err, at);
    assert h.state.tasks[t].Finishing? ==> COMPLETION_PREFIX + err.text[n..] == err.text;
    StepExtends(c, errs, ticked, step);
    h' := After(c, ticked, step);
  }

  /** A failure is recorded, or recording it fails. */
  lemma Reports(c: Config, errs: Error -> bool, h: History, t: int, recorded: bool) returns (h': History)
    requires h in Histories(c, errs) && t in h.state.tasks && h.state.tasks[t].Reporting?
    ensures h' in Histories(c, errs) && h'.rows == h.rows
    ensures Ended(h, h', t)
    ensures h'.state.ledger ==
            var task := h.state.tasks[t];
            if recorded then Fail(h.state.ledger, task.r.key, task.err, task.nextRetryAt, c.maxAttempts) else h.state.ledger
  {
    var step := if recorded then RecordOk(t) else RecordError(t);
    StepExtends(c, errs, h, step);
    h' := After(c, h, step);
  }

  /** A task fails and its failure is recorded, unless recording it fails too. */
  lemma Fails(c: Config, errs: Error -> bool, h: History, t: int, err: Error, at: Time, recorded: bool) returns (h': History)
    requires h in Histories(c, errs) && t in h.state.tasks && !h.state.tasks[t].Reporting? && at >= 0
    requires if h.state.tasks[t].Finishing? then COMPLETION_PREFIX <= err.text else err.transient ==> errs(err)
    ensures h' in Histories(c, errs) && h'.rows == h.rows
    ensures var r := h.state.tasks[t].r;
            h'.state.ledger == if recorded then Fail(h.state.ledger, r.key, err.text, RetryAt(c, r, err, at), c.maxAttempts)
                               else h.state.ledger
    ensures Ended(h, h', t)
  {
    var failed := MeetsError(c, errs, h, t, err, at);
    h' := Reports(c, errs, failed, t, recorded);
  }

  /** Retention deletes terminal events while nobody holds them. */
  lemma Deletes(c: Config, errs: Error -> bool, h: History, keys: set<EventKey>) returns (h': History)
    requires h in Histories(c, errs) && forall k :: k in keys ==> k in h.state.ledger && h.state.ledger[k].Terminal()
    requires forall t :: t in h.state.tasks ==> h.state.tasks[t].r.key !in keys
    ensures h' in Histories(c, errs) && h'.rows == h.rows && h'.state.tasks == h.state.tasks
    ensures h'.state.ledger == Purge(h.state.ledger, keys)
  {
    StepExtends(c, errs, h, Retain(keys));
    h' := After(c, h, Retain(keys));
  }
}
