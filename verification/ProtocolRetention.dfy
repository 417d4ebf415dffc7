/** Exactly which retention deletes can make the protocol complete a redelivery whose own payload was not
    persisted. */
module ProtocolRetention {
  import opened Domain
  import opened Ledger
  import opened Sorting
  import opened Leasing
  import opened Protocol
  import opened ProtocolRuns
  import opened ProtocolSafety
  import opened ProtocolTimed
  import opened ProtocolPayload

  /** Payloads that differ in a number. */
  function Numbered(n: int): Payload {
    SnapshotPayload(SnapshotEvent([], [], n, 0, false, 0.0, 0.0))
  }

  /** Some payload has not been persisted for the key. */
  lemma {:induction false} FreshPayload(applied: set<(EventKey, Payload)>, k: EventKey, from: int) returns (n: int)
    ensures n >= from && (k, Numbered(n)) !in applied
    decreases |applied|
  {
    var p := (k, Numbered(from));
    if p in applied {
      n := FreshPayload(applied - {p}, k, from + 1);
      assert Numbered(n).snapshot.capturedAt != Numbered(from).snapshot.capturedAt;
    } else {
      n := from;
    }
  }

  lemma InsertedKeys(items: seq<Record>, p: nat, r: Record)
    requires p <= |items|
    ensures KeysOf(items[..p] + [r] + items[p..]) == KeysOf(items) + {r.key}
  {
    var more := items[..p] + [r] + items[p..];
    assert more[p] == r;
    forall k | k in KeysOf(items) ensures k in KeysOf(more) {
      var i :| 0 <= i < |items| && items[i].key == k;
      assert more[if i < p then i else i + 1].key == k;
    }
    forall k | k in KeysOf(more) ensures k in KeysOf(items) + {r.key} {
      var i :| 0 <= i < |more| && more[i].key == k;
      assert i != p ==> more[i] == items[if i < p then i else i - 1];
    }
  }

  lemma InsertedAt(items: seq<Record>, p: nat, r: Record)
    requires p <= |items|
    ensures var more := items[..p] + [r] + items[p..];
            && (forall i :: 0 <= i < p ==> more[i] == items[i]) && more[p] == r
            && (forall i :: p < i < |more| ==> more[i] == items[i - 1])
  {
  }

  lemma InsertedStaysDistinct(items: seq<Record>, p: nat, r: Record)
    requires DistinctKeys(items) && p <= |items| && r.key !in KeysOf(items)
    ensures DistinctKeys(items[..p] + [r] + items[p..])
  {
    var more := items[..p] + [r] + items[p..];
    InsertedAt(items, p, r);
    assert forall i :: 0 <= i < |items| ==> items[i].key in KeysOf(items);
    forall i, j | 0 <= i < j < |more| ensures more[i].key != more[j].key {
      assert i != p ==> more[i] == items[if i < p then i else i - 1];
      assert j != p ==> more[j] == items[if j < p then j else j - 1];
    }
  }

  lemma InsertedStaysDue(l: Events, now: Time, staleBefore: Time, items: seq<Record>, p: nat, r: Record)
    requires AreDue(l, now, staleBefore, items) && p <= |items|
    requires r.key !in KeysOf(items) && r.key in l && l[r.key] == r && Leaseable(r, now, staleBefore)
    ensures AreDue(l, now, staleBefore, items[..p] + [r] + items[p..])
  {
    InsertedAt(items, p, r);
    InsertedStaysDistinct(items, p, r);
  }

  lemma LeaseOrderIsTotal()
    ensures TotalPreorder(ByLeaseTime())
  {
  }

  /** Where a record belongs among ordered ones. */
  lemma Place(items: seq<Record>, r: Record) returns (p: nat)
    ensures p <= |items| && (forall i :: 0 <= i < p ==> ByLeaseTime()(items[i], r))
    ensures p < |items| ==> !ByLeaseTime()(items[p], r)
  {
    p := 0;
    while p < |items| && ByLeaseTime()(items[p], r)
      invariant p <= |items| && forall i :: 0 <= i < p ==> ByLeaseTime()(items[i], r)
    {
      p := p + 1;
    }
  }

  lemma {:induction false} OrderedDue(l: Events, now: Time, staleBefore: Time, keys: set<EventKey>) returns (items: seq<Record>)
    requires WellKeyed(l) && forall k :: k in keys ==> k in l && Leaseable(l[k], now, staleBefore)
    ensures AreDue(l, now, staleBefore, items) && KeysOf(items) == keys && Ordered(ByLeaseTime(), items)
    decreases |keys|
  {
    if keys == {} {
      items := [];
    } else {
      var k :| k in keys;
      var rest := OrderedDue(l, now, staleBefore, keys - {k});
      var p := Place(rest, l[k]);
      LeaseOrderIsTotal();
      InsertKeepsOrder(ByLeaseTime(), rest, p, l[k]);
      InsertedStaysDue(l, now, staleBefore, rest, p, l[k]);
      InsertedKeys(rest, p, l[k]);
      items := rest[..p] + [l[k]] + rest[p..];
    }
  }

  /** Everything that is due makes a batch. */
  lemma AllDueAreBatch(l: Events, now: Time, staleBefore: Time) returns (items: seq<Record>)
    requires WellKeyed(l)
    ensures IsBatch(l, now, staleBefore, |items|, items)
    ensures forall k :: k in l && Leaseable(l[k], now, staleBefore) ==> k in KeysOf(items)
  {
    items := OrderedDue(l, now, staleBefore, set k | k in l && Leaseable(l[k], now, staleBefore));
    assert forall i, j :: 0 <= i < j < |items| ==> ByLeaseTime()(items[i], items[j]);
  }

  /** The steps neither delete nor meet a persist error. */
  ghost predicate Mild(steps: seq<Step>) {
    forall i :: 0 <= i < |steps| ==> !steps[i].Retain? && !steps[i].PersistError?
  }

  lemma {:induction false} MildRunsSpare(c: Config, s: State, steps: seq<Step>)
    requires Legal(c, s, steps) && Mild(steps)
    ensures SparingRun(c, s, steps)
    decreases |steps|
  {
    if steps != [] {
      var rest := steps[1..];
      assert !steps[0].Retain? && forall i :: 0 <= i < |rest| ==> rest[i] == steps[i + 1];
      MildRunsSpare(c, Apply(c, s, steps[0]), rest);
    }
  }

  /** The event is completed, but its own payload was never persisted. */
  predicate Unpersisted(s: State, k: EventKey) {
    k in s.ledger && s.ledger[k].status == Completed && !AppliedWith(s, k, s.ledger[k].payload)
  }

  /** A continuation that spares what it must, and meets no misleading error, but ends with `k` completed
      without its own payload. */
  ghost predicate HidesPayload(c: Config, s: State, steps: seq<Step>, k: EventKey) {
    Legal(c, s, steps) && AllPlain(c, steps) && SparingRun(c, s, steps) && Unpersisted(Run(c, s, steps), k)
  }

  lemma MildRunHides(c: Config, s: State, steps: seq<Step>, k: EventKey)
    requires Legal(c, s, steps) && Mild(steps) && Unpersisted(Run(c, s, steps), k)
    ensures HidesPayload(c, s, steps, k)
  {
    MildRunsSpare(c, s, steps);
  }

  /** The key is redelivered with a payload that was not persisted for it. */
  lemma Redelivered(c: Config, s: State, k: EventKey, payload: Payload) returns (steps: seq<Step>, q: Payload)
    requires k !in s.ledger
    ensures Legal(c, s, steps) && Mild(steps) && q != payload && !AppliedWith(s, k, q)
    ensures var s' := Run(c, s, steps);
            && s'.now >= 0 && s'.appliedPayloads == s.appliedPayloads
            && s'.ledger == s.ledger[k := NewRecord(k, q, s'.now)]
            && s'.tasks == s.tasks[s.nextTask := Applying(NewRecord(k, q, s'.now))]
  {
    var n := FreshPayload(s.appliedPayloads + {(k, payload)}, k, 0);
    q := Numbered(n);
    var at := if s.now < 0 then 0 else s.now;
    steps := Extend(c, s, [], Tick(at));
    steps := Extend(c, s, steps, Deliver(k, q, at));
  }

  /** A holder that outlived the delete completes the redelivery. */
  lemma WorkingHolderHides(c: Config, s: State, k: EventKey, t: int) returns (steps: seq<Step>)
    requires FreshNumbers(s) && k !in s.ledger && t in s.tasks && s.tasks[t].r.key == k && !s.tasks[t].Reporting?
    ensures HidesPayload(c, s, steps, k)
  {
    var q;
    steps, q := Redelivered(c, s, k, s.tasks[t].r.payload);
    if s.tasks[t].Applying? {
      steps := Extend(c, s, steps, PersistOk(t));
    }
    steps := Extend(c, s, steps, MarkOk(t));
    MildRunHides(c, s, steps, k);
  }

  predicate SkipIsDue(s: State, k: EventKey) {
    && k in s.ledger && s.ledger[k].status == RetryScheduled && Skips(s.ledger[k])
    && s.ledger[k].nextRetryAt <= s.now && s.now >= 0
  }

  /** The batch step that leases all that is due. */
  lemma BatchOfAllDue(c: Config, s: State, k: EventKey) returns (step: Step, i: nat)
    requires WellKeyed(s.ledger) && SkipIsDue(s, k)
    ensures Enabled(c, s, step) && step.LeaseBatch? && step.at == s.now
    ensures i < |step.items| && step.items[i] == s.ledger[k]
  {
    var items := AllDueAreBatch(s.ledger, s.now, s.now - c.leaseTimeout);
    i :| 0 <= i < |items| && items[i].key == k;
    step := LeaseBatch(s.now, |items|, items);
  }

  /** The new task for a record that skips its payload is about to complete the event. */
  lemma SkipStartsFinishing(first: int, at: Time, items: seq<Record>, i: nat)
    requires i < |items| && items[i].IsCompletionRetry()
    ensures var added := NewTasks(first, at, items);
            first + i in added && added[first + i] == Finishing(Leased(items[i], at))
  {
    assert first + i in NewTasks(first, at, items);
    assert Leased(items[i], at).lastError == items[i].lastError;
  }

  lemma BatchApplied(c: Config, s: State, step: Step) returns (s': State)
    requires Enabled(c, s, step) && step.LeaseBatch?
    ensures Legal(c, s, [step]) && Mild([step]) && s' == Run(c, s, [step])
    ensures s'.ledger == TakeBatch(s.ledger, step.at, step.items) && s'.appliedPayloads == s.appliedPayloads
    ensures s'.tasks == s.tasks + NewTasks(s.nextTask, step.at, step.items)
  {
    OneStep(c, s, step);
    s' := Apply(c, s, step);
  }

  predicate AboutToFinish(s: State, k: EventKey, u: int) {
    u in s.tasks && s.tasks[u].Finishing? && s.tasks[u].r.key == k
  }

  lemma LeasedSkipFinishes(s: State, at: Time, items: seq<Record>, k: EventKey, i: nat, s': State)
    requires k in s.ledger && i < |items| && items[i].key == k && items[i].IsCompletionRetry()
    requires s'.ledger == TakeBatch(s.ledger, at, items) && s'.tasks == s.tasks + NewTasks(s.nextTask, at, items)
    ensures AboutToFinish(s', k, s.nextTask + i)
    ensures k in s'.ledger && s'.ledger[k].payload == s.ledger[k].payload
  {
    SkipStartsFinishing(s.nextTask, at, items, i);
  }

  lemma MarkedUnpersisted(c: Config, s: State, steps: seq<Step>, k: EventKey, u: int) returns (longer: seq<Step>)
    requires Legal(c, s, steps) && Mild(steps)
    requires var s' := Run(c, s, steps);
             && AboutToFinish(s', k, u) && k in s'.ledger && !AppliedWith(s', k, s'.ledger[k].payload)
    ensures Legal(c, s, longer) && Mild(longer) && Unpersisted(Run(c, s, longer), k)
  {
    longer := Extend(c, s, steps, MarkOk(u));
  }

  /** A scheduled retry that skips the payload is completed without it. */
  lemma SkipCompletes(c: Config, s: State, k: EventKey) returns (steps: seq<Step>)
    requires WellKeyed(s.ledger) && SkipIsDue(s, k) && !AppliedWith(s, k, s.ledger[k].payload)
    ensures Legal(c, s, steps) && Mild(steps) && Unpersisted(Run(c, s, steps), k)
  {
    var batch, i := BatchOfAllDue(c, s, k);
    var s' := BatchApplied(c, s, batch);
    LeasedSkipFinishes(s, batch.at, batch.items, k, i, s');
    steps := MarkedUnpersisted(c, s, [batch], k, s.nextTask + i);
  }

  /** A failed completion that outlived the delete makes the redelivery skip its payload. */
  lemma LateReportHides(c: Config, s: State, k: EventKey, t: int) returns (steps: seq<Step>)
    requires WellKeyed(s.ledger) && FreshNumbers(s) && k !in s.ledger
    requires t in s.tasks && s.tasks[t].r.key == k && s.tasks[t].AsksToSkip(c)
    ensures HidesPayload(c, s, steps, k)
  {
    var q;
    steps, q := Redelivered(c, s, k, s.tasks[t].r.payload);
    steps := Extend(c, s, steps, RecordOk(t));
    var now, due := Run(c, s, steps).now, s.tasks[t].nextRetryAt;
    steps := Extend(c, s, steps, Tick(if due < now then now else due));
    var more := SkipCompletes(c, Run(c, s, steps), k);
    RunAppends(c, s, steps, more);
    MildRunHides(c, s, steps + more, k);
    steps := steps + more;
  }

  /** Deleting `keys` is safe, whatever happens afterwards, exactly when nobody holds one of them who may
      still complete it: at work on it, or about to ask that its next attempt skips the payload. */
  lemma RetentionIsSafeIff(c: Config, s: State, keys: set<EventKey>)
    requires c.Valid() && PayloadInvariant(c, s) && Enabled(c, s, Retain(keys))
    ensures (forall steps, k :: !HidesPayload(c, Apply(c, s, Retain(keys)), steps, k)) <==> Spares(c, s, Retain(keys))
  {
    var s' := Apply(c, s, Retain(keys));
    if Spares(c, s, Retain(keys)) {
      StepKeepsPayloads(c, s, Retain(keys));
      forall steps, k ensures !HidesPayload(c, s', steps, k) {
        if HidesPayload(c, s', steps, k) {
          SparingRunKeepsPayloads(c, s', steps);
        }
      }
    } else {
      StepKeepsBudget(c, s, Retain(keys));
      var t :| t in s.tasks && s.tasks[t].r.key in keys && !Harmless(c, s.tasks[t]);
      if s.tasks[t].Reporting? {
        var steps := LateReportHides(c, s', s.tasks[t].r.key, t);
      } else {
        var steps := WorkingHolderHides(c, s', s.tasks[t].r.key, t);
      }
    }
  }
}
