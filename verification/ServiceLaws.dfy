/** What the calls of the ingest service come to, in terms of what its store answered. */
module ServiceLaws {
  import opened BatchAccounting
  import opened Domain
  import opened Leasing
  import opened Ledger
  import opened Protocol
  import opened ServiceCalls
  import opened Store
  import Backoff
  import Rows

  /** A pass adds its calls to the log. */
  lemma PassExtendsLog(log: seq<StoreCall>, r: Record, persists: bool, calls: Calls, n: nat)
    requires n <= |log|
    ensures log <= LogAfter(log, r, persists, calls)
    ensures AllSucceed(LogAfter(log, r, persists, calls), n) ==> AllSucceed(log, n)
  {
    var after := LogAfter(log, r, persists, calls);
    assert forall i :: 0 <= i < |log| ==> after[i] == log[i];
  }

  /** A pass none of whose calls failed reports no failure, if it could decode the payload. */
  lemma CleanPass(log: seq<StoreCall>, r: Record, persists: bool, calls: Calls, n: nat)
    requires n <= |log| && (persists || r.IsCompletionRetry() || calls.persist.None?)
    requires AllSucceed(LogAfter(log, r, persists, calls), n)
    ensures FailureOf(r, calls).None?
  {
    var after := LogAfter(log, r, persists, calls);
    if persists {
      assert after[|log|] == PersistCall(r.payload, calls.persist);
    }
    var tried := if persists then log + [PersistCall(r.payload, calls.persist)] else log;
    if r.IsCompletionRetry() || calls.persist.None? {
      assert after[|tried|] == MarkCall(r.key, calls.mark);
    }
  }

  /** A first delivery none of whose calls failed is accepted: the event is completed, and its payload stored. */
  lemma CleanDelivery(c: Config, l: Events, rows: Rows.StoreRows, log: seq<StoreCall>, r: Record, calls: Calls)
    requires r.key in l && !r.IsCompletionRetry() && AllSucceed(LogAfter(log, r, true, calls), |log|)
    ensures AnswerOf(c, l, r, calls) == Answer(Accepted, None)
    ensures r.key in LedgerAfter(c, l, r, calls) && LedgerAfter(c, l, r, calls)[r.key].status == Completed
    ensures RowsAfter(rows, r, calls) == Rows.Persist(rows, r.payload)
  {
    CleanPass(log, r, true, calls, |log|);
  }

  /** Who answers in a part of the log answers in all of it. */
  lemma AnswersStay(log: seq<StoreCall>, longer: seq<StoreCall>, n: nat, m: nat, err: Option<Error>)
    requires log <= longer && n <= m && SomeAnswers(log, m, err)
    ensures SomeAnswers(longer, n, err)
  {
    var i :| m <= i < |log| && log[i].err == err;
    assert longer[i].err == err;
  }

  /** The error of a retry is what one of its calls answered, if it could decode the payload. */
  lemma PassErrorIsAnswered(c: Config, l: Events, log: seq<StoreCall>, r: Record, calls: Calls)
    requires Decodes(r.key.eventType, r.payload) && ResultOf(c, l, r, calls).ItemError?
    ensures SomeAnswers(LogAfter(log, r, PersistIsDue(r), calls), |log|, Some(ResultOf(c, l, r, calls).err))
  {
    var after := LogAfter(log, r, PersistIsDue(r), calls);
    assert after[|after| - 1].err == calls.record;
    assert PersistIsDue(r) ==> after[|log|].err == calls.persist;
    assert !PersistIsDue(r) ==> after[|log|].err == calls.mark;
    assert PersistIsDue(r) && calls.persist.None? ==> after[|log| + 1].err == calls.mark;
  }

  /** The error of a retry batch is what one of its calls answered. */
  lemma {:induction false} BatchErrorIsAnswered(c: Config, l: Events, log: seq<StoreCall>, items: seq<Record>, passes: seq<Calls>)
    requires |passes| <= |items| && AllDecode(items) && FirstError(ResultsOf(c, l, items, passes)).Some?
    ensures SomeAnswers(LogAfterAll(log, items, passes), |log|, FirstError(ResultsOf(c, l, items, passes)))
    decreases |passes|
  {
    var n := |passes| - 1;
    var earlier, before := ResultsOf(c, l, items, passes[..n]), LogAfterAll(log, items, passes[..n]);
    var last := ResultOf(c, LedgerAfterAll(c, l, items, passes[..n]), items[n], passes[n]);
    OneMoreResult(0, earlier, last);
    PassesExtendLog(log, items, passes[..n]);
    PassExtendsLog(before, items[n], PersistIsDue(items[n]), passes[n], 0);
    if FirstError(earlier).Some? {
      BatchErrorIsAnswered(c, l, log, items, passes[..n]);
      AnswersStay(before, LogAfterAll(log, items, passes), |log|, |log|, FirstError(earlier));
    } else {
      PassErrorIsAnswered(c, LedgerAfterAll(c, l, items, passes[..n]), before, items[n], passes[n]);
      AnswersStay(LogAfterAll(log, items, passes), LogAfterAll(log, items, passes), |log|, |before|, Some(last.err));
    }
  }

  /** The payload of every record can be decoded. */
  ghost predicate AllDecode(items: seq<Record>) {
    forall i :: 0 <= i < |items| ==> Decodes(items[i].key.eventType, items[i].payload)
  }

  lemma {:induction false} PassesExtendLog(log: seq<StoreCall>, items: seq<Record>, passes: seq<Calls>)
    requires |passes| <= |items|
    ensures log <= LogAfterAll(log, items, passes)
    decreases |passes|
  {
    if passes != [] {
      var n := |passes| - 1;
      PassesExtendLog(log, items, passes[..n]);
      PassExtendsLog(LogAfterAll(log, items, passes[..n]), items[n], PersistIsDue(items[n]), passes[n], 0);
    }
  }

  ghost predicate NoneFails(items: seq<Record>, passes: seq<Calls>)
    requires |passes| <= |items|
  {
    forall i :: 0 <= i < |passes| ==> FailureOf(items[i], passes[i]).None?
  }

  lemma {:induction false} CleanPasses(log: seq<StoreCall>, items: seq<Record>, passes: seq<Calls>)
    requires |passes| <= |items| && AllDecode(items) && AllSucceed(LogAfterAll(log, items, passes), |log|)
    ensures NoneFails(items, passes)
    decreases |passes|
  {
    if passes != [] {
      var n := |passes| - 1;
      var before := LogAfterAll(log, items, passes[..n]);
      PassesExtendLog(log, items, passes[..n]);
      PassExtendsLog(before, items[n], PersistIsDue(items[n]), passes[n], |log|);
      CleanPass(before, items[n], PersistIsDue(items[n]), passes[n], |log|);
      CleanPasses(log, items, passes[..n]);
    }
  }

  /** Every item that has been gone through is completed. */
  ghost predicate AllCompleted(l: Events, items: seq<Record>, n: nat)
    requires n <= |items|
  {
    forall i :: 0 <= i < n ==> items[i].key in l && l[items[i].key].status == Completed
  }

  ghost predicate AllStored(l: Events, items: seq<Record>) {
    forall i :: 0 <= i < |items| ==> items[i].key in l
  }

  lemma {:induction false} PassesKeepEvents(c: Config, l: Events, items: seq<Record>, passes: seq<Calls>)
    requires |passes| <= |items|
    ensures LedgerAfterAll(c, l, items, passes).Keys == l.Keys
    decreases |passes|
  {
    if passes != [] {
      var n := |passes| - 1;
      PassesKeepEvents(c, l, items, passes[..n]);
      PassKeepsEvents(c, LedgerAfterAll(c, l, items, passes[..n]), items[n], passes[n]);
    }
  }

  lemma {:induction false} NoFailureCompletes(c: Config, l: Events, items: seq<Record>, passes: seq<Calls>)
    requires |passes| <= |items| && NoneFails(items, passes) && AllStored(l, items)
    ensures AllCompleted(LedgerAfterAll(c, l, items, passes), items, |passes|)
    decreases |passes|
  {
    if passes != [] {
      var n := |passes| - 1;
      assert forall i :: 0 <= i < n ==> passes[..n][i] == passes[i];
      NoFailureCompletes(c, l, items, passes[..n]);
      PassesKeepEvents(c, l, items, passes[..n]);
    }
  }

  lemma {:induction false} NoFailureCounts(c: Config, l: Events, items: seq<Record>, passes: seq<Calls>, processed: nat)
    requires |passes| <= |items| && NoneFails(items, passes)
    ensures var results := ResultsOf(c, l, items, passes);
            Tally(processed, results) == BatchResult(processed, |passes|, 0, 0) && FirstError(results).None?
    decreases |passes|
  {
    if passes != [] {
      var n := |passes| - 1;
      assert forall i :: 0 <= i < n ==> passes[..n][i] == passes[i];
      var earlier := ResultsOf(c, l, items, passes[..n]);
      NoFailureCounts(c, l, items, passes[..n], processed);
      OneMoreResult(processed, earlier, ItemCompleted);
      assert FailureOf(items[n], passes[n]).None?;
      assert ResultsOf(c, l, items, passes) == earlier + [ItemCompleted];
    }
  }

  /** A retry batch none of whose calls failed completes every event that it leased, if their payloads can be
      decoded. */
  lemma CleanBatch(c: Config, l: Events, at: Time, staleBefore: Time, batch: seq<Record>, log: seq<StoreCall>,
                   passes: seq<Calls>)
    requires AreDue(l, at, staleBefore, batch) && |passes| == |batch|
    requires AllDecode(batch) && AllSucceed(LogAfterAll(log, LeasedAll(batch, at), passes), |log|)
    ensures var items, taken := LeasedAll(batch, at), TakeBatch(l, at, batch);
            var results := ResultsOf(c, taken, items, passes);
            && Tally(|items|, results) == BatchResult(|items|, |items|, 0, 0) && FirstError(results).None?
            && AllCompleted(LedgerAfterAll(c, taken, items, passes), items, |items|)
  {
    var items, taken := LeasedAll(batch, at), TakeBatch(l, at, batch);
    EachIsLeased(batch, at);
    assert AllDecode(items);
    CleanPasses(log, items, passes);
    assert AllStored(taken, items);
    NoFailureCompletes(c, taken, items, passes);
    NoFailureCounts(c, taken, items, passes, |items|);
  }

  /** The error of a first delivery is what one of its calls answered. */
  lemma DeliveryErrorIsAnswered(c: Config, l: Events, log: seq<StoreCall>, r: Record, calls: Calls)
    requires !r.IsCompletionRetry() && AnswerOf(c, l, r, calls).err.Some?
    ensures SomeAnswers(LogAfter(log, r, true, calls), |log|, AnswerOf(c, l, r, calls).err)
  {
    var after := LogAfter(log, r, true, calls);
    assert after[|log|].err == calls.persist;
    assert calls.persist.None? ==> after[|log| + 1].err == calls.mark;
    assert after[|after| - 1].err == calls.record;
  }

  /** Every event has the key that its payload was delivered under. */
  ghost predicate DeliveredAsKeyed(l: Events) {
    forall k :: k in l ==> l[k].key == k && !l[k].payload.Undecodable? && k == KeyOf(l[k].payload)
  }

  lemma DeliveredDecode(l: Events, items: seq<Record>)
    requires DeliveredAsKeyed(l) && forall i :: 0 <= i < |items| ==> items[i].key in l && l[items[i].key] == items[i]
    ensures AllDecode(items)
  {
    forall i | 0 <= i < |items| ensures Decodes(items[i].key.eventType, items[i].payload) {
      DecodesAsDelivered(items[i].payload, items[i].key.eventType);
    }
  }

  lemma PassKeepsKeys(c: Config, l: Events, r: Record, calls: Calls)
    requires DeliveredAsKeyed(l)
    ensures DeliveredAsKeyed(LedgerAfter(c, l, r, calls))
  {
  }

  lemma {:induction false} PassesKeepKeys(c: Config, l: Events, items: seq<Record>, passes: seq<Calls>)
    requires |passes| <= |items| && DeliveredAsKeyed(l)
    ensures DeliveredAsKeyed(LedgerAfterAll(c, l, items, passes))
    decreases |passes|
  {
    if passes != [] {
      var n := |passes| - 1;
      PassesKeepKeys(c, l, items, passes[..n]);
      PassKeepsKeys(c, LedgerAfterAll(c, l, items, passes[..n]), items[n], passes[n]);
    }
  }

  lemma BatchKeepsKeys(c: Config, l: Events, at: Time, batch: seq<Record>, items: seq<Record>, passes: seq<Calls>)
    requires DeliveredAsKeyed(l) && |passes| <= |items|
    ensures DeliveredAsKeyed(LedgerAfterAll(c, TakeBatch(l, at, batch), items, passes))
  {
    PassesKeepKeys(c, TakeBatch(l, at, batch), items, passes);
  }

  lemma DeletionKeepsKeys(l: Events, keys: set<EventKey>)
    requires DeliveredAsKeyed(l)
    ensures DeliveredAsKeyed(Purge(l, keys))
  {
  }

  /** What a batch leases when the caller asks for `limit` events. */
  ghost predicate AskedTakesDue(c: Config, l: Events, at: Time, limit: int, batch: seq<Record>) {
    TakesDue(l, at, at - c.leaseTimeout, if limit <= 0 then 10 else limit, batch)
  }

  lemma AskedBatchTakesDue(c: Config, l: Events, at: Time, staleBefore: Time, limit: int, batch: seq<Record>)
    requires WellKeyed(l) && staleBefore == at - c.leaseTimeout && IsBatch(l, at, staleBefore, BatchSize(limit), batch)
    ensures AskedTakesDue(c, l, at, limit, batch)
  {
    BatchTakesDue(l, at, staleBefore, BatchSize(limit), batch);
  }

  /** A retry batch over delivered events none of whose calls failed completes all that it leased. */
  lemma CleanBatchOfDelivered(c: Config, l: Events, at: Time, staleBefore: Time, batch: seq<Record>, items: seq<Record>,
                              log: seq<StoreCall>, passes: seq<Calls>)
    requires DeliveredAsKeyed(l) && AreDue(l, at, staleBefore, batch)
    requires items == LeasedAll(batch, at) && |passes| == |items|
    requires AllSucceed(LogAfterAll(log + [LeaseCall(None)], items, passes), |log|)
    ensures var taken := TakeBatch(l, at, batch);
            var results := ResultsOf(c, taken, items, passes);
            && Tally(|items|, results) == BatchResult(|batch|, |batch|, 0, 0) && FirstError(results).None?
            && AllCompleted(LedgerAfterAll(c, taken, items, passes), batch, |batch|)
  {
    DeliveredDecode(l, batch);
    assert AllSucceed(LogAfterAll(log + [LeaseCall(None)], items, passes), |log + [LeaseCall(None)]|);
    CleanBatch(c, l, at, staleBefore, batch, log + [LeaseCall(None)], passes);
    LeasedKeys(batch, at, LedgerAfterAll(c, TakeBatch(l, at, batch), items, passes));
  }

  /** What a batch comes to: it leases what is due, and if none of its calls failed, it completes all of it. */
  lemma BatchLaw(c: Config, l: Events, at: Time, limit: int, batch: seq<Record>, items: seq<Record>, log: seq<StoreCall>,
                 passes: seq<Calls>)
    requires WellKeyed(l) && DeliveredAsKeyed(l) && BatchAsked(c, l, at, limit, batch)
    requires items == LeasedAll(batch, at) && |passes| == |items|
    ensures AskedTakesDue(c, l, at, limit, batch)
    ensures var taken := TakeBatch(l, at, batch);
            var results := ResultsOf(c, taken, items, passes);
            && Tally(|items|, results).processed == |batch|
            && (AllSucceed(LogAfterAll(log + [LeaseCall(None)], items, passes), |log|) ==>
                  && Tally(|items|, results) == BatchResult(|batch|, |batch|, 0, 0) && FirstError(results).None?
                  && AllCompleted(LedgerAfterAll(c, taken, items, passes), batch, |batch|))
  {
    TallyAddsUp(|items|, ResultsOf(c, TakeBatch(l, at, batch), items, passes));
    var staleBefore := at - c.leaseTimeout;
    AskedBatchTakesDue(c, l, at, staleBefore, limit, batch);
    if AllSucceed(LogAfterAll(log + [LeaseCall(None)], items, passes), |log|) {
      CleanBatchOfDelivered(c, l, at, staleBefore, batch, items, log, passes);
    }
  }

  lemma LeasedKeys(batch: seq<Record>, at: Time, l: Events)
    requires AllCompleted(l, LeasedAll(batch, at), |batch|)
    ensures AllCompleted(l, batch, |batch|)
  {
    EachIsLeased(batch, at);
    forall i | 0 <= i < |batch| ensures batch[i].key in l && l[batch[i].key].status == Completed {
      assert LeasedAll(batch, at)[i].key == batch[i].key;
    }
  }

  /** The answer to a delivery says how the ledger stands: accepted or a duplicate, if the event is completed; queued,
      if it is in the queue or at work; and a dead letter as such. */
  predicate StandsAs(result: IngestResult, r: Record) {
    && result.key == r.key && result.attemptCount == r.attemptCount
    && (result.outcome == Accepted || result.outcome == Duplicate <==> r.status == Completed)
    && (result.outcome == Queued <==> r.status == RetryScheduled || r.status == Processing)
    && (result.outcome == DeadLettered <==> r.status == DeadLetter)
    && (result.duplicate <==> result.outcome == Duplicate) && (result.queued <==> result.outcome == Queued)
  }

  /** So does the answer to a first delivery, if it is not an error. */
  lemma DeliveryStands(c: Config, l: Events, r: Record, calls: Calls, result: IngestResult, err: Option<Error>)
    requires r.key in l && l[r.key] == r && r.status == Processing && err.None?
    requires Answer(result.outcome, err) == AnswerOf(c, l, r, calls) && Describes(result, r, LedgerAfter(c, l, r, calls))
    ensures r.key in LedgerAfter(c, l, r, calls) && StandsAs(result, LedgerAfter(c, l, r, calls)[r.key])
  {
    AnswerTells(c, l, r, calls, {});
  }

  lemma RedeliveryStands(result: IngestResult, r: Record)
    requires AnswersRedelivery(result, r.key, r)
    ensures StandsAs(result, r)
  {
  }

  /** A failed call shows in the log. */
  lemma FailureIsLogged(log: seq<StoreCall>, call: StoreCall)
    ensures AllSucceed(log + [call], |log|) <==> call.err.None?
    ensures SomeAnswers(log + [call], |log|, call.err)
  {
    assert (log + [call])[|log|] == call;
  }

  /** The events outside the batch are as before, and no event is added or lost. */
  ghost predicate OthersStay(l: Events, l': Events, batch: seq<Record>) {
    && l'.Keys == l.Keys
    && forall k :: k in l && k !in KeysOf(batch) ==> l'[k] == l[k]
  }

  lemma {:induction false} PassesTouchTheirOwn(c: Config, l: Events, items: seq<Record>, passes: seq<Calls>)
    requires |passes| <= |items|
    ensures OthersStay(l, LedgerAfterAll(c, l, items, passes), items)
    decreases |passes|
  {
    if passes != [] {
      PassesTouchTheirOwn(c, l, items, passes[..|passes| - 1]);
    }
  }

  lemma LeasedHaveTheKeys(batch: seq<Record>, at: Time)
    ensures KeysOf(LeasedAll(batch, at)) == KeysOf(batch)
  {
    EachIsLeased(batch, at);
    forall i | 0 <= i < |batch| ensures batch[i].key in KeysOf(LeasedAll(batch, at)) {
      assert LeasedAll(batch, at)[i].key == batch[i].key;
    }
  }

  /** What a retry batch leaves of the ledger: events outside it are as before, and its answer counts how the events in
      it stand. */
  lemma BatchStands(c: Config, l: Events, at: Time, limit: int, batch: seq<Record>, items: seq<Record>, passes: seq<Calls>)
    requires BatchAsked(c, l, at, limit, batch) && items == LeasedAll(batch, at) && |passes| == |items|
    ensures var results, l' := ResultsOf(c, TakeBatch(l, at, batch), items, passes),
                               LedgerAfterAll(c, TakeBatch(l, at, batch), items, passes);
            OthersStay(l, l', batch) && Accounts(Tally(|items|, results), FirstError(results).Some?, items, l')
  {
    PassesTouchTheirOwn(c, TakeBatch(l, at, batch), items, passes);
    LeasedHaveTheKeys(batch, at);
    BatchAccounts(c, l, at, at - c.leaseTimeout, batch, passes);
  }

  /** The error of a batch of delivered events is what one of its calls answered. */
  lemma BatchErrorLaw(c: Config, l: Events, at: Time, limit: int, batch: seq<Record>, items: seq<Record>, log: seq<StoreCall>,
                      passes: seq<Calls>)
    requires DeliveredAsKeyed(l) && BatchAsked(c, l, at, limit, batch)
    requires items == LeasedAll(batch, at) && |passes| == |items|
    ensures var err := FirstError(ResultsOf(c, TakeBatch(l, at, batch), items, passes));
            err.Some? ==> SomeAnswers(LogAfterAll(log + [LeaseCall(None)], items, passes), |log|, err)
  {
    var taken, leased := TakeBatch(l, at, batch), log + [LeaseCall(None)];
    DeliveredDecode(l, batch);
    EachIsLeased(batch, at);
    assert AllDecode(items);
    var err := FirstError(ResultsOf(c, taken, items, passes));
    if err.Some? {
      BatchErrorIsAnswered(c, taken, leased, items, passes);
      AnswersStay(LogAfterAll(leased, items, passes), LogAfterAll(leased, items, passes), |log|, |leased|, err);
    }
  }
}
