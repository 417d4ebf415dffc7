/** The counters of a retry batch against the ledger that the batch leaves behind. */
module BatchAccounting {
  import opened Domain
  import opened Ledger

  /** What became of one leased event. */
  datatype ItemResult = ItemCompleted | ItemRescheduled | ItemDeadLettered | ItemError(err: Error)

  /** The status in which a result other than an error leaves the event. */
  function StatusAfter(result: ItemResult): Status
    requires !result.ItemError?
  {
    match result
    case ItemCompleted => Completed
    case ItemRescheduled => RetryScheduled
    case ItemDeadLettered => DeadLetter
  }

  /** A result tells what happened to the ledger `l` and to the set of unrecorded failures. */
  ghost predicate Tells(result: ItemResult, k: EventKey, l: Events, unrecorded: set<EventKey>,
                        l': Events, unrecorded': set<EventKey>) {
    if k in l then
      && k in l' && l' == l[k := l'[k]]
      && (if result.ItemError? then l' == l else l'[k].status == StatusAfter(result))
      && unrecorded' == unrecorded + if result.ItemError? then {k} else {}
    else
      l' == l && unrecorded <= unrecorded' <= unrecorded + {k}
  }

  datatype BatchResult = BatchResult(processed: nat, completed: nat, rescheduled: nat, deadLettered: nat)

  function Counted(r: BatchResult, result: ItemResult): BatchResult {
    match result
    case ItemCompleted => r.(completed := r.completed + 1)
    case ItemRescheduled => r.(rescheduled := r.rescheduled + 1)
    case ItemDeadLettered => r.(deadLettered := r.deadLettered + 1)
    case ItemError(_) => r
  }

  /** The counters after the items have had `results`. */
  function Tally(processed: nat, results: seq<ItemResult>): BatchResult {
    if results == [] then BatchResult(processed, 0, 0, 0)
    else Counted(Tally(processed, results[..|results| - 1]), results[|results| - 1])
  }

  function Errors(results: seq<ItemResult>): nat {
    if results == [] then 0
    else Errors(results[..|results| - 1]) + if results[|results| - 1].ItemError? then 1 else 0
  }

  /** The error that a batch returns: the first one that an item met. */
  function FirstError(results: seq<ItemResult>): Option<Error> {
    if results == [] then None
    else
      var earlier := FirstError(results[..|results| - 1]);
      if earlier.None? && results[|results| - 1].ItemError? then Some(results[|results| - 1].err) else earlier
  }

  /** The counters and the errors add up to the items that have been gone through, whatever anybody else
      does to the ledger meanwhile, and the batch returns an error exactly when an item met one. */
  lemma {:induction false} TallyAddsUp(processed: nat, results: seq<ItemResult>)
    ensures var r := Tally(processed, results);
            && r.processed == processed
            && r.completed + r.rescheduled + r.deadLettered + Errors(results) == |results|
            && (FirstError(results).None? <==> Errors(results) == 0)
  {
    if results != [] {
      TallyAddsUp(processed, results[..|results| - 1]);
    }
  }

  /** The error that a batch returns is that of the first item that met one. */
  lemma {:induction false} FirstErrorIsFirst(results: seq<ItemResult>)
    ensures match FirstError(results)
            case None => forall i :: 0 <= i < |results| ==> !results[i].ItemError?
            case Some(e) =>
              exists i :: 0 <= i < |results| && results[i] == ItemError(e) && forall j :: 0 <= j < i ==> !results[j].ItemError?
  {
    if results != [] {
      var init := results[..|results| - 1];
      FirstErrorIsFirst(init);
      if FirstError(init).Some? {
        var i :| 0 <= i < |init| && init[i] == ItemError(FirstError(init).value)
                 && forall j :: 0 <= j < i ==> !init[j].ItemError?;
        assert results[i] == init[i] && forall j :: 0 <= j < i ==> results[j] == init[j];
      } else if results[|results| - 1].ItemError? {
        assert forall j :: 0 <= j < |init| ==> results[j] == init[j];
        assert results[|results| - 1] == ItemError(results[|results| - 1].err);
      }
    }
  }

  lemma OneMoreResult(processed: nat, results: seq<ItemResult>, result: ItemResult)
    ensures Tally(processed, results + [result]) == Counted(Tally(processed, results), result)
    ensures FirstError(results + [result])
         == if FirstError(results).None? && result.ItemError? then Some(result.err) else FirstError(results)
  {
    assert (results + [result])[..|results|] == results;
  }

  /** For a whole batch: the counters never exceed the number of leased events, and equal it exactly when no
      error is returned. */
  lemma WholeBatchAddsUp(results: seq<ItemResult>)
    ensures var r := Tally(|results|, results);
            && r.completed + r.rescheduled + r.deadLettered <= r.processed
            && (FirstError(results).None? <==> r.completed + r.rescheduled + r.deadLettered == r.processed)
  {
    TallyAddsUp(|results|, results);
  }

  /** How many of the items the ledger has in a status. */
  function CountIn(l: Events, items: seq<Record>, status: Status): nat {
    if items == [] then 0
    else
      var k := items[|items| - 1].key;
      CountIn(l, items[..|items| - 1], status) + if k in l && l[k].status == status then 1 else 0
  }

  /** The keys of the items that the ledger still has in Processing. */
  function LeftProcessing(l: Events, items: seq<Record>): set<EventKey> {
    set i | 0 <= i < |items| && items[i].key in l && l[items[i].key].status == Processing :: items[i].key
  }

  lemma {:induction false} CountInSameStatuses(l: Events, l': Events, items: seq<Record>, status: Status)
    requires forall i :: 0 <= i < |items| ==>
               items[i].key in l && items[i].key in l' && l[items[i].key].status == l'[items[i].key].status
    ensures CountIn(l, items, status) == CountIn(l', items, status)
  {
    if items != [] {
      CountInSameStatuses(l, l', items[..|items| - 1], status);
    }
  }

  lemma {:induction false} CountsPartition(l: Events, items: seq<Record>)
    requires forall i :: 0 <= i < |items| ==> items[i].key in l
    ensures |items| == CountIn(l, items, Completed) + CountIn(l, items, RetryScheduled)
                       + CountIn(l, items, DeadLetter) + CountIn(l, items, Processing)
  {
    if items != [] {
      CountsPartition(l, items[..|items| - 1]);
    }
  }

  /** The counters are the status populations of `items` in the ledger, and an error has been seen
      exactly when one of them is still Processing. */
  ghost predicate Accounts(r: BatchResult, failed: bool, items: seq<Record>, l: Events) {
    && r.completed == CountIn(l, items, Completed)
    && r.rescheduled == CountIn(l, items, RetryScheduled)
    && r.deadLettered == CountIn(l, items, DeadLetter)
    && (failed <==> CountIn(l, items, Processing) > 0)
  }

  /** The ledger `l` differs from `before` only in the events of `items`. */
  ghost predicate OnlyTouches(before: Events, l: Events, items: seq<Record>) {
    && l.Keys == before.Keys
    && forall k :: k in l && k !in KeysOf(items) ==> l[k] == before[k]
  }

  lemma KeysOfPrefix(items: seq<Record>, i: nat)
    requires i < |items|
    ensures KeysOf(items[..i + 1]) == KeysOf(items[..i]) + {items[i].key}
  {
    var taken, more := items[..i], items[..i + 1];
    assert forall n :: 0 <= n < |taken| ==> more[n] == taken[n];
    assert more[i] == items[i];
  }

  lemma CountOfOneMore(items: seq<Record>, i: nat, l: Events, l': Events, status: Status)
    requires DistinctKeys(items) && i < |items| && items[i].key in l && items[i].key in l'
    requires l' == l[items[i].key := l'[items[i].key]]
    requires forall j :: 0 <= j < i ==> items[j].key in l
    ensures CountIn(l', items[..i + 1], status)
         == CountIn(l, items[..i], status) + if l'[items[i].key].status == status then 1 else 0
  {
    assert items[..i + 1][..i] == items[..i];
    CountInSameStatuses(l, l', items[..i], status);
  }

  lemma ItemIsCounted(r: BatchResult, failed: bool, items: seq<Record>, i: nat, l: Events, l': Events,
                      unrecorded: set<EventKey>, unrecorded': set<EventKey>, result: ItemResult)
    requires DistinctKeys(items) && i < |items| && StillLeased(l, items, i)
    requires forall j :: 0 <= j < i ==> items[j].key in l
    requires Accounts(r, failed, items[..i], l)
    requires Tells(result, items[i].key, l, unrecorded, l', unrecorded')
    ensures Accounts(Counted(r, result), failed || result.ItemError?, items[..i + 1], l')
  {
    CountOfOneMore(items, i, l, l', Completed);
    CountOfOneMore(items, i, l, l', RetryScheduled);
    CountOfOneMore(items, i, l, l', DeadLetter);
    CountOfOneMore(items, i, l, l', Processing);
  }

  lemma ItemTouchesOnlyItself(items: seq<Record>, i: nat, before: Events, l: Events, l': Events,
                              unrecorded: set<EventKey>, unrecorded': set<EventKey>, result: ItemResult)
    requires DistinctKeys(items) && i < |items| && StillLeased(l, items, i) && OnlyTouches(before, l, items[..i])
    requires Tells(result, items[i].key, l, unrecorded, l', unrecorded')
    ensures StillLeased(l', items, i + 1) && OnlyTouches(before, l', items[..i + 1])
  {
    KeysOfPrefix(items, i);
  }

  lemma ItemLeftProcessing(items: seq<Record>, i: nat, l: Events, l': Events,
                           unrecorded: set<EventKey>, unrecorded': set<EventKey>, result: ItemResult)
    requires DistinctKeys(items) && i < |items| && StillLeased(l, items, i)
    requires Tells(result, items[i].key, l, unrecorded, l', unrecorded')
    ensures LeftProcessing(l', items[..i + 1]) == LeftProcessing(l, items[..i]) + if result.ItemError? then {items[i].key} else {}
  {
    var taken, more := items[..i], items[..i + 1];
    assert forall n :: 0 <= n < i ==> more[n] == taken[n] == items[n];
    assert more[i] == items[i];
    forall k | k in LeftProcessing(l, taken) ensures k in LeftProcessing(l', more) {
      var n :| 0 <= n < |taken| && taken[n].key == k && k in l && l[k].status == Processing;
      assert more[n].key == k && l'[k] == l[k];
    }
  }

  /** Where the leased items with a result stand: as leased after an error, in the reported status otherwise. */
  ghost predicate Stand(results: seq<ItemResult>, items: seq<Record>, l: Events)
    requires |results| <= |items|
  {
    forall i :: 0 <= i < |results| ==>
      && items[i].key in l
      && if results[i].ItemError? then l[items[i].key] == items[i] else l[items[i].key].status == StatusAfter(results[i])
  }

  /** While nobody else writes to the batch: where it stands when its first items have had `results`. It
      started from the ledger `before` and the unrecorded failures `unrecorded`. */
  ghost predicate Progress(items: seq<Record>, results: seq<ItemResult>, before: Events, l: Events,
                           unrecorded: set<EventKey>, unrecorded': set<EventKey>) {
    && |results| <= |items|
    && var done := items[..|results|];
    && Accounts(Tally(|items|, results), FirstError(results).Some?, done, l) && OnlyTouches(before, l, done)
    && Stand(results, items, l) && StillLeased(l, items, |results|)
    && unrecorded' == unrecorded + LeftProcessing(l, done)
  }

  lemma BatchStarts(items: seq<Record>, l: Events, unrecorded: set<EventKey>)
    requires AsLeased(items, l)
    ensures Progress(items, [], l, l, unrecorded, unrecorded)
  {
    assert LeftProcessing(l, items[..0]) == {};
  }

  lemma ItemStands(items: seq<Record>, results: seq<ItemResult>, l: Events, l': Events,
                   unrecorded: set<EventKey>, unrecorded': set<EventKey>, result: ItemResult)
    requires DistinctKeys(items) && |results| < |items|
    requires Stand(results, items, l) && StillLeased(l, items, |results|)
    requires Tells(result, items[|results|].key, l, unrecorded, l', unrecorded')
    ensures Stand(results + [result], items, l')
  {
  }

  lemma ItemKeepsAccounts(items: seq<Record>, results: seq<ItemResult>, before: Events, l: Events, l': Events,
                          unrecorded: set<EventKey>, recorded: set<EventKey>, recorded': set<EventKey>, result: ItemResult)
    requires DistinctKeys(items) && Progress(items, results, before, l, unrecorded, recorded)
    requires |results| < |items| && Tells(result, items[|results|].key, l, recorded, l', recorded')
    ensures var more := results + [result];
            Accounts(Tally(|items|, more), FirstError(more).Some?, items[..|more|], l')
  {
    ItemIsCounted(Tally(|items|, results), FirstError(results).Some?, items, |results|, l, l', recorded, recorded', result);
    OneMoreResult(|items|, results, result);
  }

  lemma ErrorIsUnrecorded(k: EventKey, l: Events, l': Events,
                          recorded: set<EventKey>, recorded': set<EventKey>, result: ItemResult)
    requires k in l && Tells(result, k, l, recorded, l', recorded')
    ensures recorded' == recorded + if result.ItemError? then {k} else {}
  {
  }

  lemma UnionsAssociate(a: set<EventKey>, b: set<EventKey>, c: set<EventKey>)
    ensures (a + b) + c == a + (b + c)
  {
  }

  lemma ItemKeepsRecorded(items: seq<Record>, i: nat, l: Events, l': Events, unrecorded: set<EventKey>,
                          recorded: set<EventKey>, recorded': set<EventKey>, result: ItemResult)
    requires DistinctKeys(items) && i < |items| && StillLeased(l, items, i)
    requires recorded == unrecorded + LeftProcessing(l, items[..i])
    requires Tells(result, items[i].key, l, recorded, l', recorded')
    ensures recorded' == unrecorded + LeftProcessing(l', items[..i + 1])
  {
    var failed := if result.ItemError? then {items[i].key} else {};
    ItemLeftProcessing(items, i, l, l', recorded, recorded', result);
    ErrorIsUnrecorded(items[i].key, l, l', recorded, recorded', result);
    UnionsAssociate(unrecorded, LeftProcessing(l, items[..i]), failed);
  }

  lemma ItemKeepsRest(items: seq<Record>, results: seq<ItemResult>, before: Events, l: Events, l': Events,
                      unrecorded: set<EventKey>, recorded: set<EventKey>, recorded': set<EventKey>, result: ItemResult)
    requires DistinctKeys(items) && Progress(items, results, before, l, unrecorded, recorded)
    requires |results| < |items| && Tells(result, items[|results|].key, l, recorded, l', recorded')
    ensures OnlyTouches(before, l', items[..|results + [result]|]) && StillLeased(l', items, |results + [result]|)
  {
    ItemTouchesOnlyItself(items, |results|, before, l, l', recorded, recorded', result);
  }

  lemma ItemMakesProgress(items: seq<Record>, results: seq<ItemResult>, before: Events, l: Events, l': Events,
                          unrecorded: set<EventKey>, recorded: set<EventKey>, recorded': set<EventKey>, result: ItemResult)
    requires DistinctKeys(items) && Progress(items, results, before, l, unrecorded, recorded)
    requires |results| < |items| && Tells(result, items[|results|].key, l, recorded, l', recorded')
    ensures Progress(items, results + [result], before, l', unrecorded, recorded')
  {
    ItemKeepsAccounts(items, results, before, l, l', unrecorded, recorded, recorded', result);
    ItemKeepsRecorded(items, |results|, l, l', unrecorded, recorded, recorded', result);
    ItemKeepsRest(items, results, before, l, l', unrecorded, recorded, recorded', result);
    ItemStands(items, results, l, l', recorded, recorded', result);
  }

  /** A finished batch: the answer is made from what became of each event, adds up to the batch exactly when
      no error is returned, and gives the populations of the batch in the ledger. */
  ghost predicate AccountsFor(r: BatchResult, err: Option<Error>, items: seq<Record>, results: seq<ItemResult>, l: Events) {
    && |results| == |items| && r == Tally(|items|, results) && err == FirstError(results)
    && r.completed + r.rescheduled + r.deadLettered <= r.processed
    && (err.None? <==> r.completed + r.rescheduled + r.deadLettered == r.processed)
    && Accounts(r, err.Some?, items, l)
  }
}
