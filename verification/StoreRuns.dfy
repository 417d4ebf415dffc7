/** Runs of the store: deliveries in any order, mixed with retention of snapshots. */
module StoreRuns {
  import opened Domain
  import opened Keys
  import opened Tables
  import opened Merge
  import opened Rows
  import opened Retention

  /** The latest snapshot: the first of those captured last. */
  function Latest(rows: seq<Row<Snapshot>>): (r: Row<Snapshot>)
    requires rows != []
  {
    if |rows| == 1 then rows[0]
    else
      var before, last := Latest(rows[..|rows| - 1]), rows[|rows| - 1];
      if last.data.capturedAt > before.data.capturedAt then last else before
  }

  /** The id that retention protects; zero, which no row has, when there are no snapshots. */
  function ProtectedId(rows: seq<Row<Snapshot>>): int {
    if rows == [] then 0 else Latest(rows).id
  }

  function Expired(protectedId: int, cutoff: Time): Row<Snapshot> -> bool {
    (r: Row<Snapshot>) => r.id != protectedId && r.data.capturedAt < cutoff
  }

  /** The snapshots left by one retention pass. */
  function RetainSnapshots(rows: seq<Row<Snapshot>>, cutoff: Time, limit: nat): seq<Row<Snapshot>> {
    DropFirst(rows, Expired(ProtectedId(rows), cutoff), limit)
  }

  predicate IsLatestAt(rows: seq<Row<Snapshot>>, i: int) {
    && 0 <= i < |rows|
    && (forall j :: 0 <= j < i ==> rows[j].data.capturedAt < rows[i].data.capturedAt)
    && (forall j :: i < j < |rows| ==> rows[j].data.capturedAt <= rows[i].data.capturedAt)
  }

  lemma {:induction false} LatestPosition(rows: seq<Row<Snapshot>>) returns (i: nat)
    requires rows != []
    ensures IsLatestAt(rows, i) && Latest(rows) == rows[i]
  {
    if |rows| == 1 {
      i := 0;
    } else {
      i := LatestPosition(rows[..|rows| - 1]);
      if rows[|rows| - 1].data.capturedAt > rows[i].data.capturedAt {
        i := |rows| - 1;
      }
    }
  }

  /** Dropping other rows moves the latest one, but it stays the latest. */
  lemma {:induction false} LatestSurvives(rows: seq<Row<Snapshot>>, i: nat, eligible: Row<Snapshot> -> bool, limit: nat)
    returns (i': nat)
    requires IsLatestAt(rows, i) && !eligible(rows[i])
    ensures var left := DropFirst(rows, eligible, limit); IsLatestAt(left, i') && left[i'] == rows[i]
  {
    var init, last := rows[..|rows| - 1], rows[|rows| - 1];
    var left := DropFirst(init, eligible, limit);
    if i == |rows| - 1 {
      i' := |left|;
      forall r | r in left ensures r.data.capturedAt < rows[i].data.capturedAt {
        DropFirstKeepsElements(init, eligible, limit, r);
      }
    } else {
      i' := LatestSurvives(init, i, eligible, limit);
    }
  }

  lemma LatestIsUnique(rows: seq<Row<Snapshot>>, i: int, j: int)
    requires IsLatestAt(rows, i) && IsLatestAt(rows, j)
    ensures i == j
  {
    var ti, tj := rows[i].data.capturedAt, rows[j].data.capturedAt;
  }

  /** Retention never changes the reported infrastructure status, whatever the cutoff, the limit and the
      ties. */
  lemma RetentionKeepsLatest(rows: seq<Row<Snapshot>>, cutoff: Time, limit: nat)
    requires rows != []
    ensures RetainSnapshots(rows, cutoff, limit) != []
    ensures Latest(RetainSnapshots(rows, cutoff, limit)) == Latest(rows)
  {
    var left := RetainSnapshots(rows, cutoff, limit);
    var i := LatestPosition(rows);
    var i' := LatestSurvives(rows, i, Expired(ProtectedId(rows), cutoff), limit);
    var j := LatestPosition(left);
    LatestIsUnique(left, i', j);
  }

  function RetainRepeatedly(rows: seq<Row<Snapshot>>, cutoff: Time, limit: nat, times: nat): seq<Row<Snapshot>>
    decreases times
  {
    if times == 0 then rows else RetainRepeatedly(RetainSnapshots(rows, cutoff, limit), cutoff, limit, times - 1)
  }

  /** Repeated passes protect the same snapshot, so they converge like those of any slice. */
  lemma {:induction false} SnapshotPassesConverge(rows: seq<Row<Snapshot>>, cutoff: Time, limit: nat, times: nat)
    ensures var left := RetainRepeatedly(rows, cutoff, limit, times);
            && ProtectedId(left) == ProtectedId(rows)
            && Count(left, Expired(ProtectedId(rows), cutoff))
               == Remaining(Count(rows, Expired(ProtectedId(rows), cutoff)), limit, times)
    decreases times
  {
    if times > 0 {
      DropFirstCounts(rows, Expired(ProtectedId(rows), cutoff), limit);
      if rows != [] {
        RetentionKeepsLatest(rows, cutoff, limit);
      }
      SnapshotPassesConverge(RetainSnapshots(rows, cutoff, limit), cutoff, limit, times - 1);
    }
  }

  lemma {:induction false} DropKeepsIdsUnique<T>(rows: seq<Row<T>>, eligible: Row<T> -> bool, limit: nat)
    requires UniqueIds(rows)
    ensures UniqueIds(DropFirst(rows, eligible, limit))
  {
    if rows != [] {
      var init, last := rows[..|rows| - 1], rows[|rows| - 1];
      DropKeepsIdsUnique(init, eligible, limit);
      var left := DropFirst(init, eligible, limit);
      forall i | 0 <= i < |left| ensures left[i].id != last.id {
        DropFirstKeepsElements(init, eligible, limit, left[i]);
        var j :| 0 <= j < |init| && init[j] == left[i];
        assert rows[j].id != last.id;
      }
    }
  }

  lemma DropKeepsSound<T>(t: Table<T>, seeds: set<int>, eligible: Row<T> -> bool, limit: nat)
    requires Sound(t, seeds)
    ensures Sound(t.(rows := DropFirst(t.rows, eligible, limit)), seeds)
  {
    DropKeepsIdsUnique(t.rows, eligible, limit);
    var left := DropFirst(t.rows, eligible, limit);
    forall i | 0 <= i < |left| ensures left[i] in t.rows {
      DropFirstKeepsElements(t.rows, eligible, limit, left[i]);
    }
  }

  datatype Op = Delivered(payload: Payload) | SnapshotsRetained(cutoff: Time, limit: nat)

  function ApplyOp(s: StoreRows, op: Op): StoreRows {
    match op
    case Delivered(payload) => Persist(s, payload)
    case SnapshotsRetained(cutoff, limit) =>
      s.(snapshots := s.snapshots.(rows := RetainSnapshots(s.snapshots.rows, cutoff, limit)))
  }

  function RunOps(s: StoreRows, ops: seq<Op>): StoreRows {
    if ops == [] then s else ApplyOp(RunOps(s, ops[..|ops| - 1]), ops[|ops| - 1])
  }

  /** The rows that a new store starts with. */
  function Seeded(now: Time): StoreRows {
    var start := now - 2 * HOUR;
    StoreRows(
      Accounts([Row(1001, Account([], Ascii("seed-account"), "seed@example.com", "active"))], 1002),
      Table([Row(1, Conversation(1001, "telegram", "completed", start, None))], map[], 2),
      Table([Row(1, Message(1, "user", "hello", start + 10 * SECOND))], map[], 2),
      Table([Row(1, Attempt(1, "anthropic", "claude-opus-4-6", 120, 240, 0.02, 420, true, None, start + 20 * SECOND))], map[], 2),
      Table([Row(1, Snapshot(3, true, 22.4, 48.2, now - MINUTE))], map[], 2))
  }

  lemma SeededIsIntact(now: Time)
    ensures Intact(Seeded(now))
  {
    var s := Seeded(now);
    assert s.accounts.rows[0].id in AccountIds(s.accounts);
    assert s.conversations.rows[0].id in Ids(s.conversations);
  }

  /** Store integrity in every reachable state. */
  lemma {:induction false} ReachableIsIntact(now: Time, ops: seq<Op>)
    ensures Intact(RunOps(Seeded(now), ops))
  {
    if ops == [] {
      SeededIsIntact(now);
    } else {
      var before := RunOps(Seeded(now), ops[..|ops| - 1]);
      ReachableIsIntact(now, ops[..|ops| - 1]);
      match ops[|ops| - 1]
      case Delivered(payload) => PersistKeepsIntact(before, payload);
      case SnapshotsRetained(cutoff, limit) =>
        DropKeepsSound(before.snapshots, SEEDS, Expired(ProtectedId(before.snapshots.rows), cutoff), limit);
    }
  }

  /** Holds the rows of new stores, and is closed under operations. */
  ghost predicate ClosedUnderOps(stores: iset<StoreRows>) {
    && (forall now :: Seeded(now) in stores)
    && forall s, op :: s in stores ==> ApplyOp(s, op) in stores
  }

  ghost predicate InEveryClosedSet(s: StoreRows) {
    forall stores :: ClosedUnderOps(stores) ==> s in stores
  }

  /** The rows that a store can come to have. */
  ghost function ReachableRows(): iset<StoreRows> {
    iset s | InEveryClosedSet(s)
  }

  lemma SeededIsReachable(now: Time)
    ensures Seeded(now) in ReachableRows()
  {
  }

  lemma OpReaches(s: StoreRows, op: Op)
    requires s in ReachableRows()
    ensures ApplyOp(s, op) in ReachableRows()
  {
    forall stores | ClosedUnderOps(stores) ensures ApplyOp(s, op) in stores {
      assert s in stores;
    }
  }

  ghost predicate IsRun(s: StoreRows) {
    exists now, ops :: s == RunOps(Seeded(now), ops)
  }

  lemma OneMoreOp(s: StoreRows, ops: seq<Op>, op: Op)
    ensures RunOps(s, ops + [op]) == ApplyOp(RunOps(s, ops), op)
  {
    var more := ops + [op];
    assert more[..|more| - 1] == ops && more[|more| - 1] == op;
  }

  lemma NewStoreIsRun(now: Time)
    ensures IsRun(Seeded(now))
  {
    assert Seeded(now) == RunOps(Seeded(now), []);
  }

  lemma OpIsRun(s: StoreRows, op: Op)
    requires IsRun(s)
    ensures IsRun(ApplyOp(s, op))
  {
    var now, ops :| s == RunOps(Seeded(now), ops);
    OneMoreOp(Seeded(now), ops, op);
    assert ApplyOp(s, op) == RunOps(Seeded(now), ops + [op]);
  }

  ghost function RunsOfStores(): iset<StoreRows> {
    iset s | IsRun(s)
  }

  lemma RunsAreClosed()
    ensures ClosedUnderOps(RunsOfStores())
  {
    forall now ensures Seeded(now) in RunsOfStores() {
      NewStoreIsRun(now);
    }
    forall s, op | s in RunsOfStores() ensures ApplyOp(s, op) in RunsOfStores() {
      OpIsRun(s, op);
    }
  }

  /** Reachable rows are those of some run of operations. */
  lemma ReachableIsRun(s: StoreRows) returns (now: Time, ops: seq<Op>)
    requires s in ReachableRows()
    ensures s == RunOps(Seeded(now), ops)
  {
    RunsAreClosed();
    assert s in RunsOfStores();
    now, ops :| s == RunOps(Seeded(now), ops);
  }

  /** Row `i` is the row of the identity. */
  predicate BelongsTo<T>(t: Table<T>, i: int, source: Bytes, externalID: Bytes) {
    0 <= i < |t.rows| && IngestKey(source, externalID) in t.index && t.index[IngestKey(source, externalID)] == t.rows[i].id
  }

  ghost predicate OneRowPerIdentity<T>(t: Table<T>) {
    && (forall i, j, source, id :: BelongsTo(t, i, source, id) && BelongsTo(t, j, source, id) ==> i == j)
    && (forall i, source, id, source', id' :: BelongsTo(t, i, source, id) && BelongsTo(t, i, source', id') ==>
          source == source' && id == id')
  }

  lemma SoundTablesHaveOneRow<T>(t: Table<T>, seeds: set<int>)
    requires Sound(t, seeds)
    ensures OneRowPerIdentity(t)
  {
    forall i, source, id, source', id' | BelongsTo(t, i, source, id) && BelongsTo(t, i, source', id')
      ensures source == source' && id == id'
    {
      IngestKeyIsInjective(source, id, source', id');
    }
  }

  /** Over any run, retention included, each (source, external id) has at most one row in each table, and
      no row belongs to two identities. */
  lemma IdentitiesHaveOneRow(now: Time, ops: seq<Op>)
    ensures var s := RunOps(Seeded(now), ops);
            && OneRowPerIdentity(s.conversations) && OneRowPerIdentity(s.messages)
            && OneRowPerIdentity(s.attempts) && OneRowPerIdentity(s.snapshots)
  {
    var s := RunOps(Seeded(now), ops);
    ReachableIsIntact(now, ops);
    SoundTablesHaveOneRow(s.conversations, SEEDS);
    SoundTablesHaveOneRow(s.messages, SEEDS);
    SoundTablesHaveOneRow(s.attempts, SEEDS);
    SoundTablesHaveOneRow(s.snapshots, SEEDS);
  }

  /** Replaying an event in a reachable store changes nothing. */
  lemma ReplayChangesNothing(now: Time, ops: seq<Op>, payload: Payload)
    ensures RunOps(Seeded(now), ops + [Delivered(payload), Delivered(payload)])
         == RunOps(Seeded(now), ops + [Delivered(payload)])
  {
    var once, twice := ops + [Delivered(payload)], ops + [Delivered(payload), Delivered(payload)];
    assert twice[..|twice| - 1] == once && once[..|once| - 1] == ops;
    ReachableIsIntact(now, ops);
    PersistIsIdempotent(RunOps(Seeded(now), ops), payload);
  }

  /** The conversation that an operation delivers to an identity, without the account. */
  function DeliveryTo(op: Op, source: Bytes, externalID: Bytes): seq<Conversation> {
    match op
    case Delivered(ConversationPayload(e)) =>
      if e.source == source && e.conversation.externalID == externalID then [FromInput(0, e.conversation)] else []
    case Delivered(AttemptPayload(e)) =>
      if e.source == source && e.conversation.externalID == externalID then [FromInput(0, e.conversation)] else []
    case _ => []
  }

  function Deliveries(ops: seq<Op>, source: Bytes, externalID: Bytes): seq<Conversation> {
    if ops == [] then []
    else Deliveries(ops[..|ops| - 1], source, externalID) + DeliveryTo(ops[|ops| - 1], source, externalID)
  }

  /** The row of an identity agrees with a sequence of deliveries, up to its account. */
  ghost predicate RowIs(row: Option<Conversation>, ds: seq<Conversation>) {
    match row
    case None => ds == []
    case Some(c) => ds != [] && c.(accountID := 0) == Fold(InMemory, ds)
  }

  lemma FoldOfAppend(ds: seq<Conversation>, d: Conversation)
    ensures Fold(InMemory, ds + [d]) == if ds == [] then d else MergeInMemory(Fold(InMemory, ds), d)
  {
    assert (ds + [d])[..|ds|] == ds;
  }

  lemma RowExtends(row: Option<Conversation>, ds: seq<Conversation>, input: Conversation, d: Conversation)
    requires RowIs(row, ds) && d == input.(accountID := 0)
    ensures RowIs(Some(match row case None => input case Some(c) => MergeInMemory(c, input)), ds + [d])
  {
    FoldOfAppend(ds, d);
  }

  lemma ParentsExtendRow(s: StoreRows, source': Bytes, account: AccountInput, conversation: ConversationInput,
                         source: Bytes, externalID: Bytes, ds: seq<Conversation>)
    requires Sound(s.conversations, SEEDS) && RowIs(Lookup(s.conversations, IngestKey(source, externalID)), ds)
    ensures var mine := source' == source && conversation.externalID == externalID;
            var delivery := if mine then [FromInput(0, conversation)] else [];
            RowIs(Lookup(PersistParents(s, source', account, conversation).conversations, IngestKey(source, externalID)),
                  ds + delivery)
  {
    var key, mine := IngestKey(source', conversation.externalID), IngestKey(source, externalID);
    var input := FromInput(AccountId(s.accounts, source', account.externalID), conversation);
    IngestKeyIsInjective(source, externalID, source', conversation.externalID);
    UpsertRefinesMap(s.conversations, SEEDS, key, input, MergeInMemory, mine);
    if key == mine {
      RowExtends(Lookup(s.conversations, mine), ds, input, FromInput(0, conversation));
    } else {
      assert ds + [] == ds;
    }
  }

  /** The conversation row of an identity is the fold of the deliveries addressed to it, whatever else
      the run contains. */
  lemma {:induction false} RowIsFoldOfDeliveries(now: Time, ops: seq<Op>, source: Bytes, externalID: Bytes)
    ensures RowIs(Lookup(RunOps(Seeded(now), ops).conversations, IngestKey(source, externalID)),
                  Deliveries(ops, source, externalID))
  {
    if ops != [] {
      var init, last := ops[..|ops| - 1], ops[|ops| - 1];
      RowIsFoldOfDeliveries(now, init, source, externalID);
      ReachableIsIntact(now, init);
      OpExtendsRow(RunOps(Seeded(now), init), last, source, externalID, Deliveries(init, source, externalID));
    }
  }

  lemma OpExtendsRow(before: StoreRows, op: Op, source: Bytes, externalID: Bytes, ds: seq<Conversation>)
    requires Sound(before.conversations, SEEDS) && RowIs(Lookup(before.conversations, IngestKey(source, externalID)), ds)
    ensures RowIs(Lookup(ApplyOp(before, op).conversations, IngestKey(source, externalID)),
                  ds + DeliveryTo(op, source, externalID))
  {
    assert ds + [] == ds;
    match op
    case Delivered(ConversationPayload(e)) =>
      ParentsExtendRow(before, e.source, e.account, e.conversation, source, externalID, ds);
    case Delivered(AttemptPayload(e)) =>
      ParentsExtendRow(before, e.source, e.account, e.conversation, source, externalID, ds);
    case _ =>
  }

  /** Two stores that received the same deliveries for an identity, in any order and among anything else,
      agree on when its conversation started and ended, and on its status if all deliveries that could decide
      it agree. */
  lemma StoresConverge(now: Time, ops: seq<Op>, now': Time, ops': seq<Op>, source: Bytes, externalID: Bytes)
    requires Deliveries(ops, source, externalID) != []
    requires Reordered(Deliveries(ops, source, externalID), Deliveries(ops', source, externalID))
    ensures var row := Lookup(RunOps(Seeded(now), ops).conversations, IngestKey(source, externalID));
            var row' := Lookup(RunOps(Seeded(now'), ops').conversations, IngestKey(source, externalID));
            && row.Some? && row'.Some?
            && row.value.startedAt == row'.value.startedAt && row.value.endedAt == row'.value.endedAt
            && (OneVerdict(Deliveries(ops, source, externalID)) ==> row.value.status == row'.value.status)
  {
    RowIsFoldOfDeliveries(now, ops, source, externalID);
    RowIsFoldOfDeliveries(now', ops', source, externalID);
    var ds, ds' := Deliveries(ops, source, externalID), Deliveries(ops', source, externalID);
    assert |ds'| == |multiset(ds')| == |multiset(ds)| == |ds|;
    TimesAreOrderIndependent(InMemory, ds, InMemory, ds');
    if OneVerdict(ds) {
      VerdictHolds(InMemory, ds, ds');
    }
  }
}
