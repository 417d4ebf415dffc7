/** The dashboard figures end to end: what they count of the events that were delivered. */
module Dashboard {
  import opened Domain
  import opened Keys
  import opened Tables
  import opened Rows
  import opened StoreRuns
  import opened LastWrites

  /** Source and external id. */
  type Identity = (Bytes, Bytes)

  function KeyOf(x: Identity): Bytes {
    IngestKey(x.0, x.1)
  }

  /** The identities of the attempts that an operation delivers. */
  function IdentitiesOf(op: Op): set<Identity> {
    match op
    case Delivered(AttemptPayload(e)) => {(e.source, e.attempt.externalID)}
    case _ => {}
  }

  /** The identities of the attempts that the operations deliver. */
  function AttemptIdentities(ops: seq<Op>): set<Identity> {
    if ops == [] then {}
    else
      AttemptIdentities(ops[..|ops| - 1]) + IdentitiesOf(ops[|ops| - 1])
  }

  /** The table has one row for each identity, behind the seeded row. */
  ghost predicate HoldsIdentities<T>(t: Table<T>, ids: set<Identity>) {
    && Sound(t, SEEDS) && Dense(t) && t.rows != [] && t.rows[0].id in SEEDS
    && t.index.Keys == set x | x in ids :: KeyOf(x)
  }

  /** The identities whose row satisfies `p`. */
  ghost function Having<T>(t: Table<T>, ids: set<Identity>, p: T -> bool): set<Identity> {
    set x | x in ids && Lookup(t, KeyOf(x)).Some? && p(Lookup(t, KeyOf(x)).value)
  }

  lemma {:induction false} ImageSize<X(!new), Y>(a: set<X>, b: set<Y>, f: X -> Y)
    requires b == set x | x in a :: f(x)
    requires forall x, x' :: x in a && x' in a && f(x) == f(x') ==> x == x'
    ensures |a| == |b|
    decreases |a|
  {
    if a != {} {
      var x :| x in a;
      assert b - {f(x)} == set y | y in a - {x} :: f(y);
      ImageSize(a - {x}, b - {f(x)}, f);
    }
  }

  function PositionIn<T>(t: Table<T>): Identity -> nat {
    (x: Identity) => Position(t, KeyOf(x))
  }

  /** The positions of the rows that satisfy `p`. */
  function Selected<T>(rows: seq<Row<T>>, p: T -> bool): set<nat> {
    set i: nat | i < |rows| && p(rows[i].data)
  }

  /** The positions of the rows behind the seeded one that satisfy `p`. */
  function Behind<T>(rows: seq<Row<T>>, p: T -> bool): set<nat> {
    set i: nat | 1 <= i < |rows| && p(rows[i].data)
  }

  /** They are the positions of the identities whose row does. */
  lemma RowsOfIdentities<T>(t: Table<T>, ids: set<Identity>, p: T -> bool)
    requires HoldsIdentities(t, ids)
    ensures Behind(t.rows, p) == set x | x in Having(t, ids, p) :: PositionIn(t)(x)
  {
    forall i | i in Behind(t.rows, p) ensures exists x :: x in Having(t, ids, p) && PositionIn(t)(x) == i {
      assert t.rows[i].id in t.index.Values;
      var k :| k in t.index && t.index[k] == t.rows[i].id;
      var x :| x in ids && KeyOf(x) == k;
      PositionIsUnique(t, SEEDS, i, t.rows[i].id);
      assert x in Having(t, ids, p);
    }
  }

  lemma PositionsDiffer<T>(t: Table<T>, ids: set<Identity>, p: T -> bool, x: Identity, y: Identity)
    requires HoldsIdentities(t, ids) && x in Having(t, ids, p) && y in Having(t, ids, p)
    requires PositionIn(t)(x) == PositionIn(t)(y)
    ensures x == y
  {
    var i := PositionIn(t)(x);
    assert t.rows[i].id == t.index[KeyOf(x)] == t.index[KeyOf(y)];
    IngestKeyIsInjective(x.0, x.1, y.0, y.1);
  }

  lemma BehindAreIdentities<T>(t: Table<T>, ids: set<Identity>, p: T -> bool)
    requires HoldsIdentities(t, ids)
    ensures |Behind(t.rows, p)| == |Having(t, ids, p)|
  {
    RowsOfIdentities(t, ids, p);
    forall x, y | x in Having(t, ids, p) && y in Having(t, ids, p) && PositionIn(t)(x) == PositionIn(t)(y) ensures x == y {
      PositionsDiffer(t, ids, p, x, y);
    }
    ImageSize(Having(t, ids, p), Behind(t.rows, p), PositionIn(t));
  }

  lemma {:induction false} FirstAndBehind<T>(rows: seq<Row<T>>, p: T -> bool)
    requires rows != []
    ensures |Selected(rows, p)| == |Behind(rows, p)| + if p(rows[0].data) then 1 else 0
  {
    var first: set<nat> := if p(rows[0].data) then {0} else {};
    assert Selected(rows, p) == Behind(rows, p) + first;
  }

  /** Counting rows is counting identities, and the seeded row. */
  lemma RowsAreIdentities<T>(t: Table<T>, ids: set<Identity>, p: T -> bool)
    requires HoldsIdentities(t, ids)
    ensures |Selected(t.rows, p)| == |Having(t, ids, p)| + if p(t.rows[0].data) then 1 else 0
  {
    BehindAreIdentities(t, ids, p);
    FirstAndBehind(t.rows, p);
  }

  lemma SeedIsKept<T>(t: Table<T>, key: Bytes, input: T, merge: (T, T) -> T)
    requires Sound(t, SEEDS) && Dense(t) && t.rows != [] && t.rows[0].id in SEEDS
    ensures Upsert(t, key, input, merge).rows[0] == t.rows[0]
    ensures Upsert(t, key, input, merge).index.Keys == t.index.Keys + {key}
  {
    if key in t.index {
      var i :| 0 <= i < |t.rows| && t.rows[i].id == t.index[key];
    }
  }

  lemma UpsertHoldsIdentities<T>(t: Table<T>, ids: set<Identity>, x: Identity, input: T, merge: (T, T) -> T)
    requires HoldsIdentities(t, ids)
    ensures HoldsIdentities(Upsert(t, KeyOf(x), input, merge), ids + {x})
    ensures Upsert(t, KeyOf(x), input, merge).rows[0] == t.rows[0]
  {
    UpsertKeepsSound(t, SEEDS, KeyOf(x), input, merge);
    UpsertKeepsDense(t, KeyOf(x), input, merge);
    SeedIsKept(t, KeyOf(x), input, merge);
  }

  /** The attempts of a store are those of the identities delivered to it, behind the seeded one. */
  lemma {:induction false} AttemptsHoldIdentities(now: Time, ops: seq<Op>)
    ensures HoldsIdentities(RunOps(Seeded(now), ops).attempts, AttemptIdentities(ops))
    ensures RunOps(Seeded(now), ops).attempts.rows[0] == Seeded(now).attempts.rows[0]
  {
    if ops == [] {
      SeededIsIntact(now);
    } else {
      AttemptsHoldIdentities(now, ops[..|ops| - 1]);
      OpHoldsIdentities(RunOps(Seeded(now), ops[..|ops| - 1]), ops[|ops| - 1], AttemptIdentities(ops[..|ops| - 1]));
    }
  }

  lemma OpHoldsIdentities(s: StoreRows, op: Op, ids: set<Identity>)
    requires HoldsIdentities(s.attempts, ids)
    ensures HoldsIdentities(ApplyOp(s, op).attempts, ids + IdentitiesOf(op))
    ensures ApplyOp(s, op).attempts.rows[0] == s.attempts.rows[0]
  {
    match op
    case Delivered(AttemptPayload(e)) =>
      UpsertHoldsIdentities(s.attempts, ids, (e.source, e.attempt.externalID),
                            AttemptOf(ConversationId(s, e.source, e.conversation), e.attempt), Replace<Attempt>);
    case _ => assert ids + {} == ids;
  }

  /** The last attempt delivered was made in the range, and failed if only failures are asked for. */
  predicate Happened(last: Option<AttemptEvent>, from: Time, to: Time, failuresOnly: bool) {
    last.Some? && from <= last.value.attempt.createdAt <= to && (failuresOnly ==> !last.value.attempt.success)
  }

  function Asked(from: Time, to: Time, failuresOnly: bool): Attempt -> bool {
    (a: Attempt) => from <= a.createdAt <= to && (failuresOnly ==> !a.success)
  }

  function WhereHappened(ops: seq<Op>, from: Time, to: Time, failuresOnly: bool): set<Identity> {
    set x | x in AttemptIdentities(ops) && Happened(Last(ops, AttemptsTo(x.0, x.1)), from, to, failuresOnly)
  }

  lemma HavingHappened(now: Time, ops: seq<Op>, from: Time, to: Time, failuresOnly: bool)
    ensures Having(RunOps(Seeded(now), ops).attempts, AttemptIdentities(ops), Asked(from, to, failuresOnly))
         == WhereHappened(ops, from, to, failuresOnly)
  {
    forall x | x in AttemptIdentities(ops)
      ensures x in Having(RunOps(Seeded(now), ops).attempts, AttemptIdentities(ops), Asked(from, to, failuresOnly))
              <==> Happened(Last(ops, AttemptsTo(x.0, x.1)), from, to, failuresOnly)
    {
      AttemptIsLastDelivery(now, ops, x.0, x.1);
    }
  }

  lemma SeededAttempt(now: Time, from: Time, to: Time, failuresOnly: bool)
    ensures Asked(from, to, failuresOnly)(Seeded(now).attempts.rows[0].data)
            <==> !failuresOnly && from <= now - 2 * HOUR + 20 * SECOND <= to
  {
  }

  lemma AskedAreIdentities(now: Time, ops: seq<Op>, from: Time, to: Time, failuresOnly: bool)
    ensures |Selected(RunOps(Seeded(now), ops).attempts.rows, Asked(from, to, failuresOnly))|
            == |WhereHappened(ops, from, to, failuresOnly)|
               + if !failuresOnly && from <= now - 2 * HOUR + 20 * SECOND <= to then 1 else 0
  {
    AttemptsHoldIdentities(now, ops);
    RowsAreIdentities(RunOps(Seeded(now), ops).attempts, AttemptIdentities(ops), Asked(from, to, failuresOnly));
    HavingHappened(now, ops, from, to, failuresOnly);
    SeededAttempt(now, from, to, failuresOnly);
  }

  lemma AskedRows(rows: seq<Row<Attempt>>, from: Time, to: Time)
    ensures (set i: nat | i < |rows| && from <= rows[i].data.createdAt <= to) == Selected(rows, Asked(from, to, false))
    ensures (set i: nat | i < |rows| && from <= rows[i].data.createdAt <= to && !rows[i].data.success)
         == Selected(rows, Asked(from, to, true))
  {
  }

  /** Over any run of a store, the attempts that the dashboard counts in a range are the identities whose last
      delivery was made in it, and the seeded attempt if it was. */
  lemma RequestsCounted(now: Time, ops: seq<Op>, from: Time, to: Time)
    ensures var rows := RunOps(Seeded(now), ops).attempts.rows;
            |set i: nat | i < |rows| && from <= rows[i].data.createdAt <= to|
            == |WhereHappened(ops, from, to, false)|
               + if from <= now - 2 * HOUR + 20 * SECOND <= to then 1 else 0
  {
    AskedAreIdentities(now, ops, from, to, false);
    AskedRows(RunOps(Seeded(now), ops).attempts.rows, from, to);
  }

  /** The failures among them are the identities whose last delivery failed. */
  lemma FailuresCounted(now: Time, ops: seq<Op>, from: Time, to: Time)
    ensures var rows := RunOps(Seeded(now), ops).attempts.rows;
            |set i: nat | i < |rows| && from <= rows[i].data.createdAt <= to && !rows[i].data.success|
            == |WhereHappened(ops, from, to, true)|
  {
    AskedAreIdentities(now, ops, from, to, true);
    AskedRows(RunOps(Seeded(now), ops).attempts.rows, from, to);
  }
}
