/** The shape shared by the in-memory store's row slices: rows with ids, an index from encoded identities
    to ids, and the next id. Retention removes rows and leaves the index behind. */
module Tables {
  import opened Domain

  datatype Row<T> = Row(id: int, data: T)

  datatype Table<T> = Table(rows: seq<Row<T>>, index: map<Bytes, int>, next: int)

  /** The position of the first row with this id, or the number of rows. */
  function IndexOf<T>(rows: seq<Row<T>>, id: int): (i: nat)
    ensures i <= |rows|
    ensures i < |rows| ==> rows[i].id == id
    ensures forall j :: 0 <= j < i ==> rows[j].id != id
  {
    if rows == [] || rows[0].id == id then 0 else 1 + IndexOf(rows[1..], id)
  }

  /** Where the row of an identity is, or the number of rows if it has none. */
  function Position<T>(t: Table<T>, key: Bytes): (i: nat)
    ensures i <= |t.rows|
  {
    if key in t.index then IndexOf(t.rows, t.index[key]) else |t.rows|
  }

  /** Merges `input` into the row of `key`, or appends it as a new row. */
  function Upsert<T>(t: Table<T>, key: Bytes, input: T, merge: (T, T) -> T): Table<T> {
    var i := Position(t, key);
    if i < |t.rows| then t.(rows := t.rows[i := Row(t.rows[i].id, merge(t.rows[i].data, input))])
    else Table(t.rows + [Row(t.next, input)], t.index[key := t.next], t.next + 1)
  }

  /** The id of the row that an upsert of `key` writes. */
  function UpsertId<T>(t: Table<T>, key: Bytes): int {
    var i := Position(t, key);
    if i < |t.rows| then t.rows[i].id else t.next
  }

  /** The data stored for an identity. */
  function Lookup<T>(t: Table<T>, key: Bytes): Option<T> {
    var i := Position(t, key);
    if i < |t.rows| then Some(t.rows[i].data) else None
  }

  function Ids<T>(t: Table<T>): set<int> {
    set i | 0 <= i < |t.rows| :: t.rows[i].id
  }

  ghost predicate UniqueIds<T>(rows: seq<Row<T>>) {
    forall i, j :: 0 <= i < j < |rows| ==> rows[i].id != rows[j].id
  }

  /** Ids are unique and below the next id; identities are mapped to distinct ids below it; and every
      row but the seeded ones belongs to an identity. */
  ghost predicate Sound<T>(t: Table<T>, seeds: set<int>) {
    && UniqueIds(t.rows)
    && (forall i :: 0 <= i < |t.rows| ==> t.rows[i].id < t.next)
    && (forall k :: k in t.index ==> t.index[k] < t.next && t.index[k] !in seeds)
    && (forall k, k' :: k in t.index && k' in t.index && k != k' ==> t.index[k] != t.index[k'])
    && (forall i :: 0 <= i < |t.rows| ==> t.rows[i].id in seeds || t.rows[i].id in t.index.Values)
    && (forall id :: id in seeds ==> id < t.next)
  }

  /** No index entry dangles. */
  ghost predicate Dense<T>(t: Table<T>) {
    forall k :: k in t.index ==> t.index[k] in Ids(t)
  }

  lemma PositionIsUnique<T>(t: Table<T>, seeds: set<int>, i: nat, id: int)
    requires Sound(t, seeds) && i < |t.rows| && t.rows[i].id == id
    ensures IndexOf(t.rows, id) == i
  {
    assert t.rows[IndexOf(t.rows, id)].id == id;
  }

  lemma AppendKeepsSound<T>(t: Table<T>, seeds: set<int>, key: Bytes, input: T)
    requires Sound(t, seeds) && Position(t, key) == |t.rows|
    ensures Sound(Table(t.rows + [Row(t.next, input)], t.index[key := t.next], t.next + 1), seeds)
  {
    var index := t.index[key := t.next];
    assert key in index;
    assert key in t.index ==> forall j :: 0 <= j < |t.rows| ==> t.rows[j].id != t.index[key];
    forall i | 0 <= i < |t.rows| ensures t.rows[i].id in seeds || t.rows[i].id in index.Values {
      if t.rows[i].id !in seeds {
        var k :| k in t.index && t.index[k] == t.rows[i].id;
        assert k in index;
      }
    }
  }

  /** Any upsert keeps the table sound, also when the index entry of its identity dangles. */
  lemma UpsertKeepsSound<T>(t: Table<T>, seeds: set<int>, key: Bytes, input: T, merge: (T, T) -> T)
    requires Sound(t, seeds)
    ensures Sound(Upsert(t, key, input, merge), seeds)
  {
    if Position(t, key) == |t.rows| {
      AppendKeepsSound(t, seeds, key, input);
    } else {
      var t' := Upsert(t, key, input, merge);
      assert forall i :: 0 <= i < |t.rows| ==> t'.rows[i].id == t.rows[i].id;
    }
  }

  lemma UpsertIds<T>(t: Table<T>, key: Bytes, input: T, merge: (T, T) -> T)
    ensures Ids(Upsert(t, key, input, merge)) == Ids(t) + {UpsertId(t, key)}
  {
    var t' := Upsert(t, key, input, merge);
    var i := Position(t, key);
    assert t'.rows[i].id == UpsertId(t, key);
    assert forall j :: 0 <= j < |t.rows| ==> t'.rows[j].id == t.rows[j].id;
    forall id | id in Ids(t) ensures id in Ids(t') {
      var j :| 0 <= j < |t.rows| && t.rows[j].id == id;
      assert t'.rows[j].id == id;
    }
  }

  lemma UpsertKeepsDense<T>(t: Table<T>, key: Bytes, input: T, merge: (T, T) -> T)
    requires Dense(t)
    ensures Dense(Upsert(t, key, input, merge))
  {
    UpsertIds(t, key, input, merge);
  }

  /** The written row is where its identity points to. */
  lemma UpsertPosition<T>(t: Table<T>, seeds: set<int>, key: Bytes, input: T, merge: (T, T) -> T)
    requires Sound(t, seeds)
    ensures Position(Upsert(t, key, input, merge), key) == Position(t, key)
  {
    UpsertKeepsSound(t, seeds, key, input, merge);
    var t' := Upsert(t, key, input, merge);
    PositionIsUnique(t', seeds, Position(t, key), UpsertId(t, key));
  }

  /** The table refines a map from identities to data: an upsert changes the entry of its own identity
      and no other. */
  lemma UpsertRefinesMap<T>(t: Table<T>, seeds: set<int>, key: Bytes, input: T, merge: (T, T) -> T, other: Bytes)
    requires Sound(t, seeds)
    ensures var t' := Upsert(t, key, input, merge);
            && Lookup(t', key) == Some(match Lookup(t, key) case None => input case Some(row) => merge(row, input))
            && (other != key ==> Lookup(t', other) == Lookup(t, other))
  {
    UpsertPosition(t, seeds, key, input, merge);
    if other != key {
      OtherPositionKept(t, seeds, key, input, merge, other);
    }
  }

  lemma OtherPositionKept<T>(t: Table<T>, seeds: set<int>, key: Bytes, input: T, merge: (T, T) -> T, other: Bytes)
    requires Sound(t, seeds) && other != key
    ensures Lookup(Upsert(t, key, input, merge), other) == Lookup(t, other)
  {
    var t' := Upsert(t, key, input, merge);
    UpsertKeepsSound(t, seeds, key, input, merge);
    if other in t.index {
      var id := t.index[other];
      var i, j := IndexOf(t.rows, id), IndexOf(t'.rows, id);
      if i < |t.rows| {
        assert t'.rows[i].id == id;
        PositionIsUnique(t', seeds, i, id);
      } else {
        assert forall n :: 0 <= n < |t'.rows| ==> t'.rows[n].id != id;
      }
    }
  }

  /** Replaying an upsert changes nothing, whatever happened to the row before the first time. */
  lemma UpsertIsIdempotent<T>(t: Table<T>, seeds: set<int>, key: Bytes, input: T, merge: (T, T) -> T)
    requires Sound(t, seeds)
    requires merge(input, input) == input
    requires forall row :: merge(merge(row, input), input) == merge(row, input)
    ensures Upsert(Upsert(t, key, input, merge), key, input, merge) == Upsert(t, key, input, merge)
    ensures UpsertId(Upsert(t, key, input, merge), key) == UpsertId(t, key)
  {
    UpsertPosition(t, seeds, key, input, merge);
  }
}
