/** The security findings of the in-memory store: one finding per fingerprint, and pages of a listing. */
module Findings {
  import opened Domain
  import opened Tables
  import opened Sorting
  import opened Paging

  datatype FindingStatus = Open | Acknowledged | Resolved

  datatype Severity = Critical | High | Medium | Info

  /** What a detection carries: everything but the id. `detail` stands for the fields that are copied. */
  datatype Detail = Detail(ruleID: string, ruleVersion: string, severity: Severity, title: string, description: string,
                           fieldPath: string, fixHint: string, metadata: string)

  datatype Finding = Finding(fingerprint: Bytes, detail: Detail, status: FindingStatus, firstDetectedAt: Time,
                             lastDetectedAt: Time, resolvedAt: Option<Time>, updatedAt: Time)

  /** A first detection, with its unset times filled in. */
  function Detected(f: Finding, now: Time): Finding {
    var first := if f.firstDetectedAt == ZERO_TIME then now else f.firstDetectedAt;
    f.(firstDetectedAt := first,
       lastDetectedAt := if f.lastDetectedAt == ZERO_TIME then first else f.lastDetectedAt,
       updatedAt := if f.updatedAt == ZERO_TIME then now else f.updatedAt)
  }

  /** A stored finding that is detected again: it is reopened, and keeps its first detection. */
  function Redetected(row: Finding, f: Finding, now: Time): Finding {
    row.(detail := f.detail, lastDetectedAt := f.lastDetectedAt, updatedAt := now,
         status := if row.status == Resolved then Open else row.status,
         resolvedAt := if row.status == Resolved then None else row.resolvedAt)
  }

  /** What one detection does. An index entry without a row would swallow the detection. */
  function UpsertFinding(t: Table<Finding>, f: Finding, now: Time): Table<Finding> {
    if f.fingerprint in t.index then
      var i := IndexOf(t.rows, t.index[f.fingerprint]);
      if i < |t.rows| then t.(rows := t.rows[i := Row(t.rows[i].id, Redetected(t.rows[i].data, f, now))]) else t
    else
      Table(t.rows + [Row(t.next, Detected(f, now))], t.index[f.fingerprint := t.next], t.next + 1)
  }

  function UpsertFindings(t: Table<Finding>, fs: seq<Finding>, now: Time): Table<Finding> {
    if fs == [] then t else UpsertFinding(UpsertFindings(t, fs[..|fs| - 1], now), fs[|fs| - 1], now)
  }

  /** Every entry of the index leads to the finding of its fingerprint, and every finding has one. */
  ghost predicate Indexed(t: Table<Finding>) {
    && Sound(t, {}) && Dense(t)
    && forall k :: k in t.index ==> Lookup(t, k).Some? && Lookup(t, k).value.fingerprint == k
  }

  lemma EntryHasRow(t: Table<Finding>, k: Bytes)
    requires Dense(t) && k in t.index
    ensures Position(t, k) < |t.rows|
  {
    var i :| 0 <= i < |t.rows| && t.rows[i].id == t.index[k];
  }

  /** In an indexed table a detection is a plain upsert of its fingerprint. */
  lemma DetectionIsUpsert(t: Table<Finding>, f: Finding, now: Time)
    requires Indexed(t)
    ensures UpsertFinding(t, f, now)
         == Upsert(t, f.fingerprint, if f.fingerprint in t.index then f else Detected(f, now),
                   (row, input) => Redetected(row, input, now))
  {
    if f.fingerprint in t.index {
      EntryHasRow(t, f.fingerprint);
    }
  }

  /** A detection updates the finding of its own fingerprint and no other. */
  lemma DetectionMeans(t: Table<Finding>, f: Finding, now: Time, other: Bytes)
    requires Indexed(t)
    ensures var t' := UpsertFinding(t, f, now);
            && Lookup(t', f.fingerprint)
               == Some(match Lookup(t, f.fingerprint) case None => Detected(f, now) case Some(row) => Redetected(row, f, now))
            && (other != f.fingerprint ==> Lookup(t', other) == Lookup(t, other))
  {
    DetectionIsUpsert(t, f, now);
    var input := if f.fingerprint in t.index then f else Detected(f, now);
    UpsertRefinesMap(t, {}, f.fingerprint, input, (row, input) => Redetected(row, input, now), other);
    if f.fingerprint in t.index {
      EntryHasRow(t, f.fingerprint);
    }
  }

  /** What a detection writes, field by field: a new finding is stored as it arrives, with its unset times filled in;
      one that is known takes over the details, keeps its first detection, and is open again if it was resolved. */
  lemma DetectionWrites(t: Table<Finding>, f: Finding, now: Time)
    requires Indexed(t)
    ensures Lookup(UpsertFinding(t, f, now), f.fingerprint).Some?
    ensures var found := Lookup(UpsertFinding(t, f, now), f.fingerprint).value;
            && found.fingerprint == f.fingerprint && found.detail == f.detail
            && match Lookup(t, f.fingerprint)
               case None =>
                 && found.status == f.status && found.resolvedAt == f.resolvedAt
                 && (f.firstDetectedAt != ZERO_TIME ==> found.firstDetectedAt == f.firstDetectedAt)
                 && (f.firstDetectedAt == ZERO_TIME ==> found.firstDetectedAt == now)
                 && (f.lastDetectedAt != ZERO_TIME ==> found.lastDetectedAt == f.lastDetectedAt)
                 && (f.lastDetectedAt == ZERO_TIME ==> found.lastDetectedAt == found.firstDetectedAt)
                 && (f.updatedAt != ZERO_TIME ==> found.updatedAt == f.updatedAt)
                 && (f.updatedAt == ZERO_TIME ==> found.updatedAt == now)
               case Some(row) =>
                 && found.firstDetectedAt == row.firstDetectedAt && found.lastDetectedAt == f.lastDetectedAt
                 && found.updatedAt == now
                 && (row.status == Resolved ==> found.status == Open && found.resolvedAt == None)
                 && (row.status != Resolved ==> found.status == row.status && found.resolvedAt == row.resolvedAt)
  {
    DetectionMeans(t, f, now, f.fingerprint);
    if f.fingerprint in t.index {
      EntryHasRow(t, f.fingerprint);
    }
  }

  lemma DetectionKeepsIndexed(t: Table<Finding>, f: Finding, now: Time)
    requires Indexed(t)
    ensures Indexed(UpsertFinding(t, f, now))
  {
    var t' := UpsertFinding(t, f, now);
    var input := if f.fingerprint in t.index then f else Detected(f, now);
    DetectionIsUpsert(t, f, now);
    UpsertKeepsSound(t, {}, f.fingerprint, input, (row, input) => Redetected(row, input, now));
    UpsertKeepsDense(t, f.fingerprint, input, (row, input) => Redetected(row, input, now));
    forall k | k in t'.index ensures Lookup(t', k).Some? && Lookup(t', k).value.fingerprint == k {
      DetectionMeans(t, f, now, k);
    }
  }

  /** Any run of detections leaves one finding per fingerprint: the index and the findings correspond. */
  lemma {:induction false} DetectionsKeepIndexed(t: Table<Finding>, fs: seq<Finding>, now: Time)
    requires Indexed(t)
    ensures Indexed(UpsertFindings(t, fs, now))
  {
    if fs != [] {
      DetectionsKeepIndexed(t, fs[..|fs| - 1], now);
      DetectionKeepsIndexed(UpsertFindings(t, fs[..|fs| - 1], now), fs[|fs| - 1], now);
    }
  }

  /** No detection forgets when a finding was first detected. */
  lemma {:induction false} FirstDetectionIsKept(t: Table<Finding>, fs: seq<Finding>, now: Time, k: Bytes)
    requires Indexed(t) && Lookup(t, k).Some?
    ensures var found := Lookup(UpsertFindings(t, fs, now), k);
            found.Some? && found.value.firstDetectedAt == Lookup(t, k).value.firstDetectedAt
  {
    if fs != [] {
      var init, last := fs[..|fs| - 1], fs[|fs| - 1];
      FirstDetectionIsKept(t, init, now, k);
      DetectionsKeepIndexed(t, init, now);
      DetectionMeans(UpsertFindings(t, init, now), last, now, k);
    }
  }

  /** The detection arrives as it will be stored by a repetition: unresolved, with the time of its last
      detection, and updated now or at no set time. */
  predicate ArrivesComplete(f: Finding, now: Time) {
    && f.status != Resolved
    && (f.lastDetectedAt != ZERO_TIME || (f.firstDetectedAt == ZERO_TIME && now == ZERO_TIME))
    && (f.updatedAt == now || f.updatedAt == ZERO_TIME)
  }

  /** Repeating a detection at once changes nothing exactly when its finding was stored before, or arrives
      complete. */
  lemma DetectedTwiceIff(t: Table<Finding>, f: Finding, now: Time)
    requires Indexed(t)
    ensures UpsertFinding(UpsertFinding(t, f, now), f, now) == UpsertFinding(t, f, now)
            <==> f.fingerprint in t.index || ArrivesComplete(f, now)
  {
    if f.fingerprint in t.index {
      EntryHasRow(t, f.fingerprint);
      StoredTwice(t, f, now);
    } else {
      NewTwice(t, f, now);
    }
  }

  lemma StoredTwice(t: Table<Finding>, f: Finding, now: Time)
    requires Indexed(t) && f.fingerprint in t.index
    ensures UpsertFinding(UpsertFinding(t, f, now), f, now) == UpsertFinding(t, f, now)
  {
    var t' := UpsertFinding(t, f, now);
    EntryHasRow(t, f.fingerprint);
    DetectionKeepsIndexed(t, f, now);
    var i := Position(t, f.fingerprint);
    PositionIsUnique(t', {}, i, t.index[f.fingerprint]);
    assert t'.rows[i].data == Redetected(t.rows[i].data, f, now);
    assert t'.rows[i := t'.rows[i]] == t'.rows;
  }

  lemma NewTwice(t: Table<Finding>, f: Finding, now: Time)
    requires Indexed(t) && f.fingerprint !in t.index
    ensures UpsertFinding(UpsertFinding(t, f, now), f, now) == UpsertFinding(t, f, now) <==> ArrivesComplete(f, now)
  {
    var t' := UpsertFinding(t, f, now);
    var once := Detected(f, now);
    DetectionKeepsIndexed(t, f, now);
    DetectionMeans(t, f, now, f.fingerprint);
    DetectionMeans(t', f, now, f.fingerprint);
    PositionIsUnique(t', {}, |t.rows|, t.next);
    assert t'.rows[|t.rows|] == Row(t.next, once);
    assert UpsertFinding(t', f, now).rows[|t.rows|] == Row(t.next, Redetected(once, f, now));
  }

  /** The row that a detection writes and answers; none if the index entry dangles. */
  function Written(t: Table<Finding>, f: Finding, now: Time): seq<Row<Finding>> {
    if f.fingerprint in t.index then
      var i := IndexOf(t.rows, t.index[f.fingerprint]);
      if i < |t.rows| then [Row(t.rows[i].id, Redetected(t.rows[i].data, f, now))] else []
    else [Row(t.next, Detected(f, now))]
  }

  /** The answer to a series of detections. */
  function Answer(t: Table<Finding>, fs: seq<Finding>, now: Time): seq<Row<Finding>> {
    if fs == [] then []
    else
      var init, last := fs[..|fs| - 1], fs[|fs| - 1];
      Answer(t, init, now) + Written(UpsertFindings(t, init, now), last, now)
  }

  /** A detection is answered with the finding as it is then stored for the fingerprint. */
  lemma DetectionIsAnswered(t: Table<Finding>, f: Finding, now: Time)
    requires Indexed(t)
    ensures var answer := Written(t, f, now);
            |answer| == 1 && Lookup(UpsertFinding(t, f, now), f.fingerprint) == Some(answer[0].data)
  {
    DetectionMeans(t, f, now, f.fingerprint);
    if f.fingerprint in t.index {
      EntryHasRow(t, f.fingerprint);
    }
  }

  lemma {:induction false} AnswerIsComplete(t: Table<Finding>, fs: seq<Finding>, now: Time)
    requires Indexed(t)
    ensures |Answer(t, fs, now)| == |fs|
  {
    if fs != [] {
      var init := fs[..|fs| - 1];
      AnswerIsComplete(t, init, now);
      DetectionsKeepIndexed(t, init, now);
      DetectionIsAnswered(UpsertFindings(t, init, now), fs[|fs| - 1], now);
    }
  }

  lemma LastDetectionIsAnswered(t: Table<Finding>, fs: seq<Finding>, now: Time)
    requires Indexed(t) && fs != []
    ensures |Answer(t, fs, now)| == |fs|
    ensures Lookup(UpsertFindings(t, fs, now), fs[|fs| - 1].fingerprint) == Some(Answer(t, fs, now)[|fs| - 1].data)
  {
    var init := fs[..|fs| - 1];
    AnswerIsComplete(t, init, now);
    DetectionsKeepIndexed(t, init, now);
    DetectionIsAnswered(UpsertFindings(t, init, now), fs[|fs| - 1], now);
  }

  /** Every detection of a series is answered, in order, with the finding as it was stored then. */
  lemma {:induction false} EveryDetectionIsAnswered(t: Table<Finding>, fs: seq<Finding>, now: Time, i: nat)
    requires Indexed(t) && i < |fs|
    ensures |Answer(t, fs, now)| == |fs|
    ensures Lookup(UpsertFindings(t, fs[..i + 1], now), fs[i].fingerprint) == Some(Answer(t, fs, now)[i].data)
  {
    LastDetectionIsAnswered(t, fs, now);
    if i < |fs| - 1 {
      EveryDetectionIsAnswered(t, fs[..|fs| - 1], now, i);
      assert fs[..|fs| - 1][..i + 1] == fs[..i + 1];
    } else {
      assert fs[..i + 1] == fs;
    }
  }

  lemma OneMoreDetection(t: Table<Finding>, fs: seq<Finding>, i: nat, now: Time)
    requires i < |fs|
    ensures UpsertFindings(t, fs[..i + 1], now) == UpsertFinding(UpsertFindings(t, fs[..i], now), fs[i], now)
    ensures Answer(t, fs[..i + 1], now)
         == Answer(t, fs[..i], now) + Written(UpsertFindings(t, fs[..i], now), fs[i], now)
  {
    assert fs[..i + 1][..i] == fs[..i];
  }

  datatype Filter = Filter(statuses: seq<FindingStatus>, severities: seq<Severity>, ascending: bool, page: int, pageSize: int)
  {
    predicate Admits(f: Finding) {
      (|statuses| > 0 ==> f.status in statuses) && (|severities| > 0 ==> f.detail.severity in severities)
    }
  }

  /** Earlier detections first, and ids first among equals; or the reverse. */
  predicate Before(ascending: bool, a: Row<Finding>, b: Row<Finding>) {
    var t, u := a.data.lastDetectedAt, b.data.lastDetectedAt;
    if ascending then t < u || (t == u && a.id <= b.id) else t > u || (t == u && a.id >= b.id)
  }

  function ByDetection(ascending: bool): (Row<Finding>, Row<Finding>) -> bool {
    (a: Row<Finding>, b: Row<Finding>) => Before(ascending, a, b)
  }

  function Admitted(rows: seq<Row<Finding>>, filter: Filter): seq<Row<Finding>> {
    if rows == [] then []
    else Admitted(rows[..|rows| - 1], filter) + if filter.Admits(rows[|rows| - 1].data) then [rows[|rows| - 1]] else []
  }

  ghost predicate IsListing(listing: seq<Row<Finding>>, rows: seq<Row<Finding>>, filter: Filter) {
    Ordered(ByDetection(filter.ascending), listing) && multiset(listing) == multiset(Admitted(rows, filter))
  }

  lemma {:induction false} AdmittedAreRows(rows: seq<Row<Finding>>, filter: Filter, r: Row<Finding>)
    requires r in Admitted(rows, filter)
    ensures r in rows
  {
    if rows != [] && r in Admitted(rows[..|rows| - 1], filter) {
      AdmittedAreRows(rows[..|rows| - 1], filter, r);
    }
  }

  lemma {:induction false} AdmittedMeans(rows: seq<Row<Finding>>, filter: Filter, r: Row<Finding>)
    ensures r in Admitted(rows, filter) <==>
              && r in rows
              && (filter.statuses == [] || r.data.status in filter.statuses)
              && (filter.severities == [] || r.data.detail.severity in filter.severities)
  {
    if rows != [] {
      AdmittedMeans(rows[..|rows| - 1], filter, r);
    }
  }

  /** A listing has the findings of the statuses and severities asked for, an empty list standing for all, ordered by
      their last detection, and by id among equals. */
  lemma ListingMeans(listing: seq<Row<Finding>>, rows: seq<Row<Finding>>, filter: Filter)
    requires IsListing(listing, rows, filter)
    ensures forall r :: r in listing <==>
              && r in rows
              && (filter.statuses == [] || r.data.status in filter.statuses)
              && (filter.severities == [] || r.data.detail.severity in filter.severities)
    ensures forall i, j :: 0 <= i < j < |listing| ==>
              var a, b := listing[i], listing[j];
              var (t, u) := if filter.ascending then (a.data.lastDetectedAt, b.data.lastDetectedAt)
                            else (b.data.lastDetectedAt, a.data.lastDetectedAt);
              t < u || (t == u && if filter.ascending then a.id <= b.id else b.id <= a.id)
  {
    SameElements(listing, Admitted(rows, filter));
    forall r ensures r in listing <==>
              && r in rows
              && (filter.statuses == [] || r.data.status in filter.statuses)
              && (filter.severities == [] || r.data.detail.severity in filter.severities)
    {
      AdmittedMeans(rows, filter, r);
    }
    assert forall i, j :: 0 <= i < j < |listing| ==> ByDetection(filter.ascending)(listing[i], listing[j]);
  }

  /** In an ordered listing of rows with distinct ids, the first row is determined. */
  lemma FirstIsDetermined(ascending: bool, a: seq<Row<Finding>>, b: seq<Row<Finding>>)
    requires a != [] && b != [] && multiset(a) == multiset(b)
    requires Ordered(ByDetection(ascending), a) && Ordered(ByDetection(ascending), b)
    requires forall r, r' :: r in a && r' in a && r.id == r'.id ==> r == r'
    ensures a[0] == b[0]
  {
    SameElements(a, b);
    assert a[0] in b && b[0] in a;
    var i :| 0 <= i < |b| && b[i] == a[0];
    var j :| 0 <= j < |a| && a[j] == b[0];
    assert i > 0 ==> ByDetection(ascending)(b[0], b[i]);
    assert j > 0 ==> ByDetection(ascending)(a[0], a[j]);
  }

  lemma TailsMatch<T>(a: seq<T>, b: seq<T>)
    requires a != [] && b != [] && multiset(a) == multiset(b) && a[0] == b[0]
    ensures multiset(a[1..]) == multiset(b[1..])
  {
    assert a == [a[0]] + a[1..] && b == [b[0]] + b[1..];
    assert multiset(a[1..]) == multiset(a) - multiset{a[0]};
  }

  lemma TailIsOrdered(ascending: bool, a: seq<Row<Finding>>)
    requires a != [] && Ordered(ByDetection(ascending), a)
    ensures Ordered(ByDetection(ascending), a[1..])
  {
  }

  lemma {:induction false} OrderedIsDetermined(ascending: bool, a: seq<Row<Finding>>, b: seq<Row<Finding>>)
    requires multiset(a) == multiset(b)
    requires Ordered(ByDetection(ascending), a) && Ordered(ByDetection(ascending), b)
    requires forall r, r' :: r in a && r' in a && r.id == r'.id ==> r == r'
    ensures a == b
    decreases |a|
  {
    SameElements(a, b);
    if a != [] {
      FirstIsDetermined(ascending, a, b);
      TailsMatch(a, b);
      TailIsOrdered(ascending, a);
      TailIsOrdered(ascending, b);
      OrderedIsDetermined(ascending, a[1..], b[1..]);
    }
  }

  /** The listing is determined by the findings and the filter, whatever the sort does with its input. */
  lemma ListingIsDetermined(rows: seq<Row<Finding>>, filter: Filter, a: seq<Row<Finding>>, b: seq<Row<Finding>>)
    requires UniqueIds(rows) && IsListing(a, rows, filter) && IsListing(b, rows, filter)
    ensures a == b
  {
    SameElements(a, Admitted(rows, filter));
    forall r, r' | r in a && r' in a && r.id == r'.id ensures r == r' {
      AdmittedAreRows(rows, filter, r);
      AdmittedAreRows(rows, filter, r');
    }
    OrderedIsDetermined(filter.ascending, a, b);
  }

  /** The page that the filter asks for, of a listing of the rows. */
  ghost predicate IsPage(page: seq<Row<Finding>>, rows: seq<Row<Finding>>, filter: Filter) {
    exists listing :: IsListing(listing, rows, filter) && page == Paginate(listing, filter.page, filter.pageSize)
  }

  lemma PageIsDetermined(rows: seq<Row<Finding>>, filter: Filter, page: seq<Row<Finding>>, page': seq<Row<Finding>>)
    requires UniqueIds(rows) && IsPage(page, rows, filter) && IsPage(page', rows, filter)
    ensures page == page'
  {
    var a :| IsListing(a, rows, filter) && page == Paginate(a, filter.page, filter.pageSize);
    var b :| IsListing(b, rows, filter) && page' == Paginate(b, filter.page, filter.pageSize);
    ListingIsDetermined(rows, filter, a, b);
  }

  /** The findings of the store. */
  class FindingStore {
    var securityFindings: seq<Row<Finding>>
    var securityFindingByFingerprint: map<Bytes, int>
    var nextSecurityFindingID: int

    ghost function Findings(): Table<Finding>
      reads this
    {
      Table(securityFindings, securityFindingByFingerprint, nextSecurityFindingID)
    }

    ghost predicate Valid()
      reads this
    {
      Indexed(Findings())
    }

    constructor ()
      ensures Valid() && Findings() == Table([], map[], 1)
    {
      securityFindings, securityFindingByFingerprint, nextSecurityFindingID := [], map[], 1;
    }

    /** Stores one detection. */
    method UpsertOne(finding: Finding, now: Time) returns (persisted: seq<Row<Finding>>)
      modifies this
      ensures Findings() == UpsertFinding(old(Findings()), finding, now)
      ensures persisted == Written(old(Findings()), finding, now)
    {
      if finding.fingerprint in securityFindingByFingerprint {
        var id, i := securityFindingByFingerprint[finding.fingerprint], 0;
        while i < |securityFindings| && securityFindings[i].id != id
          invariant 0 <= i <= IndexOf(securityFindings, id)
        {
          i := i + 1;
        }
        if i == |securityFindings| {
          return [];
        }
        var existing := Row(id, Redetected(securityFindings[i].data, finding, now));
        securityFindings := securityFindings[i := existing];
        return [existing];
      }
      var row := Row(nextSecurityFindingID, Detected(finding, now));
      nextSecurityFindingID := nextSecurityFindingID + 1;
      securityFindings := securityFindings + [row];
      securityFindingByFingerprint := securityFindingByFingerprint[finding.fingerprint := row.id];
      return [row];
    }

    /** Stores the detections one after the other, and answers each as it was stored. */
    method UpsertSecurityFindings(findings: seq<Finding>, now: Time) returns (persisted: seq<Row<Finding>>)
      requires Valid()
      modifies this
      ensures Valid()
      ensures Findings() == UpsertFindings(old(Findings()), findings, now)
      ensures persisted == Answer(old(Findings()), findings, now) && |persisted| == |findings|
    {
      persisted := [];
      for i := 0 to |findings|
        invariant Findings() == UpsertFindings(old(Findings()), findings[..i], now)
        invariant persisted == Answer(old(Findings()), findings[..i], now)
      {
        OneMoreDetection(old(Findings()), findings, i, now);
        var stored := UpsertOne(findings[i], now);
        persisted := persisted + stored;
      }
      assert findings[..|findings|] == findings;
      DetectionsKeepIndexed(old(Findings()), findings, now);
      AnswerIsComplete(old(Findings()), findings, now);
    }

    /** A page of the listing. */
    method ListSecurityFindings(filter: Filter) returns (page: seq<Row<Finding>>)
      ensures IsPage(page, securityFindings, filter)
    {
      var filtered := [];
      for i := 0 to |securityFindings|
        invariant filtered == Admitted(securityFindings[..i], filter)
      {
        assert securityFindings[..i + 1][..i] == securityFindings[..i];
        if filter.Admits(securityFindings[i].data) {
          filtered := filtered + [securityFindings[i]];
        }
      }
      assert securityFindings[..|securityFindings|] == securityFindings;
      var sorted := Sort(filtered, ByDetection(filter.ascending));
      page := Paginate(sorted, filter.page, filter.pageSize);
    }
  }
}
