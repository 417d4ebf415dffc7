/** Dashboard figures over the stored attempts: the bucketed series and the summary. */
module Timeseries {
  import opened Domain
  import opened Tables
  import opened Sorting
  import opened Rows
  import Merge

  datatype Metric = Requests | Tokens | Cost | Errors | UnknownMetric

  datatype Bucket = OneMinute | FiveMinutes | OneHour | OneDay | UnknownBucket

  datatype Point = Point(start: Time, value: real)

  function BucketDuration(bucket: Bucket): Option<Duration> {
    match bucket
    case OneMinute => Some(MINUTE)
    case FiveMinutes => Some(5 * MINUTE)
    case OneHour => Some(HOUR)
    case OneDay => Some(24 * HOUR)
    case UnknownBucket => None
  }

  /** Go's integer division, which truncates toward zero. */
  function TruncDiv(a: int, b: int): int
    requires b > 0
  {
    if a >= 0 then a / b else -((-a) / b)
  }

  /** Whole seconds since the epoch, rounded down. */
  function UnixSeconds(t: Time): int {
    t / SECOND
  }

  function FloorTime(t: Time, d: Duration): Time {
    var seconds := TruncDiv(d, SECOND);
    if seconds <= 0 then t else TruncDiv(UnixSeconds(t), seconds) * seconds * SECOND
  }

  lemma ProductsAreOrdered(a: int, b: int, n: int)
    requires a <= b && n >= 0
    ensures a * n <= b * n
  {
    var gap := b - a;
    assert gap * n >= 0;
    assert b * n == a * n + gap * n;
  }

  lemma FactorIsAtMost(a: int, b: int, n: int)
    requires n > 0 && a * n < b * n + n
    ensures a <= b
  {
    assert (b + 1) * n == b * n + n;
    if a > b {
      ProductsAreOrdered(b + 1, a, n);
    }
  }

  lemma QuotientBounds(f: int, b: int)
    requires b > 0
    ensures (f / b) * b <= f < (f / b) * b + b
  {
  }

  lemma QuotientIs(f: int, b: int, q: int)
    requires b > 0 && q * b <= f < q * b + b
    ensures f / b == q
  {
    QuotientBounds(f, b);
    FactorIsAtMost(f / b, q, b);
    FactorIsAtMost(q, f / b, b);
  }

  lemma NegatedProduct(k: int, n: int)
    ensures (-k) * n == -(k * n)
  {
  }

  lemma ExactNegation(x: int, n: int, q: int)
    requires n > 0 && q * n <= -x < q * n + n
    ensures q * n == -x <==> x % n == 0
  {
    if q * n == -x {
      NegatedProduct(q, n);
      QuotientIs(x, n, -q);
    }
    if x % n == 0 {
      var r := x / n;
      NegatedProduct(r, n);
      assert r * n == x;
      QuotientIs(-x, n, -r);
      QuotientIs(-x, n, q);
    }
  }

  /** Truncated division rounds down from zero on, and up before it unless it is exact. */
  lemma TruncatedMultiple(x: int, n: int)
    requires n > 0
    ensures x >= 0 ==> TruncDiv(x, n) * n <= x < TruncDiv(x, n) * n + n
    ensures x < 0 ==> x <= TruncDiv(x, n) * n < x + n && (TruncDiv(x, n) * n == x <==> x % n == 0)
  {
    if x >= 0 {
      QuotientBounds(x, n);
    } else {
      var q := (-x) / n;
      QuotientBounds(-x, n);
      NegatedProduct(q, n);
      ExactNegation(x, n, q);
    }
  }

  /** The bucket length in seconds. */
  function BucketSeconds(bucket: Bucket): int
    requires bucket != UnknownBucket
  {
    match bucket
    case OneMinute => 60
    case FiveMinutes => 300
    case OneHour => 3600
    case OneDay => 86400
  }

  lemma FloorInSeconds(t: Time, bucket: Bucket)
    requires bucket != UnknownBucket
    ensures var n, d := BucketSeconds(bucket), BucketDuration(bucket).value;
            d == n * SECOND && FloorTime(t, d) == TruncDiv(UnixSeconds(t), n) * n * SECOND
  {
  }

  /** A bucket contains the attempts that it counts exactly for times from the epoch on, and before it
      only when the second is a bucket boundary: earlier times are rounded up. */
  lemma BucketContainsIff(t: Time, bucket: Bucket)
    requires bucket != UnknownBucket
    ensures var d := BucketDuration(bucket).value;
            FloorTime(t, d) <= t < FloorTime(t, d) + d
            <==> UnixSeconds(t) >= 0 || UnixSeconds(t) % BucketSeconds(bucket) == 0
  {
    FloorInSeconds(t, bucket);
    TruncatedMultiple(UnixSeconds(t), BucketSeconds(bucket));
  }

  /** Bucket `coarse` consists of whole buckets `fine`. */
  predicate Refines(fine: Bucket, coarse: Bucket) {
    match fine
    case OneMinute => coarse != UnknownBucket
    case FiveMinutes => coarse != UnknownBucket && coarse != OneMinute
    case OneHour => coarse == OneHour || coarse == OneDay
    case OneDay => coarse == OneDay
    case UnknownBucket => false
  }

  lemma QuotientAtLeast(x: int, n: int, k: int)
    requires n > 0 && k * n <= x
    ensures k * n <= (x / n) * n
  {
    QuotientBounds(x, n);
    FactorIsAtMost(k, x / n, n);
    ProductsAreOrdered(k, x / n, n);
  }

  lemma DivideInTwoSteps(x: nat, n: int, m: int, b: int)
    requires n > 0 && m > 0 && b == m * n && b > 0
    ensures ((x / n) * n) / b == x / b
  {
    var q := x / b;
    QuotientBounds(x, b);
    QuotientBounds(x, n);
    assert (q * m) * n == q * b;
    QuotientAtLeast(x, n, q * m);
    QuotientIs((x / n) * n, b, q);
  }

  lemma TruncatedNegation(f: int, b: int)
    requires f >= 0 && b > 0
    ensures TruncDiv(-f, b) == -(f / b)
  {
    if f == 0 {
      QuotientIs(0, b, 0);
    }
  }

  lemma TruncateTwiceFromZeroOn(x: int, n: int, f: int, b: int)
    requires x >= 0 && n > 0 && b > 0 && f == (x / n) * n && f >= 0 && f / b == x / b
    ensures TruncDiv(TruncDiv(x, n) * n, b) == TruncDiv(x, b)
  {
  }

  lemma TruncateTwiceBelowZero(x: int, n: int, f: int, b: int)
    requires x < 0 && n > 0 && b > 0 && f == ((-x) / n) * n && f >= 0 && f / b == (-x) / b
    ensures TruncDiv(TruncDiv(x, n) * n, b) == TruncDiv(x, b)
  {
    NegatedProduct((-x) / n, n);
    TruncatedNegation(f, b);
  }

  lemma TruncateInTwoSteps(x: int, n: int, m: int, b: int)
    requires n > 0 && m > 0 && b == m * n && b > 0
    ensures TruncDiv(TruncDiv(x, n) * n, b) == TruncDiv(x, b)
  {
    var y: nat := if x >= 0 then x else -x;
    DivideInTwoSteps(y, n, m, b);
    ProductsAreOrdered(0, y / n, n);
    if x >= 0 {
      TruncateTwiceFromZeroOn(x, n, (y / n) * n, b);
    } else {
      TruncateTwiceBelowZero(x, n, (y / n) * n, b);
    }
  }

  /** Rounding to a fine bucket first does not change the coarse bucket, also before the epoch. */
  lemma FloorComposes(t: Time, fine: Bucket, coarse: Bucket)
    requires Refines(fine, coarse)
    ensures FloorTime(FloorTime(t, BucketDuration(fine).value), BucketDuration(coarse).value)
         == FloorTime(t, BucketDuration(coarse).value)
  {
    var n, n' := BucketSeconds(fine), BucketSeconds(coarse);
    var floor := FloorTime(t, BucketDuration(fine).value);
    FloorInSeconds(t, fine);
    FloorInSeconds(t, coarse);
    FloorInSeconds(floor, coarse);
    assert UnixSeconds(floor) == TruncDiv(UnixSeconds(t), n) * n;
    assert n' == (n' / n) * n && n' / n > 0;
    TruncateInTwoSteps(UnixSeconds(t), n, n' / n, n');
  }

  predicate InRange(a: Attempt, from: Time, to: Time) {
    from <= a.createdAt <= to
  }

  /** The attempt contributes to the metric. */
  predicate Counts(metric: Metric, a: Attempt) {
    match metric
    case Errors => !a.success
    case UnknownMetric => false
    case _ => true
  }

  function Weight(metric: Metric, a: Attempt): real {
    match metric
    case Tokens => (a.tokensIn + a.tokensOut) as real
    case Cost => a.costUSD
    case _ => 1.0
  }

  datatype Query = Query(metric: Metric, from: Time, to: Time)
  {
    predicate Selects(a: Attempt) {
      InRange(a, from, to) && Counts(metric, a)
    }
  }

  /** The metric of the selected attempts whose creation time satisfies `at`, added up. */
  function WeightIf(rows: seq<Row<Attempt>>, q: Query, at: Time -> bool): real {
    if rows == [] then 0.0
    else
      var last := rows[|rows| - 1].data;
      WeightIf(rows[..|rows| - 1], q, at) + if q.Selects(last) && at(last.createdAt) then Weight(q.metric, last) else 0.0
  }

  function InBucket(d: Duration, start: Time): Time -> bool {
    (t: Time) => FloorTime(t, d) == start
  }

  function Always(): Time -> bool {
    (t: Time) => true
  }

  function Starts(rows: seq<Row<Attempt>>, q: Query, d: Duration): set<Time> {
    set i | 0 <= i < |rows| && q.Selects(rows[i].data) :: FloorTime(rows[i].data.createdAt, d)
  }

  predicate Ascending(points: seq<Point>) {
    forall i, j :: 0 <= i < j < |points| ==> points[i].start < points[j].start
  }

  function PointStarts(points: seq<Point>): set<Time> {
    set i | 0 <= i < |points| :: points[i].start
  }

  /** One point for each bucket with a selected attempt, in ascending order, with the bucket's total. */
  ghost predicate IsSeries(points: seq<Point>, rows: seq<Row<Attempt>>, q: Query, d: Duration) {
    && Ascending(points)
    && PointStarts(points) == Starts(rows, q, d)
    && forall i :: 0 <= i < |points| ==> points[i].value == WeightIf(rows, q, InBucket(d, points[i].start))
  }

  lemma WeightOfAppend(rows: seq<Row<Attempt>>, row: Row<Attempt>, q: Query, at: Time -> bool)
    ensures WeightIf(rows + [row], q, at)
         == WeightIf(rows, q, at) + if q.Selects(row.data) && at(row.data.createdAt) then Weight(q.metric, row.data) else 0.0
  {
    assert (rows + [row])[..|rows|] == rows;
  }

  lemma {:induction false} EmptyBucketWeighsNothing(rows: seq<Row<Attempt>>, q: Query, d: Duration, start: Time)
    requires start !in Starts(rows, q, d)
    ensures WeightIf(rows, q, InBucket(d, start)) == 0.0
  {
    if rows != [] {
      var init := rows[..|rows| - 1];
      assert forall i :: 0 <= i < |init| ==> init[i] == rows[i];
      EmptyBucketWeighsNothing(init, q, d, start);
    }
  }

  lemma StartsOfAppend(rows: seq<Row<Attempt>>, row: Row<Attempt>, q: Query, d: Duration)
    ensures Starts(rows + [row], q, d)
         == Starts(rows, q, d) + if q.Selects(row.data) then {FloorTime(row.data.createdAt, d)} else {}
  {
    var more := rows + [row];
    assert more[|rows|] == row;
    assert forall i :: 0 <= i < |rows| ==> more[i] == rows[i];
  }

  /** The source's accumulation of one map entry per bucket. */
  method FillBuckets(rows: seq<Row<Attempt>>, q: Query, d: Duration) returns (buckets: map<Time, real>)
    ensures buckets.Keys == Starts(rows, q, d)
    ensures forall s :: s in buckets ==> buckets[s] == WeightIf(rows, q, InBucket(d, s))
  {
    buckets := map[];
    for i := 0 to |rows|
      invariant buckets.Keys == Starts(rows[..i], q, d)
      invariant forall s :: s in buckets ==> buckets[s] == WeightIf(rows[..i], q, InBucket(d, s))
    {
      var a := rows[i].data;
      assert rows[..i + 1] == rows[..i] + [rows[i]];
      StartsOfAppend(rows[..i], rows[i], q, d);
      forall s ensures WeightIf(rows[..i + 1], q, InBucket(d, s)) == WeightIf(rows[..i], q, InBucket(d, s))
        + if q.Selects(a) && FloorTime(a.createdAt, d) == s then Weight(q.metric, a) else 0.0
      {
        WeightOfAppend(rows[..i], rows[i], q, InBucket(d, s));
      }
      if InRange(a, q.from, q.to) && Counts(q.metric, a) {
        var start := FloorTime(a.createdAt, d);
        if start !in buckets {
          EmptyBucketWeighsNothing(rows[..i], q, d, start);
        }
        var value := if start in buckets then buckets[start] else 0.0;
        buckets := buckets[start := value + Weight(q.metric, a)];
      }
    }
    assert rows[..|rows|] == rows;
  }

  function ByStart(): (Point, Point) -> bool {
    (p: Point, r: Point) => p.start <= r.start
  }

  /** The points of a series, ascending; nothing for an unknown bucket. */
  method GetTimeseries(rows: seq<Row<Attempt>>, q: Query, bucket: Bucket) returns (points: Option<seq<Point>>)
    ensures points.None? <==> bucket == UnknownBucket
    ensures points.Some? ==> IsSeries(points.value, rows, q, BucketDuration(bucket).value)
  {
    var d := BucketDuration(bucket);
    if d.None? {
      return None;
    }
    var buckets := FillBuckets(rows, q, d.value);
    var unsorted: seq<Point> := [];
    var todo := buckets.Keys;
    while todo != {}
      invariant todo <= buckets.Keys
      invariant forall i, j :: 0 <= i < j < |unsorted| ==> unsorted[i].start != unsorted[j].start
      invariant forall i :: 0 <= i < |unsorted| ==>
                  unsorted[i].start in buckets && unsorted[i].start !in todo && unsorted[i].value == buckets[unsorted[i].start]
      invariant forall s :: s in buckets && s !in todo ==> Point(s, buckets[s]) in unsorted
      decreases todo
    {
      var s :| s in todo;
      todo := todo - {s};
      unsorted := unsorted + [Point(s, buckets[s])];
    }
    var sorted := Sort(unsorted, ByStart());
    SortedPoints(unsorted, sorted, buckets);
    points := Some(sorted);
  }

  lemma SortedPoints(unsorted: seq<Point>, sorted: seq<Point>, buckets: map<Time, real>)
    requires multiset(sorted) == multiset(unsorted) && Ordered(ByStart(), sorted)
    requires forall i, j :: 0 <= i < j < |unsorted| ==> unsorted[i].start != unsorted[j].start
    requires forall i :: 0 <= i < |unsorted| ==> unsorted[i].start in buckets && unsorted[i].value == buckets[unsorted[i].start]
    requires forall s :: s in buckets ==> Point(s, buckets[s]) in unsorted
    ensures Ascending(sorted) && PointStarts(sorted) == buckets.Keys
    ensures forall i :: 0 <= i < |sorted| ==> sorted[i].start in buckets && sorted[i].value == buckets[sorted[i].start]
  {
    SameElements(unsorted, sorted);
    SortedStaysDistinct(unsorted, sorted);
    forall i | 0 <= i < |sorted|
      ensures sorted[i].start in buckets && sorted[i].value == buckets[sorted[i].start]
    {
      assert sorted[i] in unsorted;
    }
    forall i, j | 0 <= i < j < |sorted| ensures sorted[i].start < sorted[j].start {
      assert ByStart()(sorted[i], sorted[j]) && sorted[i] != sorted[j];
    }
    forall s | s in buckets ensures s in PointStarts(sorted) {
      assert Point(s, buckets[s]) in sorted;
    }
  }

  /** The values of the points whose start satisfies `keep`, added up. */
  function SumIf(points: seq<Point>, keep: Time -> bool): real {
    if points == [] then 0.0
    else SumIf(points[..|points| - 1], keep)
         + if keep(points[|points| - 1].start) then points[|points| - 1].value else 0.0
  }

  function Through(d: Duration, keep: Time -> bool): Time -> bool {
    (t: Time) => keep(FloorTime(t, d))
  }

  /** Re-evaluates the points at their own starts over other rows. */
  function Reweigh(points: seq<Point>, rows: seq<Row<Attempt>>, q: Query, d: Duration): seq<Point> {
    seq(|points|, i requires 0 <= i < |points| => Point(points[i].start, WeightIf(rows, q, InBucket(d, points[i].start))))
  }

  lemma ReweighPrefix(points: seq<Point>, rows: seq<Row<Attempt>>, q: Query, d: Duration)
    requires points != []
    ensures Reweigh(points, rows, q, d)[..|points| - 1] == Reweigh(points[..|points| - 1], rows, q, d)
  {
  }

  /** One more attempt adds its weight to one point at most. */
  lemma {:induction false} ReweighOneMore(points: seq<Point>, rows: seq<Row<Attempt>>, row: Row<Attempt>, q: Query, d: Duration,
                                          keep: Time -> bool)
    requires Ascending(points)
    ensures SumIf(Reweigh(points, rows + [row], q, d), keep)
         == SumIf(Reweigh(points, rows, q, d), keep)
            + if q.Selects(row.data) && FloorTime(row.data.createdAt, d) in PointStarts(points)
                 && keep(FloorTime(row.data.createdAt, d)) then Weight(q.metric, row.data) else 0.0
    decreases |points|
  {
    if points != [] {
      var init, last := points[..|points| - 1], points[|points| - 1];
      ReweighPrefix(points, rows, q, d);
      ReweighPrefix(points, rows + [row], q, d);
      ReweighOneMore(init, rows, row, q, d, keep);
      WeightOfAppend(rows, row, q, InBucket(d, last.start));
      StartsOfPoints(points);
    }
  }

  lemma StartsOfPoints(points: seq<Point>)
    requires points != [] && Ascending(points)
    ensures var init, last := points[..|points| - 1], points[|points| - 1];
            PointStarts(points) == PointStarts(init) + {last.start} && last.start !in PointStarts(init)
  {
    var init := points[..|points| - 1];
    assert forall i :: 0 <= i < |init| ==> init[i] == points[i];
  }

  lemma {:induction false} ReweighTotals(points: seq<Point>, rows: seq<Row<Attempt>>, q: Query, d: Duration, keep: Time -> bool)
    requires Ascending(points) && Starts(rows, q, d) <= PointStarts(points)
    ensures SumIf(Reweigh(points, rows, q, d), keep) == WeightIf(rows, q, Through(d, keep))
    decreases |rows|
  {
    if rows == [] {
      NothingToWeigh(points, q, d, keep);
    } else {
      var init, last := rows[..|rows| - 1], rows[|rows| - 1];
      assert rows == init + [last];
      StartsOfAppend(init, last, q, d);
      ReweighTotals(points, init, q, d, keep);
      ReweighOneMore(points, init, last, q, d, keep);
    }
  }

  lemma {:induction false} NothingToWeigh(points: seq<Point>, q: Query, d: Duration, keep: Time -> bool)
    ensures SumIf(Reweigh(points, [], q, d), keep) == 0.0
  {
    if points != [] {
      ReweighPrefix(points, [], q, d);
      NothingToWeigh(points[..|points| - 1], q, d, keep);
    }
  }

  /** The points kept by any choice of buckets add up to the attempts in those buckets. */
  lemma PointsAddUp(points: seq<Point>, rows: seq<Row<Attempt>>, q: Query, d: Duration, keep: Time -> bool)
    requires IsSeries(points, rows, q, d)
    ensures SumIf(points, keep) == WeightIf(rows, q, Through(d, keep))
  {
    assert Reweigh(points, rows, q, d) == points;
    ReweighTotals(points, rows, q, d, keep);
  }

  lemma {:induction false} SameSelection(rows: seq<Row<Attempt>>, q: Query, at: Time -> bool, at': Time -> bool)
    requires forall t :: at(t) == at'(t)
    ensures WeightIf(rows, q, at) == WeightIf(rows, q, at')
  {
    if rows != [] {
      SameSelection(rows[..|rows| - 1], q, at, at');
    }
  }

  /** A whole series adds up to the metric over the range. */
  lemma SeriesTotal(points: seq<Point>, rows: seq<Row<Attempt>>, q: Query, d: Duration)
    requires IsSeries(points, rows, q, d)
    ensures SumIf(points, Always()) == WeightIf(rows, q, Always())
  {
    PointsAddUp(points, rows, q, d, Always());
    SameSelection(rows, q, Through(d, Always()), Always());
  }

  function Regrouped(starts: set<Time>, d: Duration): set<Time> {
    set s | s in starts :: FloorTime(s, d)
  }

  /** Regrouping a fine series by a coarser bucket gives exactly the coarse series. */
  lemma SeriesRefine(fine: seq<Point>, coarse: seq<Point>, rows: seq<Row<Attempt>>, q: Query, b: Bucket, b': Bucket)
    requires Refines(b, b')
    requires IsSeries(fine, rows, q, BucketDuration(b).value) && IsSeries(coarse, rows, q, BucketDuration(b').value)
    ensures PointStarts(coarse) == Regrouped(PointStarts(fine), BucketDuration(b').value)
    ensures forall i :: 0 <= i < |coarse| ==> coarse[i].value == SumIf(fine, InBucket(BucketDuration(b').value, coarse[i].start))
  {
    var d, d' := BucketDuration(b).value, BucketDuration(b').value;
    StartsRefine(rows, q, b, b');
    forall i | 0 <= i < |coarse| ensures coarse[i].value == SumIf(fine, InBucket(d', coarse[i].start)) {
      var keep := InBucket(d', coarse[i].start);
      PointsAddUp(fine, rows, q, d, keep);
      forall t ensures Through(d, keep)(t) == keep(t) {
        FloorComposes(t, b, b');
      }
      SameSelection(rows, q, Through(d, keep), keep);
    }
  }

  lemma StartsRefine(rows: seq<Row<Attempt>>, q: Query, b: Bucket, b': Bucket)
    requires Refines(b, b')
    ensures Starts(rows, q, BucketDuration(b').value)
         == Regrouped(Starts(rows, q, BucketDuration(b).value), BucketDuration(b').value)
  {
    var d, d' := BucketDuration(b).value, BucketDuration(b').value;
    CoarseStartsAreRegrouped(rows, q, b, b');
    forall s' | s' in Regrouped(Starts(rows, q, d), d') ensures s' in Starts(rows, q, d') {
      var s :| s in Starts(rows, q, d) && s' == FloorTime(s, d');
      var i :| 0 <= i < |rows| && q.Selects(rows[i].data) && FloorTime(rows[i].data.createdAt, d) == s;
      FloorComposes(rows[i].data.createdAt, b, b');
    }
  }

  lemma CoarseStartsAreRegrouped(rows: seq<Row<Attempt>>, q: Query, b: Bucket, b': Bucket)
    requires Refines(b, b')
    ensures Starts(rows, q, BucketDuration(b').value)
         <= Regrouped(Starts(rows, q, BucketDuration(b).value), BucketDuration(b').value)
  {
    var d, d' := BucketDuration(b).value, BucketDuration(b').value;
    forall s' | s' in Starts(rows, q, d') ensures s' in Regrouped(Starts(rows, q, d), d') {
      var i :| 0 <= i < |rows| && q.Selects(rows[i].data) && FloorTime(rows[i].data.createdAt, d') == s';
      FloorComposes(rows[i].data.createdAt, b, b');
      assert FloorTime(rows[i].data.createdAt, d) in Starts(rows, q, d);
    }
  }

  datatype Summary = Summary(requestsTotal: int, tokensTotal: int, costUSD: real, errorRate: real, activeAccounts: nat)

  function ActiveAccounts(conversations: seq<Row<Merge.Conversation>>, from: Time, to: Time): set<int> {
    set i | 0 <= i < |conversations| && from <= conversations[i].data.startedAt <= to :: conversations[i].data.accountID
  }

  method CountActive(conversations: seq<Row<Merge.Conversation>>, from: Time, to: Time) returns (active: set<int>)
    ensures active == ActiveAccounts(conversations, from, to)
  {
    active := {};
    for i := 0 to |conversations|
      invariant active == ActiveAccounts(conversations[..i], from, to)
    {
      var c := conversations[i].data;
      ActiveOfAppend(conversations[..i], conversations[i], from, to);
      assert conversations[..i + 1] == conversations[..i] + [conversations[i]];
      if from <= c.startedAt && c.startedAt <= to {
        active := active + {c.accountID};
      }
    }
    assert conversations[..|conversations|] == conversations;
  }

  lemma ActiveOfAppend(conversations: seq<Row<Merge.Conversation>>, row: Row<Merge.Conversation>, from: Time, to: Time)
    ensures ActiveAccounts(conversations + [row], from, to)
         == ActiveAccounts(conversations, from, to) + if from <= row.data.startedAt <= to then {row.data.accountID} else {}
  {
    var more := conversations + [row];
    assert more[|conversations|] == row;
    assert forall i :: 0 <= i < |conversations| ==> more[i] == conversations[i];
  }

  /** The positions of the attempts of a range whose creation time satisfies `at`. */
  function AttemptsAt(rows: seq<Row<Attempt>>, from: Time, to: Time, at: Time -> bool): set<nat> {
    set i: nat | i < |rows| && from <= rows[i].data.createdAt <= to && at(rows[i].data.createdAt)
  }

  /** The positions of the failed ones. */
  function FailuresAt(rows: seq<Row<Attempt>>, from: Time, to: Time, at: Time -> bool): set<nat> {
    set i: nat | i < |rows| && from <= rows[i].data.createdAt <= to && at(rows[i].data.createdAt) && !rows[i].data.success
  }

  /** The tokens that the attempts of a range took in and gave out. */
  function TokensAt(rows: seq<Row<Attempt>>, from: Time, to: Time, at: Time -> bool): int {
    if rows == [] then 0
    else
      var a := rows[|rows| - 1].data;
      TokensAt(rows[..|rows| - 1], from, to, at)
      + if from <= a.createdAt <= to && at(a.createdAt) then a.tokensIn + a.tokensOut else 0
  }

  function CostAt(rows: seq<Row<Attempt>>, from: Time, to: Time, at: Time -> bool): real {
    if rows == [] then 0.0
    else
      var a := rows[|rows| - 1].data;
      CostAt(rows[..|rows| - 1], from, to, at) + if from <= a.createdAt <= to && at(a.createdAt) then a.costUSD else 0.0
  }

  lemma AttemptsOfOneMore(rows: seq<Row<Attempt>>, from: Time, to: Time, at: Time -> bool)
    requires rows != []
    ensures var a := rows[|rows| - 1].data;
            |AttemptsAt(rows, from, to, at)|
            == |AttemptsAt(rows[..|rows| - 1], from, to, at)| + if from <= a.createdAt <= to && at(a.createdAt) then 1 else 0
  {
    var a, n: nat := rows[|rows| - 1].data, |rows| - 1;
    var last: set<nat> := if from <= a.createdAt <= to && at(a.createdAt) then {n} else {};
    assert AttemptsAt(rows, from, to, at) == AttemptsAt(rows[..n], from, to, at) + last;
  }

  lemma FailuresOfOneMore(rows: seq<Row<Attempt>>, from: Time, to: Time, at: Time -> bool)
    requires rows != []
    ensures var a := rows[|rows| - 1].data;
            |FailuresAt(rows, from, to, at)|
            == |FailuresAt(rows[..|rows| - 1], from, to, at)|
               + if from <= a.createdAt <= to && at(a.createdAt) && !a.success then 1 else 0
  {
    var a, n: nat := rows[|rows| - 1].data, |rows| - 1;
    var last: set<nat> := if from <= a.createdAt <= to && at(a.createdAt) && !a.success then {n} else {};
    assert FailuresAt(rows, from, to, at) == FailuresAt(rows[..n], from, to, at) + last;
  }

  /** What each metric adds up: attempts, tokens, costs or failures. */
  lemma {:induction false} WeightMeans(rows: seq<Row<Attempt>>, q: Query, at: Time -> bool)
    ensures WeightIf(rows, q, at) ==
            match q.metric
            case Requests => |AttemptsAt(rows, q.from, q.to, at)| as real
            case Tokens => TokensAt(rows, q.from, q.to, at) as real
            case Cost => CostAt(rows, q.from, q.to, at)
            case Errors => |FailuresAt(rows, q.from, q.to, at)| as real
            case UnknownMetric => 0.0
  {
    if rows != [] {
      WeightMeans(rows[..|rows| - 1], q, at);
      AttemptsOfOneMore(rows, q.from, q.to, at);
      FailuresOfOneMore(rows, q.from, q.to, at);
    }
  }

  /** Each point of a series in terms of the attempts of its bucket. */
  lemma PointMeans(points: seq<Point>, rows: seq<Row<Attempt>>, q: Query, d: Duration, i: nat)
    requires IsSeries(points, rows, q, d) && i < |points|
    ensures var at := InBucket(d, points[i].start);
            points[i].value ==
            match q.metric
            case Requests => |AttemptsAt(rows, q.from, q.to, at)| as real
            case Tokens => TokensAt(rows, q.from, q.to, at) as real
            case Cost => CostAt(rows, q.from, q.to, at)
            case Errors => |FailuresAt(rows, q.from, q.to, at)| as real
            case UnknownMetric => 0.0
  {
    WeightMeans(rows, q, InBucket(d, points[i].start));
  }

  datatype Totals = Totals(requests: int, tokens: int, cost: real, errors: int)

  /** The totals describe the attempts of the range. */
  ghost predicate AreTotals(totals: Totals, rows: seq<Row<Attempt>>, from: Time, to: Time) {
    && totals.requests as real == WeightIf(rows, Query(Requests, from, to), Always())
    && totals.tokens as real == WeightIf(rows, Query(Tokens, from, to), Always())
    && totals.cost == WeightIf(rows, Query(Cost, from, to), Always())
    && totals.errors as real == WeightIf(rows, Query(Errors, from, to), Always())
    && 0 <= totals.errors <= totals.requests
  }

  function AddAttempt(totals: Totals, a: Attempt): Totals {
    Totals(totals.requests + 1, totals.tokens + a.tokensIn + a.tokensOut, totals.cost + a.costUSD,
           totals.errors + if a.success then 0 else 1)
  }

  lemma TotalsOfAppend(totals: Totals, rows: seq<Row<Attempt>>, row: Row<Attempt>, from: Time, to: Time)
    requires AreTotals(totals, rows, from, to)
    ensures AreTotals(if InRange(row.data, from, to) then AddAttempt(totals, row.data) else totals, rows + [row], from, to)
  {
    WeightOfAppend(rows, row, Query(Requests, from, to), Always());
    WeightOfAppend(rows, row, Query(Tokens, from, to), Always());
    WeightOfAppend(rows, row, Query(Cost, from, to), Always());
    WeightOfAppend(rows, row, Query(Errors, from, to), Always());
  }

  /** The totals in terms of the attempts of the range. */
  lemma TotalsMean(totals: Totals, rows: seq<Row<Attempt>>, from: Time, to: Time)
    requires AreTotals(totals, rows, from, to)
    ensures totals.requests == |set i: nat | i < |rows| && from <= rows[i].data.createdAt <= to|
    ensures totals.errors == |set i: nat | i < |rows| && from <= rows[i].data.createdAt <= to && !rows[i].data.success|
    ensures totals.tokens == TokensAt(rows, from, to, Always()) && totals.cost == CostAt(rows, from, to, Always())
  {
    WeightMeans(rows, Query(Requests, from, to), Always());
    WeightMeans(rows, Query(Tokens, from, to), Always());
    WeightMeans(rows, Query(Cost, from, to), Always());
    WeightMeans(rows, Query(Errors, from, to), Always());
    assert (set i: nat | i < |rows| && from <= rows[i].data.createdAt <= to) == AttemptsAt(rows, from, to, Always());
    assert (set i: nat | i < |rows| && from <= rows[i].data.createdAt <= to && !rows[i].data.success)
        == FailuresAt(rows, from, to, Always());
  }

  method ErrorRate(errors: int, requests: int) returns (rate: real)
    requires 0 <= errors <= requests
    ensures rate * requests as real == errors as real
    ensures requests == 0 ==> rate == 0.0
  {
    rate := if requests > 0 then errors as real / requests as real else 0.0;
  }

  /** The totals of a range are those that each series over the range adds up to. */
  method GetSummary(conversations: seq<Row<Merge.Conversation>>, rows: seq<Row<Attempt>>, from: Time, to: Time)
    returns (summary: Summary, ghost errors: int)
    ensures AreTotals(Totals(summary.requestsTotal, summary.tokensTotal, summary.costUSD, errors), rows, from, to)
    ensures summary.requestsTotal == |set i: nat | i < |rows| && from <= rows[i].data.createdAt <= to|
    ensures errors == |set i: nat | i < |rows| && from <= rows[i].data.createdAt <= to && !rows[i].data.success|
    ensures summary.tokensTotal == TokensAt(rows, from, to, Always()) && summary.costUSD == CostAt(rows, from, to, Always())
    ensures summary.errorRate * summary.requestsTotal as real == errors as real
    ensures summary.requestsTotal == 0 ==> summary.errorRate == 0.0
    ensures summary.activeAccounts == |ActiveAccounts(conversations, from, to)|
  {
    var active := CountActive(conversations, from, to);
    var totals := Totals(0, 0, 0.0, 0);
    for i := 0 to |rows|
      invariant AreTotals(totals, rows[..i], from, to)
    {
      assert rows[..i + 1] == rows[..i] + [rows[i]];
      TotalsOfAppend(totals, rows[..i], rows[i], from, to);
      if from <= rows[i].data.createdAt && rows[i].data.createdAt <= to {
        totals := AddAttempt(totals, rows[i].data);
      }
    }
    assert rows[..|rows|] == rows;
    TotalsMean(totals, rows, from, to);
    var errorRate := ErrorRate(totals.errors, totals.requests);
    summary := Summary(totals.requests, totals.tokens, totals.cost, errorRate, |active|);
    errors := totals.errors;
  }

  /** Each series over a range adds up to the summary's figure for its metric. */
  lemma SeriesMatchSummary(totals: Totals, points: seq<Point>, rows: seq<Row<Attempt>>, q: Query, d: Duration)
    requires AreTotals(totals, rows, q.from, q.to) && IsSeries(points, rows, q, d)
    ensures SumIf(points, Always()) ==
            match q.metric
            case Requests => totals.requests as real
            case Tokens => totals.tokens as real
            case Cost => totals.cost
            case Errors => totals.errors as real
            case UnknownMetric => 0.0
  {
    SeriesTotal(points, rows, q, d);
    if q.metric == UnknownMetric {
      NothingCounts(rows, q, Always());
    }
  }

  lemma {:induction false} NothingCounts(rows: seq<Row<Attempt>>, q: Query, at: Time -> bool)
    requires q.metric == UnknownMetric
    ensures WeightIf(rows, q, at) == 0.0
  {
    if rows != [] {
      NothingCounts(rows[..|rows| - 1], q, at);
    }
  }
}
