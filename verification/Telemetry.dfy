/** The request metrics: a registry updated per request and its rendered histograms. */
module Telemetry {
  import opened Domain

  const MILLISECOND: Duration := 1_000_000

  /** Upper bounds of the latency buckets, in milliseconds. */
  const BOUNDS: seq<int> := [5, 10, 25, 50, 100, 250, 500, 1000, 2500, 5000]

  const UNKNOWN_ROUTE := "/unknown"

  datatype RequestKey = RequestKey(verb: string, route: string, status: int)

  datatype ErrorKey = ErrorKey(verb: string, route: string, errorCode: string)

  datatype Observation = Observation(key: RequestKey, duration: Duration, errorCode: string)

  datatype Histogram = Histogram(counts: seq<nat>, sum: Duration, count: nat)

  predicate Within(d: Duration, bound: int) {
    d <= bound * MILLISECOND
  }

  /** The first bucket whose bound is not below the duration, or the number of buckets. */
  function FirstBucket(d: Duration, from: nat): (i: nat)
    requires from <= |BOUNDS|
    ensures from <= i <= |BOUNDS|
    ensures i < |BOUNDS| ==> Within(d, BOUNDS[i])
    ensures forall j :: from <= j < i ==> !Within(d, BOUNDS[j])
    decreases |BOUNDS| - from
  {
    if from == |BOUNDS| || Within(d, BOUNDS[from]) then from else FirstBucket(d, from + 1)
  }

  function Record(h: Histogram, d: Duration): Histogram
    requires |h.counts| == |BOUNDS|
  {
    var i := FirstBucket(d, 0);
    Histogram(if i < |BOUNDS| then h.counts[i := h.counts[i] + 1] else h.counts, h.sum + d, h.count + 1)
  }

  const EMPTY: Histogram := Histogram([0, 0, 0, 0, 0, 0, 0, 0, 0, 0], 0, 0)

  function HistogramOf(ds: seq<Duration>): (h: Histogram)
    ensures |h.counts| == |BOUNDS| && h.count == |ds|
  {
    if ds == [] then EMPTY else Record(HistogramOf(ds[..|ds| - 1]), ds[|ds| - 1])
  }

  /** How many durations are within a bound. */
  function AtMost(ds: seq<Duration>, bound: int): nat {
    if ds == [] then 0
    else AtMost(ds[..|ds| - 1], bound) + if Within(ds[|ds| - 1], bound) then 1 else 0
  }

  /** That is: the durations of at most `bound` milliseconds, each counted in nanoseconds. */
  lemma {:induction false} AtMostMeans(ds: seq<Duration>, bound: int)
    ensures AtMost(ds, bound) == |set i: nat | i < |ds| && ds[i] <= bound * 1_000_000|
  {
    if ds != [] {
      var init, n: nat := ds[..|ds| - 1], |ds| - 1;
      AtMostMeans(init, bound);
      var last: set<nat> := if ds[n] <= bound * 1_000_000 then {n} else {};
      assert (set i: nat | i < |ds| && ds[i] <= bound * 1_000_000)
          == (set i: nat | i < |init| && init[i] <= bound * 1_000_000) + last;
    }
  }

  function Sum(counts: seq<nat>, n: nat): nat
    requires n <= |counts|
  {
    if n == 0 then 0 else Sum(counts, n - 1) + counts[n - 1]
  }

  lemma {:induction false} SumOfUpdate(counts: seq<nat>, i: nat, n: nat)
    requires i < |counts| && n <= |counts|
    ensures Sum(counts[i := counts[i] + 1], n) == Sum(counts, n) + if i < n then 1 else 0
    decreases n
  {
    if n > 0 {
      SumOfUpdate(counts, i, n - 1);
    }
  }

  lemma BoundsAscend(i: nat, j: nat)
    requires i <= j < |BOUNDS|
    ensures BOUNDS[i] <= BOUNDS[j]
  {
  }

  /** A duration is within a bound exactly when its bucket is not above the bound's. */
  lemma WithinIffBucket(d: Duration, i: nat)
    requires i < |BOUNDS|
    ensures Within(d, BOUNDS[i]) <==> FirstBucket(d, 0) <= i
  {
    var b := FirstBucket(d, 0);
    if b <= i {
      BoundsAscend(b, i);
    }
  }

  lemma SumAfterRecord(h: Histogram, d: Duration, i: nat)
    requires |h.counts| == |BOUNDS| && i < |BOUNDS|
    ensures Sum(Record(h, d).counts, i + 1) == Sum(h.counts, i + 1) + if Within(d, BOUNDS[i]) then 1 else 0
  {
    WithinIffBucket(d, i);
    var b := FirstBucket(d, 0);
    if b < |BOUNDS| {
      SumOfUpdate(h.counts, b, i + 1);
    }
  }

  /** The cumulative count at each bound is the number of durations within it. */
  lemma {:induction false} CumulativeMeans(ds: seq<Duration>, i: nat)
    requires i < |BOUNDS|
    ensures Sum(HistogramOf(ds).counts, i + 1) == AtMost(ds, BOUNDS[i])
    decreases |ds|
  {
    if ds == [] {
      NothingSums(i + 1);
    } else {
      var init, last := ds[..|ds| - 1], ds[|ds| - 1];
      CumulativeMeans(init, i);
      SumAfterRecord(HistogramOf(init), last, i);
    }
  }

  lemma {:induction false} NothingSums(n: nat)
    requires n <= |EMPTY.counts|
    ensures Sum(EMPTY.counts, n) == 0
  {
    if n > 0 {
      NothingSums(n - 1);
      assert EMPTY.counts[n - 1] == 0;
    }
  }

  lemma {:induction false} AtMostIsMonotone(ds: seq<Duration>, i: nat, j: nat)
    requires i <= j < |BOUNDS|
    ensures AtMost(ds, BOUNDS[i]) <= AtMost(ds, BOUNDS[j]) <= |ds|
    decreases |ds|
  {
    if ds != [] {
      AtMostIsMonotone(ds[..|ds| - 1], i, j);
      BoundsAscend(i, j);
    }
  }

  /** The durations observed for a key, in order. */
  function DurationsOf(observed: seq<Observation>, key: RequestKey): seq<Duration> {
    if observed == [] then []
    else
      var last := observed[|observed| - 1];
      DurationsOf(observed[..|observed| - 1], key) + if last.key == key then [last.duration] else []
  }

  /** How many observations of a verb and route carry an error code. */
  function ErrorsOf(observed: seq<Observation>, key: ErrorKey): nat {
    if observed == [] then 0
    else
      var last := observed[|observed| - 1];
      ErrorsOf(observed[..|observed| - 1], key)
      + if last.errorCode != "" && ErrorKey(last.key.verb, last.key.route, last.errorCode) == key then 1 else 0
  }

  /** The requests of a key are counted, and those of a verb and route that ended with an error code. */
  lemma {:induction false} CountersMean(observed: seq<Observation>, key: RequestKey, failed: ErrorKey)
    ensures |DurationsOf(observed, key)| == |set i: nat | i < |observed| && observed[i].key == key|
    ensures ErrorsOf(observed, failed)
         == |set i: nat | i < |observed| && Fails(observed[i], failed)|
  {
    if observed != [] {
      CountersMean(observed[..|observed| - 1], key, failed);
      RequestsOfOneMore(observed, key);
      ErrorsOfOneMore(observed, failed);
    }
  }

  lemma RequestsOfOneMore(observed: seq<Observation>, key: RequestKey)
    requires observed != []
    ensures var init, o := observed[..|observed| - 1], observed[|observed| - 1];
            |set i: nat | i < |observed| && observed[i].key == key|
            == |set i: nat | i < |init| && init[i].key == key| + if o.key == key then 1 else 0
  {
    var init, n: nat := observed[..|observed| - 1], |observed| - 1;
    var last: set<nat> := if observed[n].key == key then {n} else {};
    assert (set i: nat | i < |observed| && observed[i].key == key) == (set i: nat | i < |init| && init[i].key == key) + last;
  }

  predicate Fails(o: Observation, failed: ErrorKey) {
    o.errorCode != "" && o.errorCode == failed.errorCode && o.key.verb == failed.verb && o.key.route == failed.route
  }

  lemma ErrorsOfOneMore(observed: seq<Observation>, failed: ErrorKey)
    requires observed != []
    ensures var init, o := observed[..|observed| - 1], observed[|observed| - 1];
            |set i: nat | i < |observed| && Fails(observed[i], failed)|
            == |set i: nat | i < |init| && Fails(init[i], failed)| + if Fails(o, failed) then 1 else 0
  {
    var init, n: nat := observed[..|observed| - 1], |observed| - 1;
    var last: set<nat> := if Fails(observed[n], failed) then {n} else {};
    assert (set i: nat | i < |observed| && Fails(observed[i], failed))
        == (set i: nat | i < |init| && Fails(init[i], failed)) + last;
  }

  ghost predicate RequestsReflect(requests: map<RequestKey, nat>, observed: seq<Observation>) {
    && (forall k :: k in requests <==> DurationsOf(observed, k) != [])
    && (forall k :: k in requests ==> requests[k] == |DurationsOf(observed, k)|)
  }

  ghost predicate HistogramsReflect(histograms: map<RequestKey, Histogram>, observed: seq<Observation>) {
    && (forall k :: k in histograms <==> DurationsOf(observed, k) != [])
    && (forall k :: k in histograms ==> histograms[k] == HistogramOf(DurationsOf(observed, k)))
  }

  ghost predicate ErrorsReflect(errors: map<ErrorKey, nat>, observed: seq<Observation>) {
    && (forall k :: k in errors <==> ErrorsOf(observed, k) > 0)
    && (forall k :: k in errors ==> errors[k] == ErrorsOf(observed, k))
  }

  lemma DurationsOfAppend(observed: seq<Observation>, o: Observation, k: RequestKey)
    ensures DurationsOf(observed + [o], k) == DurationsOf(observed, k) + if o.key == k then [o.duration] else []
  {
    assert (observed + [o])[..|observed|] == observed;
  }

  lemma ErrorsOfAppend(observed: seq<Observation>, o: Observation, k: ErrorKey)
    ensures ErrorsOf(observed + [o], k) == ErrorsOf(observed, k)
              + if o.errorCode != "" && ErrorKey(o.key.verb, o.key.route, o.errorCode) == k then 1 else 0
  {
    assert (observed + [o])[..|observed|] == observed;
  }

  /** The map after counting one more occurrence of `k`. */
  function Bumped<K>(m: map<K, nat>, k: K): map<K, nat> {
    m[k := if k in m then m[k] + 1 else 1]
  }

  lemma CountedRequest(requests: map<RequestKey, nat>, observed: seq<Observation>, o: Observation)
    requires RequestsReflect(requests, observed)
    ensures RequestsReflect(Bumped(requests, o.key), observed + [o])
  {
    forall k ensures DurationsOf(observed + [o], k) == DurationsOf(observed, k) + if o.key == k then [o.duration] else [] {
      DurationsOfAppend(observed, o, k);
    }
  }

  lemma HistogramOfAppend(ds: seq<Duration>, d: Duration)
    ensures HistogramOf(ds + [d]) == Record(HistogramOf(ds), d)
  {
    assert (ds + [d])[..|ds|] == ds;
  }

  lemma CountedHistogram(histograms: map<RequestKey, Histogram>, observed: seq<Observation>, o: Observation, h: Histogram)
    requires HistogramsReflect(histograms, observed)
    requires h == HistogramOf(DurationsOf(observed, o.key) + [o.duration])
    ensures HistogramsReflect(histograms[o.key := h], observed + [o])
  {
    var histograms' := histograms[o.key := h];
    forall k
      ensures k in histograms' <==> DurationsOf(observed + [o], k) != []
      ensures k in histograms' ==> histograms'[k] == HistogramOf(DurationsOf(observed + [o], k))
    {
      DurationsOfAppend(observed, o, k);
      if k != o.key {
        assert DurationsOf(observed, k) + [] == DurationsOf(observed, k);
      }
    }
  }

  lemma CountedError(errors: map<ErrorKey, nat>, observed: seq<Observation>, o: Observation)
    requires ErrorsReflect(errors, observed)
    ensures ErrorsReflect(
              if o.errorCode == "" then errors else Bumped(errors, ErrorKey(o.key.verb, o.key.route, o.errorCode)),
              observed + [o])
  {
    forall k
      ensures ErrorsOf(observed + [o], k) == ErrorsOf(observed, k)
                + if o.errorCode != "" && ErrorKey(o.key.verb, o.key.route, o.errorCode) == k then 1 else 0
    {
      ErrorsOfAppend(observed, o, k);
    }
  }

  class Registry {
    var requests: map<RequestKey, nat>
    var errors: map<ErrorKey, nat>
    var histograms: map<RequestKey, Histogram>
    ghost var observed: seq<Observation>  // every request so far

    /** The counters and histograms are those of the requests observed so far. */
    ghost predicate Valid()
      reads this
    {
      RequestsReflect(requests, observed) && HistogramsReflect(histograms, observed) && ErrorsReflect(errors, observed)
    }

    constructor ()
      ensures Valid() && observed == []
    {
      requests, errors, histograms, observed := map[], map[], map[], [];
    }

    /** The source's scan for the bucket of a duration. */
    method CountInBucket(h: Histogram, duration: Duration) returns (counted: Histogram)
      requires |h.counts| == |BOUNDS|
      ensures counted == Record(h, duration)
    {
      counted := h.(count := h.count + 1, sum := h.sum + duration);
      var i := 0;
      while i < |BOUNDS|
        invariant 0 <= i <= FirstBucket(duration, 0)
        invariant counted == h.(count := h.count + 1, sum := h.sum + duration)
      {
        if Within(duration, BOUNDS[i]) {
          counted := counted.(counts := h.counts[i := h.counts[i] + 1]);
          return;
        }
        i := i + 1;
      }
    }

    method ObserveRequest(verb: string, route: string, status: int, duration: Duration, errorCode: string)
      requires Valid()
      modifies this
      ensures Valid()
      ensures observed == old(observed)
                + [Observation(RequestKey(verb, if route == "" then UNKNOWN_ROUTE else route, status), duration, errorCode)]
    {
      var path := if route == "" then UNKNOWN_ROUTE else route;
      Count(Observation(RequestKey(verb, path, status), duration, errorCode));
    }

    /** Counts one request, with the registry's lock held. */
    method Count(o: Observation)
      requires Valid()
      modifies this
      ensures Valid()
      ensures observed == old(observed) + [o]
    {
      requests := Bumped(requests, o.key);
      CountedRequest(old(requests), observed, o);
      CountDuration(o);
      if o.errorCode != "" {
        errors := Bumped(errors, ErrorKey(o.key.verb, o.key.route, o.errorCode));
      }
      CountedError(old(errors), observed, o);
      observed := observed + [o];
    }

    method CountDuration(o: Observation)
      requires HistogramsReflect(histograms, observed)
      modifies this`histograms
      ensures HistogramsReflect(histograms, observed + [o])
    {
      var h := if o.key in histograms then histograms[o.key] else EMPTY;
      assert h == HistogramOf(DurationsOf(observed, o.key));
      var counted := CountInBucket(h, o.duration);
      HistogramOfAppend(DurationsOf(observed, o.key), o.duration);
      CountedHistogram(histograms, observed, o, counted);
      histograms := histograms[o.key := counted];
    }

    /** The rendered histogram of a key: a cumulative value for each bound, the value at +Inf, the sum and
        the count, each as the text exposition format defines it. */
    method RenderHistogram(key: RequestKey) returns (buckets: seq<nat>, inf: nat, sum: Duration, count: nat)
      requires Valid() && key in requests
      ensures |buckets| == |BOUNDS|
      ensures var ds, bounds := DurationsOf(observed, key), [5, 10, 25, 50, 100, 250, 500, 1000, 2500, 5000];
              && |buckets| == |bounds| && sum == Total(ds)
              && forall i :: 0 <= i < |bounds| ==> buckets[i] == |set j: nat | j < |ds| && ds[j] <= bounds[i] * 1_000_000|
      ensures forall i, j :: 0 <= i <= j < |BOUNDS| ==> buckets[i] <= buckets[j] <= inf
      ensures inf == count == requests[key] == |DurationsOf(observed, key)|
    {
      var h := histograms[key];
      ghost var ds := DurationsOf(observed, key);
      var cumulative: nat := 0;
      buckets := [];
      for i := 0 to |BOUNDS|
        invariant |buckets| == i && cumulative == Sum(h.counts, i)
        invariant forall j :: 0 <= j < i ==> buckets[j] == AtMost(ds, BOUNDS[j])
      {
        cumulative := cumulative + h.counts[i];
        CumulativeMeans(ds, i);
        buckets := buckets + [cumulative];
      }
      forall i, j | 0 <= i <= j < |BOUNDS| ensures buckets[i] <= buckets[j] <= |ds| {
        AtMostIsMonotone(ds, i, j);
      }
      inf, sum, count := h.count, h.sum, h.count;
      SumMeans(ds);
      forall i | 0 <= i < |BOUNDS| ensures buckets[i] == |set j: nat | j < |ds| && ds[j] <= BOUNDS[i] * 1_000_000| {
        AtMostMeans(ds, BOUNDS[i]);
      }
    }
  }

  /** The sum of a histogram is the sum of the durations. */
  lemma {:induction false} SumMeans(ds: seq<Duration>)
    ensures HistogramOf(ds).sum == Total(ds)
  {
    if ds != [] {
      SumMeans(ds[..|ds| - 1]);
    }
  }

  function Total(ds: seq<Duration>): Duration {
    if ds == [] then 0 else Total(ds[..|ds| - 1]) + ds[|ds| - 1]
  }
}
