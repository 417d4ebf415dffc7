/** Sorting and truncation of sequences, for the source's calls of its library sort. */
module Sorting {
  import opened Domain

  ghost predicate Ordered<T>(leq: (T, T) -> bool, s: seq<T>) {
    forall i, j :: 0 <= i < j < |s| ==> leq(s[i], s[j])
  }

  ghost predicate TotalPreorder<T(!new)>(leq: (T, T) -> bool) {
    && (forall x, y :: leq(x, y) || leq(y, x))
    && (forall x, y, z :: leq(x, y) && leq(y, z) ==> leq(x, z))
  }

  /** Some ascending order of the same items; ties may come out in any order. */
  method Sort<T(!new)>(items: seq<T>, leq: (T, T) -> bool) returns (sorted: seq<T>)
    requires TotalPreorder(leq)
    ensures Ordered(leq, sorted) && multiset(sorted) == multiset(items)
  {
    sorted := [];
    for n := 0 to |items|
      invariant Ordered(leq, sorted) && multiset(sorted) == multiset(items[..n])
    {
      var x, p := items[n], 0;
      while p < |sorted| && leq(sorted[p], x)
        invariant 0 <= p <= |sorted|
        invariant forall i :: 0 <= i < p ==> leq(sorted[i], x)
      {
        p := p + 1;
      }
      InsertKeepsOrder(leq, sorted, p, x);
      InsertAddsOne(items, n, sorted, p);
      sorted := sorted[..p] + [x] + sorted[p..];
    }
    assert items[..|items|] == items;
  }

  lemma InsertAddsOne<T>(items: seq<T>, n: nat, sorted: seq<T>, p: nat)
    requires n < |items| && p <= |sorted| && multiset(sorted) == multiset(items[..n])
    ensures multiset(sorted[..p] + [items[n]] + sorted[p..]) == multiset(items[..n + 1])
  {
    assert items[..n + 1] == items[..n] + [items[n]];
    assert sorted == sorted[..p] + sorted[p..];
  }

  lemma InsertKeepsOrder<T(!new)>(leq: (T, T) -> bool, s: seq<T>, p: nat, x: T)
    requires TotalPreorder(leq) && Ordered(leq, s) && p <= |s|
    requires forall i :: 0 <= i < p ==> leq(s[i], x)
    requires p < |s| ==> !leq(s[p], x)
    ensures Ordered(leq, s[..p] + [x] + s[p..])
  {
    assert forall j :: p <= j < |s| ==> leq(x, s[j]);
  }

  /** Sorting keeps the elements and their number. */
  lemma SameElements<T>(a: seq<T>, b: seq<T>)
    requires multiset(a) == multiset(b)
    ensures |a| == |b| && forall x :: x in a <==> x in b
  {
    assert |a| == |multiset(a)| == |multiset(b)| == |b|;
    forall x ensures x in a <==> x in b {
      assert x in a <==> x in multiset(a);
      assert x in b <==> x in multiset(b);
    }
  }

  predicate Distinct<T(==)>(s: seq<T>) {
    forall i, j :: 0 <= i < j < |s| ==> s[i] != s[j]
  }

  lemma {:induction false} DistinctMultiplicity<T>(s: seq<T>)
    ensures Distinct(s) <==> forall x :: multiset(s)[x] <= 1
  {
    if s != [] {
      var init, last := s[..|s| - 1], s[|s| - 1];
      DistinctMultiplicity(init);
      assert s == init + [last];
      if Distinct(s) {
        assert last !in init;
      } else if Distinct(init) {
        assert last in init;
        assert multiset(s)[last] >= 2;
      } else {
        var x :| multiset(init)[x] > 1;
        assert multiset(s)[x] > 1;
      }
    }
  }

  /** Sorting distinct items leaves them distinct. */
  lemma SortedStaysDistinct<T>(a: seq<T>, b: seq<T>)
    requires Distinct(a) && multiset(a) == multiset(b)
    ensures Distinct(b)
  {
    DistinctMultiplicity(a);
    DistinctMultiplicity(b);
  }

  /** Go's order of strings: the first differing byte decides, a prefix comes first. */
  predicate LexLeq(a: Bytes, b: Bytes) {
    a == [] || (b != [] && (a[0] < b[0] || (a[0] == b[0] && LexLeq(a[1..], b[1..]))))
  }

  lemma {:induction false} LexLeqTransitive(a: Bytes, b: Bytes, c: Bytes)
    requires LexLeq(a, b) && LexLeq(b, c)
    ensures LexLeq(a, c)
  {
    if a != [] && a[0] == b[0] == c[0] {
      LexLeqTransitive(a[1..], b[1..], c[1..]);
    }
  }

  lemma {:induction false} LexLeqTotal(a: Bytes, b: Bytes)
    ensures LexLeq(a, b) || LexLeq(b, a)
  {
    if a != [] && b != [] && a[0] == b[0] {
      LexLeqTotal(a[1..], b[1..]);
    }
  }

  lemma LexLeqIsTotalPreorder()
    ensures TotalPreorder(LexLeq)
  {
    forall a, b ensures LexLeq(a, b) || LexLeq(b, a) {
      LexLeqTotal(a, b);
    }
    forall a, b, c | LexLeq(a, b) && LexLeq(b, c) ensures LexLeq(a, c) {
      LexLeqTransitive(a, b, c);
    }
  }
}
