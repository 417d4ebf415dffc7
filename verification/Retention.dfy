/** What a retention pass removes: the first `limit` eligible items of a slice, or the `limit` smallest
    eligible keys of a map. */
module Retention {
  import opened Arithmetic
  import opened Domain
  import opened Sorting

  function Min(a: nat, b: nat): nat {
    if a <= b then a else b
  }

  function Count<T>(s: seq<T>, eligible: T -> bool): (n: nat)
    ensures n <= |s|
  {
    if s == [] then 0
    else Count(s[..|s| - 1], eligible) + if eligible(s[|s| - 1]) then 1 else 0
  }

  /** What is left when the first `limit` eligible items are removed, in the original order. */
  function DropFirst<T>(s: seq<T>, eligible: T -> bool, limit: nat): seq<T> {
    if s == [] then []
    else
      var init, last := s[..|s| - 1], s[|s| - 1];
      if eligible(last) && Count(init, eligible) < limit then DropFirst(init, eligible, limit)
      else DropFirst(init, eligible, limit) + [last]
  }

  lemma CountOfAppend<T>(s: seq<T>, x: T, eligible: T -> bool)
    ensures Count(s + [x], eligible) == Count(s, eligible) + if eligible(x) then 1 else 0
  {
    assert (s + [x])[..|s|] == s;
  }

  /** Exactly min(limit, eligible) items go, all of them eligible. */
  lemma {:induction false} DropFirstCounts<T>(s: seq<T>, eligible: T -> bool, limit: nat)
    ensures |DropFirst(s, eligible, limit)| == |s| - Min(limit, Count(s, eligible))
    ensures Count(DropFirst(s, eligible, limit), eligible) == Count(s, eligible) - Min(limit, Count(s, eligible))
  {
    if s != [] {
      var init, last := s[..|s| - 1], s[|s| - 1];
      DropFirstCounts(init, eligible, limit);
      CountOfAppend(DropFirst(init, eligible, limit), last, eligible);
    }
  }

  /** Only items of the slice are left. */
  lemma {:induction false} DropFirstKeepsElements<T>(s: seq<T>, eligible: T -> bool, limit: nat, x: T)
    requires x in DropFirst(s, eligible, limit)
    ensures x in s
  {
    if s != [] {
      var init, last := s[..|s| - 1], s[|s| - 1];
      if x in DropFirst(init, eligible, limit) {
        DropFirstKeepsElements(init, eligible, limit, x);
      }
    }
  }

  /** Ineligible items are all left. */
  lemma {:induction false} DropFirstSpares<T>(s: seq<T>, eligible: T -> bool, limit: nat, x: T)
    requires x in s && !eligible(x)
    ensures x in DropFirst(s, eligible, limit)
  {
    var init, last := s[..|s| - 1], s[|s| - 1];
    if x != last {
      DropFirstSpares(init, eligible, limit, x);
    }
  }

  /** What is left of `n` items after `times` passes that each take up to `limit`. */
  function Remaining(n: nat, limit: nat, times: nat): nat
    decreases times
  {
    if times == 0 then n else Remaining(n - Min(limit, n), limit, times - 1)
  }

  lemma {:induction false} RemainingClosedForm(n: nat, limit: nat, times: nat)
    ensures Remaining(n, limit, times) == if n <= times * limit then 0 else n - times * limit
    decreases times
  {
    if times > 0 {
      assert times * limit == limit + (times - 1) * limit;
      assert (times - 1) * limit >= 0;
      RemainingClosedForm(n - Min(limit, n), limit, times - 1);
    }
  }

  /** ceil(n / limit) passes leave nothing. */
  lemma EnoughPasses(n: nat, limit: nat, times: nat)
    requires limit > 0 && times >= (n + limit - 1) / limit
    ensures Remaining(n, limit, times) == 0
  {
    RemainingClosedForm(n, limit, times);
    CeilingCovers(n, limit, times);
  }

  function DropRepeatedly<T>(s: seq<T>, eligible: T -> bool, limit: nat, times: nat): seq<T>
    decreases times
  {
    if times == 0 then s else DropRepeatedly(DropFirst(s, eligible, limit), eligible, limit, times - 1)
  }

  /** Passes with a fixed cutoff converge: `times` of them leave max(0, eligible - times * limit). */
  lemma {:induction false} PassesConverge<T>(s: seq<T>, eligible: T -> bool, limit: nat, times: nat)
    ensures Count(DropRepeatedly(s, eligible, limit, times), eligible) == Remaining(Count(s, eligible), limit, times)
    decreases times
  {
    if times > 0 {
      DropFirstCounts(s, eligible, limit);
      PassesConverge(DropFirst(s, eligible, limit), eligible, limit, times - 1);
    }
  }

  /** `chosen` are the `limit` smallest of the eligible keys. */
  ghost predicate IsSmallest<K>(leq: (K, K) -> bool, eligible: set<K>, limit: nat, chosen: set<K>) {
    && chosen <= eligible
    && |chosen| == Min(limit, |eligible|)
    && forall x, y :: x in chosen && y in eligible - chosen ==> leq(x, y)
  }

  lemma SmallestLeaves<K>(leq: (K, K) -> bool, eligible: set<K>, limit: nat, chosen: set<K>)
    requires IsSmallest(leq, eligible, limit, chosen)
    ensures |eligible - chosen| == |eligible| - Min(limit, |eligible|)
  {
    assert eligible == chosen + (eligible - chosen);
  }

  function Elements<T>(s: seq<T>): set<T> {
    set x | x in s
  }

  /** The positions that a pass removes. */
  function Picked<T>(s: seq<T>, eligible: T -> bool, limit: nat): set<nat> {
    set i: nat | i < |s| && eligible(s[i]) && Count(s[..i], eligible) < limit
  }

  /** The items at the positions that are not dropped, in order. */
  function Without<T>(s: seq<T>, drop: set<nat>): seq<T> {
    if s == [] then []
    else Without(s[..|s| - 1], drop) + if |s| - 1 in drop then [] else [s[|s| - 1]]
  }

  /** How many of the first `i` positions are not dropped. */
  function KeptBefore(drop: set<nat>, i: nat): nat {
    if i == 0 then 0 else KeptBefore(drop, i - 1) + if i - 1 in drop then 0 else 1
  }

  /** An item that is not dropped comes behind the ones before it that are not dropped either, and there are no
      other items. */
  lemma {:induction false} WithoutAt<T>(s: seq<T>, drop: set<nat>, i: nat)
    requires i < |s|
    ensures |Without(s, drop)| == KeptBefore(drop, |s|) && KeptBefore(drop, i) <= KeptBefore(drop, |s|)
    ensures i !in drop ==> KeptBefore(drop, i) < KeptBefore(drop, |s|) && Without(s, drop)[KeptBefore(drop, i)] == s[i]
    decreases |s|
  {
    var init := s[..|s| - 1];
    if init == [] {
      assert Without(init, drop) == [];
    } else if i < |init| {
      WithoutAt(init, drop, i);
    } else {
      WithoutAt(init, drop, |init| - 1);
    }
  }

  lemma {:induction false} WithoutDependsOnPrefix<T>(s: seq<T>, drop: set<nat>, drop': set<nat>)
    requires forall i :: 0 <= i < |s| ==> (i in drop <==> i in drop')
    ensures Without(s, drop) == Without(s, drop')
  {
    if s != [] {
      WithoutDependsOnPrefix(s[..|s| - 1], drop, drop');
    }
  }

  /** Removing the picked positions drops the first eligible items. */
  lemma {:induction false} WithoutPicked<T>(s: seq<T>, eligible: T -> bool, limit: nat)
    ensures Without(s, Picked(s, eligible, limit)) == DropFirst(s, eligible, limit)
  {
    if s != [] {
      var init := s[..|s| - 1];
      WithoutPicked(init, eligible, limit);
      forall i | 0 <= i < |init| ensures i in Picked(s, eligible, limit) <==> i in Picked(init, eligible, limit) {
        assert init[..i] == s[..i];
      }
      WithoutDependsOnPrefix(init, Picked(s, eligible, limit), Picked(init, eligible, limit));
    }
  }

  function EligiblePositions<T>(s: seq<T>, eligible: T -> bool): set<nat> {
    set i: nat | i < |s| && eligible(s[i])
  }

  lemma {:induction false} CountIsSize<T>(s: seq<T>, eligible: T -> bool)
    ensures Count(s, eligible) == |EligiblePositions(s, eligible)|
  {
    if s != [] {
      var init, last := s[..|s| - 1], s[|s| - 1];
      CountIsSize(init, eligible);
      var position: set<nat> := if eligible(last) then {|s| - 1} else {};
      assert EligiblePositions(s, eligible) == EligiblePositions(init, eligible) + position;
    }
  }

  lemma PickedOneMore<T>(s: seq<T>, eligible: T -> bool, limit: nat)
    requires s != []
    ensures var init, last := s[..|s| - 1], s[|s| - 1];
            var picked: set<nat> := if eligible(last) && Count(init, eligible) < limit then {|s| - 1} else {};
            Picked(s, eligible, limit) == Picked(init, eligible, limit) + picked
  {
    var init := s[..|s| - 1];
    forall i: nat | i < |init| ensures i in Picked(s, eligible, limit) <==> i in Picked(init, eligible, limit) {
      assert init[..i] == s[..i];
    }
  }

  /** The picked positions are those of the first `limit` eligible items. */
  lemma {:induction false} PickedAreFirst<T>(s: seq<T>, eligible: T -> bool, limit: nat)
    ensures var drop := Picked(s, eligible, limit);
            && |drop| == Min(limit, Count(s, eligible))
            && (forall i :: i in drop ==> i < |s| && eligible(s[i]))
            && (forall i: nat :: i < |s| && eligible(s[i]) && i !in drop ==> |drop| == limit && forall j :: j in drop ==> j < i)
  {
    if s != [] {
      var init := s[..|s| - 1];
      PickedAreFirst(init, eligible, limit);
      PickedOneMore(s, eligible, limit);
      assert |s| - 1 !in Picked(init, eligible, limit);
      forall i: nat | i < |s| && eligible(s[i]) && i !in Picked(s, eligible, limit)
        ensures |Picked(s, eligible, limit)| == limit && forall j :: j in Picked(s, eligible, limit) ==> j < i
      {
        assert i < |init| ==> init[i] == s[i];
      }
    }
  }

  lemma {:induction false} CountIsMonotone<T>(s: seq<T>, eligible: T -> bool, i: nat)
    requires i <= |s|
    ensures Count(s[..i], eligible) <= Count(s, eligible)
    decreases |s| - i
  {
    if i < |s| {
      CountIsMonotone(s, eligible, i + 1);
      CountOfAppend(s[..i], s[i], eligible);
      assert s[..i + 1] == s[..i] + [s[i]];
    } else {
      assert s[..i] == s;
    }
  }

  /** The first `i` items have been scanned. */
  ghost predicate Scanned<T>(s: seq<T>, eligible: T -> bool, limit: nat, i: nat, indexes: seq<nat>)
    requires i <= |s|
  {
    && |indexes| == Min(limit, Count(s[..i], eligible))
    && forall j :: j in indexes <==> 0 <= j < i && eligible(s[j]) && Count(s[..j], eligible) < limit
  }

  lemma ScanOne<T>(s: seq<T>, eligible: T -> bool, limit: nat, i: nat, indexes: seq<nat>)
    requires i < |s| && Scanned(s, eligible, limit, i, indexes) && |indexes| < limit
    ensures Scanned(s, eligible, limit, i + 1, if eligible(s[i]) then indexes + [i] else indexes)
  {
    CountOfAppend(s[..i], s[i], eligible);
    assert s[..i + 1] == s[..i] + [s[i]];
  }

  /** The source's scan for the first eligible positions. */
  method FirstEligible<T>(s: seq<T>, eligible: T -> bool, limit: nat) returns (indexes: seq<nat>)
    ensures |indexes| == Min(limit, Count(s, eligible))
    ensures Elements(indexes) == Picked(s, eligible, limit)
  {
    indexes := [];
    var i := 0;
    while i < |s|
      invariant 0 <= i <= |s| && Scanned(s, eligible, limit, i, indexes)
    {
      if |indexes| >= limit {
        break;
      }
      ScanOne(s, eligible, limit, i, indexes);
      if eligible(s[i]) {
        indexes := indexes + [i];
      }
      i := i + 1;
    }
    if i < |s| {
      NothingMoreIsPicked(s, eligible, limit, i);
    } else {
      assert s[..i] == s;
    }
  }

  lemma NothingMoreIsPicked<T>(s: seq<T>, eligible: T -> bool, limit: nat, i: nat)
    requires i <= |s| && Count(s[..i], eligible) >= limit
    ensures Count(s, eligible) >= limit
    ensures forall j :: i <= j < |s| ==> j !in Picked(s, eligible, limit)
  {
    CountIsMonotone(s, eligible, i);
    forall j | i <= j < |s| ensures j !in Picked(s, eligible, limit) {
      assert s[..j][..i] == s[..i];
      CountIsMonotone(s[..j], eligible, i);
    }
  }

  /** The source's copy of the items at the other positions. */
  method RemoveIndexes<T>(s: seq<T>, indexes: seq<nat>) returns (out: seq<T>)
    ensures out == Without(s, Elements(indexes))
  {
    var drop := Elements(indexes);
    if |indexes| == 0 {
      NothingWithout(s, drop);
      return s;
    }
    out := [];
    for i := 0 to |s|
      invariant out == Without(s[..i], drop)
    {
      assert s[..i + 1][..i] == s[..i];
      if i !in drop {
        out := out + [s[i]];
      }
    }
    assert s[..|s|] == s;
  }

  lemma {:induction false} NothingWithout<T>(s: seq<T>, drop: set<nat>)
    requires drop == {}
    ensures Without(s, drop) == s
  {
    if s != [] {
      NothingWithout(s[..|s| - 1], drop);
    }
  }

  lemma {:induction false} DistinctSize<T>(s: seq<T>)
    requires Distinct(s)
    ensures |Elements(s)| == |s|
  {
    if s != [] {
      var init, last := s[..|s| - 1], s[|s| - 1];
      DistinctSize(init);
      assert Elements(s) == Elements(init) + {last};
      assert last !in init;
    }
  }

  /** The first `limit` of the sorted keys. */
  method Smallest<K(!new, ==)>(keys: seq<K>, leq: (K, K) -> bool, limit: nat) returns (chosen: seq<K>)
    requires TotalPreorder(leq) && Distinct(keys)
    ensures IsSmallest(leq, Elements(keys), limit, Elements(chosen))
    ensures |chosen| == Min(limit, |keys|) && |Elements(keys)| == |keys|
  {
    var sorted := Sort(keys, leq);
    SameElements(keys, sorted);
    SortedStaysDistinct(keys, sorted);
    assert Elements(keys) == Elements(sorted);
    chosen := if |sorted| > limit then sorted[..limit] else sorted;
    DistinctSize(sorted);
    DistinctSize(chosen);
    assert forall n :: 0 <= n < |chosen| ==> chosen[n] in Elements(chosen);
    forall x, y | x in Elements(chosen) && y in Elements(sorted) - Elements(chosen) ensures leq(x, y) {
      var i :| 0 <= i < |chosen| && chosen[i] == x;
      var j :| 0 <= j < |sorted| && sorted[j] == y;
      assert sorted[i] == x;
    }
  }
}
