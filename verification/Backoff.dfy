/** The retry backoff: doubling on 64-bit durations, its closed form, and exactly when it holds. */
module Backoff {
  import opened Domain

  const TWO_63: int := 0x8000_0000_0000_0000
  const TWO_64: int := 0x1_0000_0000_0000_0000

  /** The value a 64-bit signed integer holds after an operation whose exact result is `x`. */
  function Wrap64(x: int): (r: int)
    ensures -TWO_63 <= r < TWO_63
    ensures -TWO_63 <= x < TWO_63 ==> r == x
  {
    (x + TWO_63) % TWO_64 - TWO_63
  }

  function Pow2(n: nat): (p: int)
    ensures p >= 1
  {
    if n == 0 then 1 else 2 * Pow2(n - 1)
  }

  function Min(a: int, b: int): int {
    if a <= b then a else b
  }

  /** The delay after `k` rounds of doubling that stop early once `max` is reached. */
  function Doubled(delay: Duration, max: Duration, k: nat): Duration
    decreases k
  {
    if k == 0 then delay
    else
      var next := Wrap64(delay * 2);
      if next >= max then max else Doubled(next, max, k - 1)
  }

  /** How many rounds the loop really performs. */
  function Rounds(delay: Duration, max: Duration, k: nat): nat
    decreases k
  {
    if k == 0 then 0
    else
      var next := Wrap64(delay * 2);
      1 + if next >= max then 0 else Rounds(next, max, k - 1)
  }

  /** The number of doublings asked for by an attempt count. */
  function Wanted(attemptCount: int): nat {
    if attemptCount < 1 then 0 else attemptCount - 1
  }

  function DelayFor(base: Duration, max: Duration, attemptCount: int): Duration {
    Doubled(base, max, Wanted(attemptCount))
  }

  /** The source's loop. `rounds` counts its iterations. */
  method BackoffForAttempt(base: Duration, max: Duration, attemptCount: int)
    returns (delay: Duration, ghost rounds: nat)
    ensures delay == DelayFor(base, max, attemptCount)
    ensures rounds == Rounds(base, max, Wanted(attemptCount))
  {
    var attempts := if attemptCount < 1 then 1 else attemptCount;
    delay, rounds := base, 0;
    var i := 1;
    while i < attempts
      invariant 1 <= i <= attempts
      invariant Doubled(delay, max, attempts - i) == DelayFor(base, max, attemptCount)
      invariant rounds + Rounds(delay, max, attempts - i) == Rounds(base, max, Wanted(attemptCount))
    {
      delay := Wrap64(delay * 2);
      rounds := rounds + 1;
      if delay >= max {
        return max, rounds;
      }
      i := i + 1;
    }
  }

  /** The first doubling of `d` that reaches `max`. */
  function Crossing(d: Duration, max: Duration): (c: int)
    requires 0 < d
    ensures max <= c && 2 * d <= c
    decreases max - 2 * d
  {
    if 2 * d >= max then 2 * d else Crossing(2 * d, max)
  }

  /** The first attempt waits `base`, each later one twice as long as the one before, and none longer than `max`. */
  predicate ClosedForm(base: Duration, max: Duration, attemptCount: int) {
    DelayFor(base, max, attemptCount) == Min(max, base * Pow2(if attemptCount <= 1 then 0 else attemptCount - 1))
  }

  lemma PowerShift(d: int, k: nat)
    requires k > 0
    ensures d * Pow2(k) == (2 * d) * Pow2(k - 1)
  {
  }

  lemma {:induction false} PowerGrows(d: int, k: nat)
    requires 0 < d
    ensures d <= d * Pow2(k)
    decreases k
  {
    if k > 0 {
      PowerGrows(2 * d, k - 1);
    }
  }

  lemma {:induction false} ClosedFormWithoutOverflow(base: Duration, max: Duration, k: nat)
    requires 0 < base <= max && Crossing(base, max) < TWO_63
    ensures Doubled(base, max, k) == Min(max, base * Pow2(k))
    decreases k
  {
    if k > 0 {
      PowerShift(base, k);
      PowerGrows(2 * base, k - 1);
      if 2 * base < max {
        ClosedFormWithoutOverflow(2 * base, max, k - 1);
      }
    }
  }

  /** When the crossing overflows, the round that reaches it yields a negative delay. */
  lemma {:induction false} OverflowIsNegative(base: Duration, max: Duration) returns (k: nat)
    requires 0 < base < TWO_63 && 0 < max < TWO_63 && Crossing(base, max) >= TWO_63
    ensures k > 0 && Doubled(base, max, k) < 0
    decreases max - base
  {
    if 2 * base >= max {
      k := 1;
      assert Doubled(base, max, 1) == Wrap64(base * 2) == 2 * base - TWO_64;
    } else {
      var j := OverflowIsNegative(2 * base, max);
      k := j + 1;
      assert Doubled(base, max, k) == Doubled(2 * base, max, j);
    }
  }

  lemma OverflowBreaksClosedForm(base: Duration, max: Duration) returns (attemptCount: int)
    requires 0 < base <= max < TWO_63 && Crossing(base, max) >= TWO_63
    ensures attemptCount > 1 && !ClosedForm(base, max, attemptCount) && DelayFor(base, max, attemptCount) < 0
  {
    var k := OverflowIsNegative(base, max);
    PowerGrows(base, k);
    attemptCount := k + 1;
    assert Wanted(attemptCount) == k;
  }

  /** The loop computes min(max, base * 2^(n-1)) for every attempt exactly when the first doubling
      that reaches the maximum fits in 64 bits. */
  lemma ClosedFormIff(base: Duration, max: Duration)
    requires 0 < base <= max < TWO_63
    ensures (forall n: int :: ClosedForm(base, max, n)) <==> Crossing(base, max) < TWO_63
  {
    if Crossing(base, max) < TWO_63 {
      forall n: int ensures ClosedForm(base, max, n) {
        ClosedFormWithoutOverflow(base, max, Wanted(n));
      }
    } else {
      var n := OverflowBreaksClosedForm(base, max);
    }
  }

  /** A maximum below 2^62 never overflows, whatever the base. */
  lemma {:induction false} SmallMaximumDoesNotOverflow(base: Duration, max: Duration)
    requires 0 < base <= max < TWO_63 / 2
    ensures Crossing(base, max) < TWO_63
    decreases max - base
  {
    if 2 * base < max {
      SmallMaximumDoesNotOverflow(2 * base, max);
    }
  }

  /** The bound 2^62 is sharp: at the bound itself the second attempt already waits a negative time. */
  lemma OverflowAtTheBound()
    ensures Doubled(TWO_63 / 2, TWO_63 / 2, 1) == -TWO_63
  {
  }

  /** The delay is positive, at most `max`, and grows with the attempt count. */
  lemma DelayIsMonotone(base: Duration, max: Duration, n: int, m: int)
    requires 0 < base <= max && Crossing(base, max) < TWO_63 && n <= m
    ensures 0 < DelayFor(base, max, n) <= DelayFor(base, max, m) <= max
  {
    ClosedFormWithoutOverflow(base, max, Wanted(n));
    ClosedFormWithoutOverflow(base, max, Wanted(m));
    PowerGrows(base, Wanted(n));
    PowersAreMonotone(base, Wanted(n), Wanted(m));
  }

  /** Delays grow with the attempt count exactly when doubling does not overflow. */
  lemma DelayIsMonotoneIff(base: Duration, max: Duration)
    requires 0 < base <= max < TWO_63
    ensures (forall n: int, m: int :: n <= m ==> DelayFor(base, max, n) <= DelayFor(base, max, m))
            <==> Crossing(base, max) < TWO_63
  {
    if Crossing(base, max) < TWO_63 {
      forall n: int, m: int | n <= m ensures DelayFor(base, max, n) <= DelayFor(base, max, m) {
        DelayIsMonotone(base, max, n, m);
      }
    } else {
      var k := OverflowIsNegative(base, max);
      assert Wanted(k + 1) == k && DelayFor(base, max, 1) == base;
      assert DelayFor(base, max, k + 1) < DelayFor(base, max, 1);
    }
  }

  lemma {:induction false} PositiveWithoutOverflow(base: Duration, max: Duration, k: nat)
    requires 0 < base && 0 < max && Crossing(base, max) < TWO_63
    ensures Doubled(base, max, k) > 0
    decreases k
  {
    if k > 0 && 2 * base < max {
      PositiveWithoutOverflow(2 * base, max, k - 1);
    }
  }

  /** Whatever the settings, all delays are positive exactly when the first doubling that reaches the maximum
      does not overflow. */
  lemma DelaysArePositiveIff(base: Duration, max: Duration)
    requires 0 < base < TWO_63 && 0 < max < TWO_63
    ensures (forall n: int :: DelayFor(base, max, n) > 0) <==> Crossing(base, max) < TWO_63
  {
    if Crossing(base, max) < TWO_63 {
      forall n: int ensures DelayFor(base, max, n) > 0 {
        PositiveWithoutOverflow(base, max, Wanted(n));
      }
    } else {
      var k := OverflowIsNegative(base, max);
      assert Wanted(k + 1) == k && DelayFor(base, max, k + 1) < 0;
    }
  }

  lemma {:induction false} PowersAreMonotone(d: int, n: nat, m: nat)
    requires 0 < d && n <= m
    ensures d * Pow2(n) <= d * Pow2(m)
    decreases m
  {
    if n < m {
      PowersAreMonotone(d, n, m - 1);
      PowerGrows(d, m - 1);
      PowerShift(d, m);
    }
  }

  /** No configuration makes a later attempt wait longer than the maximum; the first attempt
      waits longer exactly when the base exceeds it, which the service does not rule out. */
  lemma DelayBoundIff(base: Duration, max: Duration)
    ensures (forall n: int :: DelayFor(base, max, n) <= max) <==> base <= max
    ensures forall n: int :: n > 1 ==> DelayFor(base, max, n) <= max
  {
    assert DelayFor(base, max, 1) == base;
    forall n: int | n > 1 ensures DelayFor(base, max, n) <= max {
      if Wrap64(base * 2) < max {
        DoubledIsBounded(Wrap64(base * 2), max, Wanted(n) - 1);
      }
    }
    forall n: int | base <= max ensures DelayFor(base, max, n) <= max {
      DoubledIsBounded(base, max, Wanted(n));
    }
  }

  lemma {:induction false} DoubledIsBounded(delay: Duration, max: Duration, k: nat)
    requires delay <= max
    ensures Doubled(delay, max, k) <= max
    decreases k
  {
    if k > 0 && Wrap64(delay * 2) < max {
      DoubledIsBounded(Wrap64(delay * 2), max, k - 1);
    }
  }

  /** Positive settings never give a delay below the smallest 64-bit integer, overflow or not. */
  lemma {:induction false} DelayFitsWord(delay: Duration, max: Duration, k: nat)
    requires delay >= -TWO_63 && max >= -TWO_63
    ensures Doubled(delay, max, k) >= -TWO_63
    decreases k
  {
    if k > 0 && Wrap64(delay * 2) < max {
      DelayFitsWord(Wrap64(delay * 2), max, k - 1);
    }
  }

  /** All rounds but the last kept below `max`, so their number is at most 1 + log2(max / base),
      however large the attempt count is. */
  lemma {:induction false} RoundsAreLogarithmic(base: Duration, max: Duration, k: nat)
    requires 0 < base <= max && Crossing(base, max) < TWO_63
    ensures Rounds(base, max, k) > 1 ==> base * Pow2(Rounds(base, max, k) - 1) < max
    decreases k
  {
    if k > 1 && 2 * base < max {
      RoundsAreLogarithmic(2 * base, max, k - 1);
      var r := Rounds(2 * base, max, k - 1);
      assert Rounds(base, max, k) == r + 1;
      if r > 0 {
        PowerShift(base, r);
      }
    }
  }

  lemma {:induction false} ZeroNeverArrives(max: Duration, k: nat)
    requires 0 < max
    ensures Rounds(0, max, k) == k
    decreases k
  {
    if k > 0 {
      ZeroNeverArrives(max, k - 1);
    }
  }

  /** With overflow the number of rounds need not be logarithmic: at the bound 2^62 the delay wraps to zero,
      and the loop runs for every attempt that it is asked for. */
  lemma RoundsAtTheBound(k: nat)
    ensures Rounds(TWO_63 / 2, TWO_63 / 2, k) == k
  {
    if k > 1 {
      assert Wrap64(TWO_63 / 2 * 2) == -TWO_63 && Wrap64(-TWO_63 * 2) == 0;
      ZeroNeverArrives(TWO_63 / 2, k - 2);
    }
  }
}
