/** The few facts about products and quotients that the components need. */
module Arithmetic {
  lemma ProductGrows(a: nat, b: nat, d: nat)
    requires a < b
    ensures a * d + d <= b * d
  {
    assert b * d == a * d + (b - a) * d;
    assert (b - a) * d == d + (b - a - 1) * d;
  }

  /** A quotient is the only number whose multiples bracket the dividend. */
  lemma QuotientIs(a: nat, d: nat, q: nat)
    requires d > 0 && q * d <= a < q * d + d
    ensures a / d == q
  {
    var p := a / d;
    assert p * d <= a < p * d + d;
    if p < q {
      ProductGrows(p, q, d);
    } else if q < p {
      ProductGrows(q, p, d);
    }
  }

  lemma QuotientStep(a: nat, d: nat)
    requires d > 0
    ensures (a + d) / d == a / d + 1
  {
    var q := a / d;
    assert q * d <= a < q * d + d;
    assert (q + 1) * d == q * d + d;
    QuotientIs(a + d, d, q + 1);
  }

  lemma QuotientAtMost(a: nat, d: nat, k: nat)
    requires d > 0 && a <= k * d
    ensures a / d <= k
  {
    var q := a / d;
    assert q * d <= a;
    if k < q {
      ProductGrows(k, q, d);
    }
  }

  /** The quotient rounded up. */
  function Ceiling(a: nat, d: nat): nat
    requires d > 0
  {
    (a + d - 1) / d
  }

  /** The quotient rounded up counts how many pieces of size `d` it takes to reach `a`. */
  lemma CeilingReaches(a: nat, d: nat, k: nat)
    requires d > 0
    ensures k < Ceiling(a, d) <==> k * d < a
  {
    var n := Ceiling(a, d);
    assert n * d <= a + d - 1 < n * d + d;
    if k < n {
      ProductGrows(k, n, d);
    } else if n < k {
      ProductGrows(n, k, d);
    }
  }

  // ----- Products of reals ----------------------------------------------------------------------

  /** A product. Having a name for it lets proofs reason about products through the facts below. */
  function Times(x: real, y: real): real { x * y }

  lemma TimesMonotone(x: real, a: real, b: real)
    requires x >= 0.0 && a <= b
    ensures Times(x, a) <= Times(x, b)
  {
  }

  lemma TimesPositive(x: real, y: real)
    requires x > 0.0 && y > 0.0
    ensures Times(x, y) > 0.0
  {
  }

  lemma TimesCommutes(x: real, y: real)
    ensures Times(x, y) == Times(y, x) && Times(1.0, x) == x && Times(0.0, x) == 0.0
  {
  }

  lemma TimesMinus(x: real, a: real, b: real)
    ensures Times(x, a - b) == Times(x, a) - Times(x, b)
  {
  }

  /** A weighted mean and its parts. */
  lemma Weighted(a: real, x: real)
    ensures Times(1.0 - a, x) == x - Times(a, x)
  {
  }

  lemma WeightedScaled(a: real, x: real, y: real, e: real)
    ensures Times(Times(1.0 - a, x) + Times(a, y), e) == Times(1.0 - a, Times(x, e)) + Times(a, Times(y, e))
  {
    var (p, q) := (Times(1.0 - a, x), Times(a, y));
    assert (p + q) * e == p * e + q * e;
    assert p * e == (1.0 - a) * (x * e) && q * e == a * (y * e);
  }

  /** A weighted mean of two numbers below a bound is below it. */
  lemma MeanBelow(a: real, x: real, y: real, bound: real)
    requires 0.0 < a <= 1.0 && x < bound && y < bound
    ensures Times(1.0 - a, x) + Times(a, y) < bound
  {
    TimesMonotone(1.0 - a, x, bound);
    TimesPositive(a, bound - y);
    TimesMinus(a, bound, y);
    Weighted(a, bound);
    hide Times;
  }

  /** A weighted mean with a number above a goal stays above it, or rises by a fixed amount. */
  lemma MeanRises(a: real, x: real, y: real, goal: real)
    requires 0.0 < a <= 1.0 && goal < y
    ensures x >= goal ==> Times(1.0 - a, x) + Times(a, y) >= goal
    ensures x < goal ==> Times(1.0 - a, x) + Times(a, y) >= x + Times(a, y - goal)
  {
    Weighted(a, x);
    Weighted(a, goal);
    TimesMinus(a, y, goal);
    TimesMonotone(a, goal, y);
    if x >= goal {
      TimesMonotone(1.0 - a, goal, x);
    } else {
      TimesMonotone(a, x, goal);
    }
    hide Times;
  }
}
