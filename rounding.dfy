/**
 * The two numeric helpers of the game engine that the battle rules rely on:
 * Mathf.Clamp on ints and Mathf.RoundToInt, which rounds to the nearest
 * integer and sends halves to the even neighbour. Rounding is applied here
 * to an exact rational n / d instead of a float product.
 */
module Rounding {

  /**
   * Mathf.Clamp(value, lo, hi) on ints: the lower bound is tested first, so
   * when hi < lo a value below lo still yields lo.
   */
  function Clamp(value: int, lo: int, hi: int): (r: int)
    ensures lo <= hi ==> lo <= r <= hi
    ensures lo <= value <= hi ==> r == value
    ensures lo <= hi && value < lo ==> r == lo
    ensures lo <= hi && hi < value ==> r == hi
  {
    if value < lo then lo else if value > hi then hi else value
  }

  function Max(a: int, b: int): int
  {
    if a >= b then a else b
  }

  /**
   * Round-half-to-even of n / d: the integer nearest to n / d, and of two
   * equally near integers the even one.
   */
  function RoundHalfEven(n: int, d: int): (r: int)
    requires d > 0
    ensures -d <= 2 * (n - r * d) <= d
    ensures 2 * (n - r * d) == d || 2 * (n - r * d) == -d ==> r % 2 == 0
  {
    var q := n / d;
    var rem := n % d;
    if 2 * rem < d then q
    else if 2 * rem > d then q + 1
    else if q % 2 == 0 then q
    else q + 1
  }

  /** The two clauses of RoundHalfEven's contract determine its result. */
  lemma RoundHalfEvenUnique(n: int, d: int, r: int)
    requires d > 0
    requires -d <= 2 * (n - r * d) <= d
    requires 2 * (n - r * d) == d || 2 * (n - r * d) == -d ==> r % 2 == 0
    ensures r == RoundHalfEven(n, d)
  {
    NearestUnique(n, d, r, RoundHalfEven(n, d));
  }

  /** Two integers that both meet RoundHalfEven's contract are equal. */
  lemma NearestUnique(n: int, d: int, r: int, s: int)
    requires d > 0
    requires -d <= 2 * (n - r * d) <= d
    requires 2 * (n - r * d) == d || 2 * (n - r * d) == -d ==> r % 2 == 0
    requires -d <= 2 * (n - s * d) <= d
    requires 2 * (n - s * d) == d || 2 * (n - s * d) == -d ==> s % 2 == 0
    ensures r == s
  {
    if r < s {
      NeighbourGap(n, d, r, s);
    } else if s < r {
      NeighbourGap(n, d, s, r);
    }
  }

  /** Two distinct integers within half a step of n / d are neighbours at a tie. */
  lemma NeighbourGap(n: int, d: int, r: int, s: int)
    requires d > 0 && r < s
    requires -d <= 2 * (n - r * d) <= d
    requires -d <= 2 * (n - s * d) <= d
    ensures s == r + 1 && 2 * (n - r * d) == d && 2 * (n - s * d) == -d
  {
    var k := s - r;
    assert s * d - r * d == k * d by { DistributeDiff(s, r, d); }
    assert k * d >= d by { MulMonotone(1, k, d); }
    assert k * d == d;
    MulCancel(k, 1, d);
  }

  lemma DistributeDiff(s: int, r: int, d: int)
    ensures s * d - r * d == (s - r) * d
  {
  }

  lemma MulCancel(a: int, b: int, d: int)
    requires d > 0 && a * d == b * d
    ensures a == b
  {
    if a < b { MulMonotone(a, b - 1, d); } else if a > b { MulMonotone(b, a - 1, d); }
  }

  lemma MulMonotone(a: int, b: int, d: int)
    requires a <= b && d >= 0
    ensures a * d <= b * d
  {
  }

  /** An exact quotient is not changed by rounding. */
  lemma RoundExact(x: int, d: int)
    requires d > 0
    ensures RoundHalfEven(x * d, d) == x
  {
    RoundHalfEvenUnique(x * d, d, x);
  }

  /** Rounding is monotone in the numerator. */
  lemma RoundMonotone(n1: int, n2: int, d: int)
    requires d > 0 && n1 <= n2
    ensures RoundHalfEven(n1, d) <= RoundHalfEven(n2, d)
  {
    NearestMonotone(n1, n2, d, RoundHalfEven(n1, d), RoundHalfEven(n2, d));
  }

  lemma NearestMonotone(n1: int, n2: int, d: int, r1: int, r2: int)
    requires d > 0 && n1 <= n2
    requires -d <= 2 * (n1 - r1 * d) <= d
    requires 2 * (n1 - r1 * d) == d || 2 * (n1 - r1 * d) == -d ==> r1 % 2 == 0
    requires -d <= 2 * (n2 - r2 * d) <= d
    requires 2 * (n2 - r2 * d) == d || 2 * (n2 - r2 * d) == -d ==> r2 % 2 == 0
    ensures r1 <= r2
  {
    if r1 > r2 {
      MulMonotone(r2 + 1, r1, d);
      assert (r2 + 1) * d == r2 * d + d;
      assert n1 == n2;
      NearestUnique(n1, d, r1, r2);
    }
  }

  /** A non-negative numerator never rounds to a negative number. */
  lemma RoundNonNegative(n: int, d: int)
    requires d > 0 && n >= 0
    ensures RoundHalfEven(n, d) >= 0
  {
    RoundMonotone(0, n, d);
    RoundExact(0, d);
  }
}
