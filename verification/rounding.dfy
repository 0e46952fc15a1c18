/**
 * Conversion of a quotient to a 32-bit integer as .NET's `Convert.ToInt32(double)`
 * performs it: round to the nearest integer, ties to the even neighbour, and raise an
 * overflow when the rounded value leaves the Int32 range.
 *
 * The source rounds a `double`; here the quotient is the exact rational n/d, which
 * idealises away the IEEE-754 rounding error of the division itself.
 */
module Rounding {
  import opened Wrappers

  const INT32_MIN: int := -0x8000_0000
  const INT32_MAX: int := 0x7FFF_FFFF

  /** The values of a C# `int`. */
  type Int32 = x: int | INT32_MIN <= x <= INT32_MAX

  /** r is an integer nearest to n/d (d > 0), and the even one when n/d lies half-way. */
  ghost predicate NearestHalfEven(r: int, n: int, d: int)
    requires d > 0
  {
    && -d <= 2 * (r * d - n) <= d
    && (2 * (r * d - n) == d || 2 * (r * d - n) == -d ==> r % 2 == 0)
  }

  /** The same rule stated over the real quotient x. */
  ghost predicate NearestHalfEvenReal(r: int, x: real)
  {
    && -0.5 <= r as real - x <= 0.5
    && (r as real - x == 0.5 || r as real - x == -0.5 ==> r % 2 == 0)
  }

  /** n/d rounds, to nearest with ties to even, to a value of Int32. */
  ghost predicate RoundsIntoInt32(n: int, d: int)
    requires d > 0
  {
    exists v :: INT32_MIN <= v <= INT32_MAX && NearestHalfEven(v, n, d)
  }

  /** n/d rounded to nearest, ties to even (banker's rounding). */
  function RoundHalfEven(n: int, d: int): (r: int)
    requires d > 0
    ensures NearestHalfEven(r, n, d)
  {
    var q := n / d;
    var m := n % d;
    assert q * d + m == n;
    if 2 * m < d then q
    else if 2 * m > d then q + 1
    else if q % 2 == 0 then q
    else q + 1
  }

  /** `Convert.ToInt32(n / d)`: None stands for the OverflowException. */
  function ConvertToInt32(n: int, d: int): (o: Option<Int32>)
    requires d > 0
    ensures o.Some? ==> NearestHalfEven(o.value, n, d)
    ensures o.None? ==> forall r :: NearestHalfEven(r, n, d) ==> r < INT32_MIN || INT32_MAX < r
    ensures o.Some? <==> RoundsIntoInt32(n, d)
  {
    var r := RoundHalfEven(n, d);
    if INT32_MIN <= r <= INT32_MAX then Some(r)
    else
      assert forall r' :: NearestHalfEven(r', n, d) ==> r' == r by {
        forall r' | NearestHalfEven(r', n, d) ensures r' == r {
          NearestHalfEvenUnique(r', r, n, d);
        }
      }
      None
  }

  /** Multiplying by a positive d preserves a strict order, read backwards. */
  lemma MulStrictBelow(e: int, d: int, k: int)
    requires d > 0
    requires e * d < k * d
    ensures e < k
  {
    assert k * d - e * d == (k - e) * d;
    if e >= k {
      NonNegativeProduct(e - k, d);
    }
  }

  lemma NonNegativeProduct(a: int, b: int)
    requires a >= 0 && b > 0
    ensures a * b >= 0
  {
  }

  /** At most one integer is nearest to n/d under the ties-to-even rule. */
  lemma NearestHalfEvenUnique(r: int, r': int, n: int, d: int)
    requires d > 0
    requires NearestHalfEven(r, n, d) && NearestHalfEven(r', n, d)
    ensures r == r'
  {
    WithinOne(r, r', n, d);
    NotNeighbours(r, r', n, d);
    NotNeighbours(r', r, n, d);
  }

  /** Two nearest integers are at most 1 apart. */
  lemma WithinOne(r: int, r': int, n: int, d: int)
    requires d > 0
    requires NearestHalfEven(r, n, d) && NearestHalfEven(r', n, d)
    ensures -1 <= r - r' <= 1
  {
    var e := r - r';
    assert r * d - r' * d == e * d;
    MulStrictBelow(e, d, 2);
    MulStrictBelow(-e, d, 2);
  }

  /** r' + 1 and r' cannot both be nearest: both quotients would be ties, both even. */
  lemma NotNeighbours(r: int, r': int, n: int, d: int)
    requires d > 0
    requires NearestHalfEven(r, n, d) && NearestHalfEven(r', n, d)
    ensures r != r' + 1
  {
    assert (r' + 1) * d == r' * d + d;
    if r == r' + 1 {
      OddNeighbour(r');
    }
  }

  lemma OddNeighbour(a: int)
    ensures a % 2 == 0 ==> (a + 1) % 2 != 0
  {
  }

  /** RoundHalfEven is exactly the nearest-ties-to-even rule, in both directions. */
  lemma RoundHalfEvenIsNearest(r: int, n: int, d: int)
    requires d > 0
    ensures RoundHalfEven(n, d) == r <==> NearestHalfEven(r, n, d)
  {
    if NearestHalfEven(r, n, d) {
      NearestHalfEvenUnique(r, RoundHalfEven(n, d), n, d);
    }
  }

  /** The integer and the real statement of the rounding rule agree on n/d. */
  lemma NearestHalfEvenAsReal(r: int, n: int, d: int)
    requires d > 0
    ensures NearestHalfEven(r, n, d) <==> NearestHalfEvenReal(r, n as real / d as real)
  {
    var k := r * d - n;
    DistanceAsQuotient(r, n, d);
    HalfBounds(k, d);
  }

  /** The distance from r to n/d is the quotient (r*d - n)/d. */
  lemma DistanceAsQuotient(r: int, n: int, d: int)
    requires d > 0
    ensures r as real - n as real / d as real == (r * d - n) as real / d as real
  {
    var dr := d as real;
    var x, y := n as real / dr, (r * d - n) as real / dr;
    QuotientScales(n, d);
    QuotientScales(r * d - n, d);
    assert (r * d) as real == r as real * dr;
    // (r - x - y) * d = r*d - n - (r*d - n) = 0, and d is not 0
    assert (r as real - x - y) * dr == r as real * dr - x * dr - y * dr;
    SignOfScaled(r as real - x - y, dr);
  }

  /** Multiplying a quotient k/d back by d gives k. */
  lemma QuotientScales(k: int, d: int)
    requires d > 0
    ensures (k as real / d as real) * d as real == k as real
  {
  }

  /** A positive factor keeps the sign of a real. */
  lemma SignOfScaled(a: real, c: real)
    requires c > 0.0
    ensures a <= 0.0 <==> a * c <= 0.0
    ensures a == 0.0 <==> a * c == 0.0
  {
    if a > 0.0 {
      PositiveTimesPositive(a, c);
    } else if a < 0.0 {
      PositiveTimesPositive(-a, c);
      assert a * c == -((-a) * c);
    }
  }

  lemma PositiveTimesPositive(a: real, c: real)
    requires a > 0.0 && c > 0.0
    ensures a * c > 0.0
  {
  }

  /** 2k compares with d as k/d compares with 1/2. */
  lemma HalfBounds(k: int, d: int)
    requires d > 0
    ensures 2 * k <= d <==> k as real / d as real <= 0.5
    ensures -d <= 2 * k <==> -0.5 <= k as real / d as real
    ensures 2 * k == d <==> k as real / d as real == 0.5
    ensures 2 * k == -d <==> k as real / d as real == -0.5
  {
    var dr := d as real;
    var y := k as real / dr;
    QuotientScales(k, d);
    // (2y - 1) * d = 2k - d and (2y + 1) * d = 2k + d carry the signs of the comparisons
    var u, v := 2.0 * y - 1.0, 2.0 * y + 1.0;
    assert u * dr == 2.0 * (y * dr) - dr;
    assert v * dr == 2.0 * (y * dr) + dr;
    assert u * dr == (2 * k - d) as real;
    assert v * dr == (2 * k + d) as real;
    SignOfScaled(u, dr);
    SignOfScaled(v, dr);
  }

  /** Rounding keeps a quotient inside integer bounds that enclose it. */
  lemma RoundHalfEvenWithin(n: int, d: int, lo: int, hi: int)
    requires d > 0
    requires lo * d <= n <= hi * d
    ensures lo <= RoundHalfEven(n, d) <= hi
  {
    var r := RoundHalfEven(n, d);
    // 2(r*d - n) <= d < 2d, so r*d < n + d <= (hi + 1) * d
    assert 2 * (r * d) <= 2 * n + d;
    assert r * d <= (hi + 1) * d - 1;
    MulStrictBelow(r, d, hi + 1);
    assert 2 * (r * d) >= 2 * n - d;
    assert (lo - 1) * d + 1 <= r * d;
    MulStrictBelow(lo - 1, d, r);
  }
}
