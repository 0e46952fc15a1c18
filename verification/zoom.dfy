/**
 * Zoom factors `(double)extent / (double)limit`, as the dual-axis sizing compares them.
 *
 * A factor is kept as an exact fraction with a positive denominator, which idealises the
 * `double` quotient; a zero limit gives the IEEE-754 value +Infinity (extent is positive),
 * which the comparison `>` treats as larger than every finite factor and not larger than
 * itself.
 */
module Zoom {

  datatype Factor = Finite(num: int, den: int) | Infinite

  /** Finite factors carry a positive denominator. */
  ghost predicate Valid(f: Factor)
  {
    f.Finite? ==> f.den > 0
  }

  /** The exact value of a finite factor. */
  ghost function Value(f: Factor): real
    requires Valid(f) && f.Finite?
  {
    f.num as real / f.den as real
  }

  /** The zoom factor extent / limit of a positive extent. */
  function FactorOf(extent: int, limit: int): (f: Factor)
    requires extent > 0
    ensures Valid(f)
    ensures f.Infinite? <==> limit == 0
    ensures f.Finite? ==> f.num * limit == extent * f.den
  {
    if limit == 0 then Infinite
    else if limit > 0 then Finite(extent, limit)
    else Finite(-extent, -limit)
  }

  /** `a > b` on the two doubles the factors stand for. */
  function Greater(a: Factor, b: Factor): (g: bool)
    requires Valid(a) && Valid(b)
    ensures a.Finite? && b.Finite? ==> (g <==> Value(a) > Value(b))
    ensures a.Infinite? ==> (g <==> b.Finite?)
    ensures b.Infinite? ==> !g
  {
    match (a, b)
    case (Infinite, _) => b.Finite?
    case (Finite(_, _), Infinite) => false
    case (Finite(p, q), Finite(r, s)) => p * s > r * q
  }

  /** Two factors of positive limits compare as the quotients extent / limit do. */
  lemma GreaterOfPositiveLimits(w: int, maxW: int, h: int, maxH: int)
    requires w > 0 && h > 0 && maxW > 0 && maxH > 0
    ensures Greater(FactorOf(w, maxW), FactorOf(h, maxH)) <==> w * maxH > h * maxW
    ensures Greater(FactorOf(w, maxW), FactorOf(h, maxH))
        <==> w as real / maxW as real > h as real / maxH as real
  {
  }

  /** The factor of a non-zero limit, negative ones included, is finite with value extent / limit. */
  lemma ValueOfNonZeroLimit(extent: int, limit: int)
    requires extent > 0 && limit != 0
    ensures FactorOf(extent, limit).Finite?
    ensures Value(FactorOf(extent, limit)) == extent as real / limit as real
  {
  }

  /** Two factors of non-zero limits compare as the real quotients extent / limit do. */
  lemma GreaterOfNonZeroLimits(w: int, maxW: int, h: int, maxH: int)
    requires w > 0 && h > 0 && maxW != 0 && maxH != 0
    ensures Greater(FactorOf(w, maxW), FactorOf(h, maxH))
        <==> w as real / maxW as real > h as real / maxH as real
  {
    ValueOfNonZeroLimit(w, maxW);
    ValueOfNonZeroLimit(h, maxH);
  }

  /**
   * A zero limit gives the factor +Infinity: it is greater than every factor of a
   * non-zero limit, no such factor is greater than it, and it is not greater than itself.
   */
  lemma GreaterOfZeroLimit(e: int, e': int, limit: int)
    requires e > 0 && e' > 0 && limit != 0
    ensures Greater(FactorOf(e, 0), FactorOf(e', limit))
    ensures !Greater(FactorOf(e', limit), FactorOf(e, 0))
    ensures !Greater(FactorOf(e, 0), FactorOf(e', 0))
  {
  }
}
