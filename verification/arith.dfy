/**
 Exact real arithmetic used by the spline proofs: the square (numpy's `**2`),
 the absolute value, and sign and size facts about products.
 */
module RealArith {

  function Sq(t: real): real { t * t }

  // Facts about products are stated for a named result w: the solver handles
  // "w == a * b" far more reliably than a square written inline.

  lemma ProductPositive(a: real, b: real, w: real)
    requires a > 0.0 && b > 0.0 && w == a * b
    ensures w > 0.0
  {
  }

  lemma ProductNonnegative(a: real, b: real, w: real)
    requires a >= 0.0 && b >= 0.0 && w == a * b
    ensures w >= 0.0
  {
  }

  lemma ProductAtMost(a: real, b: real, c: real, w: real)
    requires a >= 0.0 && b <= c && w == a * b
    ensures w <= a * c
  {
  }

  /** A square is never negative, is zero only at 0, and stays in [0, 1] on [-1, 1]. */
  lemma SqFacts(t: real)
    ensures Sq(t) >= 0.0
    ensures t != 0.0 ==> Sq(t) > 0.0
    ensures -1.0 <= t <= 1.0 ==> Sq(t) <= 1.0
  {
    var u := if t < 0.0 then -t else t;
    assert Sq(t) == u * u;
    if u > 0.0 {
      ProductPositive(u, u, Sq(t));
      if u <= 1.0 {
        ProductAtMost(u, u, 1.0, Sq(t));
      }
    }
  }

  function Abs(t: real): real { if t < 0.0 then -t else t }

  /** A product with a factor in [-1, 1] is no larger in size than the other factor. */
  lemma ScaledBound(d: real, c: real, w: real)
    requires -1.0 <= c <= 1.0 && w == d * c
    ensures Abs(w) <= Abs(d)
  {
    var e := Abs(d);
    if c >= 0.0 {
      ProductAtMost(e, c, 1.0, Abs(w));
    } else {
      ProductAtMost(e, -c, 1.0, Abs(w));
    }
  }
}
