/**
 The cardinal quadratic B-spline B_i^2 with knots t_k = k, written as three
 polynomial pieces over the unit intervals [i-1, i], [i, i+1] and [i+1, i+2],
 and a total function B that is zero outside the support [i-1, i+2].
 Arithmetic is exact over `real`.
 */
module QuadraticBSpline {

  import opened RealArith

  /** The three pieces, left to right. */
  datatype Segment = Rising | Cap | Falling

  /** Left end of the interval on which a piece is used. */
  function Lo(s: Segment, i: real): real {
    match s
    case Rising => i - 1.0
    case Cap => i
    case Falling => i + 1.0
  }

  /** Right end of the interval on which a piece is used. */
  function Hi(s: Segment, i: real): real {
    match s
    case Rising => i
    case Cap => i + 1.0
    case Falling => i + 2.0
  }

  predicate OnSegment(s: Segment, i: real, x: real) {
    Lo(s, i) <= x <= Hi(s, i)
  }

  predicate InSupport(i: real, x: real) {
    i - 1.0 <= x <= i + 2.0
  }

  /** Piece on [i-1, i]: (x - i + 1)^2 / 2. */
  function Piece1(i: real, x: real): (r: real)
    ensures r >= 0.0
    ensures i - 1.0 <= x <= i ==> r <= 0.5
    ensures i - 1.0 < x ==> r > 0.0
  {
    SqFacts(x - i + 1.0);
    0.5 * Sq(x - i + 1.0)
  }

  /** Piece on [i, i+1]: -(x - i)^2 + (x - i) + 1/2. */
  function Piece2(i: real, x: real): (r: real)
    ensures r <= 0.75
  {
    SqFacts(x - i - 0.5);
    -Sq(x - i) + (x - i) + 0.5
  }

  /** Piece on [i+1, i+2]: (i + 2 - x)^2 / 2. */
  function Piece3(i: real, x: real): (r: real)
    ensures r >= 0.0
    ensures i + 1.0 <= x <= i + 2.0 ==> r <= 0.5
    ensures x < i + 2.0 ==> r > 0.0
  {
    SqFacts(i + 2.0 - x);
    0.5 * Sq(i + 2.0 - x)
  }

  /** The polynomial of a piece, evaluated anywhere. */
  function Formula(s: Segment, i: real, x: real): real {
    match s
    case Rising => Piece1(i, x)
    case Cap => Piece2(i, x)
    case Falling => Piece3(i, x)
  }

  /**
   The spline itself: the first piece whose closed interval holds x, and 0
   outside the support. It never leaves [0, 3/4] and is positive exactly on
   the open support.
   */
  function B(i: real, x: real): (r: real)
    ensures 0.0 <= r <= 0.75
    ensures !InSupport(i, x) ==> r == 0.0
    ensures r > 0.0 <==> i - 1.0 < x < i + 2.0
  {
    if i - 1.0 <= x <= i then Piece1(i, x)
    else if i <= x <= i + 1.0 then Piece2Floor(i, x); Piece2(i, x)
    else if i + 1.0 <= x <= i + 2.0 then Piece3(i, x)
    else 0.0
  }

  // ---------------------------------------------------------------------------
  // Values at the knots and the peak

  /** Piece 1 rises from 0 at the left end of the support to 1/2 at the knot i. */
  lemma Piece1Ends(i: real)
    ensures Piece1(i, i - 1.0) == 0.0 && Piece1(i, i) == 0.5
  {
  }

  /** Piece 2 is 1/2 at both of its knots. */
  lemma Piece2Ends(i: real)
    ensures Piece2(i, i) == 0.5 && Piece2(i, i + 1.0) == 0.5
  {
  }

  /** Piece 3 falls from 1/2 at the knot i+1 to 0 at the right end of the support. */
  lemma Piece3Ends(i: real)
    ensures Piece3(i, i + 1.0) == 0.5 && Piece3(i, i + 2.0) == 0.0
  {
  }

  /** Between its knots piece 2 never drops below its knot value 1/2. */
  lemma Piece2Floor(i: real, x: real)
    requires i <= x <= i + 1.0
    ensures Piece2(i, x) >= 0.5
  {
    ProductNonnegative(x - i, 1.0 - (x - i), (x - i) - Sq(x - i));
  }

  /** Completing the square: piece 2 is the downward parabola with vertex (i + 1/2, 3/4). */
  lemma Piece2Vertex(i: real, x: real)
    ensures Piece2(i, x) == 0.75 - Sq(x - i - 0.5)
  {
  }

  /** Piece 2 takes its largest value, 3/4, at x = i + 1/2 and nowhere else. */
  lemma Piece2Peak(i: real, x: real)
    ensures Piece2(i, i + 0.5) == 0.75
    ensures Piece2(i, x) <= 0.75
    ensures Piece2(i, x) == 0.75 <==> x == i + 0.5
  {
    Piece2Vertex(i, x);
    Piece2Vertex(i, i + 0.5);
    SqFacts(x - i - 0.5);
  }

  /**
   The points marked on the plot (the knots i and i+1 at height 1/2 and the
   peak i + 1/2 at height 3/4) lie on B, and B vanishes at both ends of the
   support.
   */
  lemma KeyPointsOnCurve(i: real)
    ensures B(i, i - 1.0) == 0.0
    ensures B(i, i) == 0.5
    ensures B(i, i + 1.0) == 0.5
    ensures B(i, i + 0.5) == 0.75
    ensures B(i, i + 2.0) == 0.0
  {
    Piece2Peak(i, i + 0.5);
  }

  /** The largest value of B is 3/4, reached only at the marked peak i + 1/2. */
  lemma PeakIsUniqueMaximum(i: real, x: real)
    ensures B(i, x) <= B(i, i + 0.5) == 0.75
    ensures B(i, x) == 0.75 <==> x == i + 0.5
  {
    KeyPointsOnCurve(i);
    Piece2Peak(i, x);
  }

  // ---------------------------------------------------------------------------
  // The pieces fit together

  /** Adjacent intervals share their end knot; together they run from i-1 to i+2. */
  lemma SegmentsTile(i: real)
    ensures Lo(Rising, i) == i - 1.0 && Hi(Falling, i) == i + 2.0
    ensures Hi(Rising, i) == Lo(Cap, i) && Hi(Cap, i) == Lo(Falling, i)
    ensures forall s: Segment :: Lo(s, i) < Hi(s, i)
  {
  }

  /** Every point of the support lies on some piece's interval and no point outside does. */
  lemma SegmentsCoverSupport(i: real, x: real)
    ensures InSupport(i, x) <==> exists s: Segment :: OnSegment(s, i, x)
  {
    if InSupport(i, x) {
      if x <= i {
        assert OnSegment(Rising, i, x);
      } else if x <= i + 1.0 {
        assert OnSegment(Cap, i, x);
      } else {
        assert OnSegment(Falling, i, x);
      }
    }
  }

  /** Adjacent pieces agree at their shared knot, so B has no jump. */
  lemma ContinuousAtKnots(i: real)
    ensures Piece1(i, i) == Piece2(i, i)
    ensures Piece2(i, i + 1.0) == Piece3(i, i + 1.0)
  {
    Piece1Ends(i);
    Piece2Ends(i);
    Piece3Ends(i);
  }

  /** On the whole closed interval of each piece, B is that piece's polynomial. */
  lemma BOnSegment(s: Segment, i: real, x: real)
    requires OnSegment(s, i, x)
    ensures B(i, x) == Formula(s, i, x)
  {
    ContinuousAtKnots(i);
  }

  // ---------------------------------------------------------------------------
  // Derivatives: the spline is C1

  /** Derivatives of the three pieces. */
  function DPiece1(i: real, x: real): real { x - i + 1.0 }

  function DPiece2(i: real, x: real): real { -2.0 * (x - i) + 1.0 }

  function DPiece3(i: real, x: real): real { x - i - 2.0 }

  /**
   Exact Taylor expansions of the quadratic pieces: each DPiece is the
   derivative of its piece, the remainder being h^2 times half the second
   derivative.
   */
  lemma Taylor(i: real, x: real, h: real)
    ensures Piece1(i, x + h) == Piece1(i, x) + h * DPiece1(i, x) + 0.5 * Sq(h)
    ensures Piece2(i, x + h) == Piece2(i, x) + h * DPiece2(i, x) - Sq(h)
    ensures Piece3(i, x + h) == Piece3(i, x) + h * DPiece3(i, x) + 0.5 * Sq(h)
  {
  }

  /**
   The slopes match at the interior knots (1 at i, -1 at i+1) and are 0 at the
   ends of the support, where B meets the zero function outside.
   */
  lemma DifferentiableAtKnots(i: real)
    ensures DPiece1(i, i - 1.0) == 0.0
    ensures DPiece1(i, i) == DPiece2(i, i) == 1.0
    ensures DPiece2(i, i + 1.0) == DPiece3(i, i + 1.0) == -1.0
    ensures DPiece3(i, i + 2.0) == 0.0
  {
  }

  /**
   B itself is differentiable at the knot i with slope 1: within distance h of
   i it differs from the tangent line B(i, i) + h by at most h^2, on both sides.
   */
  lemma SmoothAtKnot(i: real, h: real)
    requires -1.0 <= h <= 1.0
    ensures Abs(B(i, i + h) - B(i, i) - h) <= Sq(h)
  {
    SqFacts(h);
    Taylor(i, i, h);
    BOnSegment(Rising, i, i);
    if h <= 0.0 {
      BOnSegment(Rising, i, i + h);
    } else {
      BOnSegment(Cap, i, i + h);
    }
  }

  /** The same at the knot i+1, where the slope of B is -1 from both sides. */
  lemma SmoothAtNextKnot(i: real, h: real)
    requires -1.0 <= h <= 1.0
    ensures Abs(B(i, i + 1.0 + h) - B(i, i + 1.0) + h) <= Sq(h)
  {
    SqFacts(h);
    Taylor(i, i + 1.0, h);
    BOnSegment(Cap, i, i + 1.0);
    if h <= 0.0 {
      BOnSegment(Cap, i, i + 1.0 + h);
    } else {
      BOnSegment(Falling, i, i + 1.0 + h);
    }
  }

  /**
   At the ends of the support B joins the zero function smoothly: its slope
   there is 0, so it stays within h^2 of 0 at distance h.
   */
  lemma FlatAtSupportEnds(i: real, h: real)
    requires -1.0 <= h <= 1.0
    ensures Abs(B(i, i - 1.0 + h) - B(i, i - 1.0)) <= Sq(h)
    ensures Abs(B(i, i + 2.0 + h) - B(i, i + 2.0)) <= Sq(h)
  {
    SqFacts(h);
    KeyPointsOnCurve(i);
    Taylor(i, i - 1.0, h);
    Taylor(i, i + 2.0, h);
    if h >= 0.0 {
      BOnSegment(Rising, i, i - 1.0 + h);
    } else {
      BOnSegment(Falling, i, i + 2.0 + h);
    }
  }

  // ---------------------------------------------------------------------------
  // Continuity: B never changes faster than its steepest slope, 1

  lemma Piece1Lipschitz(i: real, x: real, y: real)
    requires i - 1.0 <= x <= i && i - 1.0 <= y <= i
    ensures Abs(Piece1(i, x) - Piece1(i, y)) <= Abs(x - y)
  {
    var c := 0.5 * ((x - i + 1.0) + (y - i + 1.0));
    ScaledBound(x - y, c, Piece1(i, x) - Piece1(i, y));
  }

  lemma Piece2Lipschitz(i: real, x: real, y: real)
    requires i <= x <= i + 1.0 && i <= y <= i + 1.0
    ensures Abs(Piece2(i, x) - Piece2(i, y)) <= Abs(x - y)
  {
    var c := 1.0 - (x - i) - (y - i);
    ScaledBound(x - y, c, Piece2(i, x) - Piece2(i, y));
  }

  lemma Piece3Lipschitz(i: real, x: real, y: real)
    requires i + 1.0 <= x <= i + 2.0 && i + 1.0 <= y <= i + 2.0
    ensures Abs(Piece3(i, x) - Piece3(i, y)) <= Abs(x - y)
  {
    var c := -0.5 * ((i + 2.0 - x) + (i + 2.0 - y));
    ScaledBound(x - y, c, Piece3(i, x) - Piece3(i, y));
  }

  /** Number of knots i-1, i, i+1, i+2 lying strictly to the right of x. */
  function KnotsAbove(i: real, x: real): nat {
    (if x < i - 1.0 then 1 else 0) + (if x < i then 1 else 0)
    + (if x < i + 1.0 then 1 else 0) + (if x < i + 2.0 then 1 else 0)
  }

  lemma {:induction false} LipschitzOrdered(i: real, x: real, y: real)
    requires x <= y
    ensures Abs(B(i, x) - B(i, y)) <= y - x
    decreases KnotsAbove(i, x)
  {
    if x < i - 1.0 {
      if y > i - 1.0 {
        LipschitzOrdered(i, i - 1.0, y);
      }
    } else if x < i {
      if y <= i {
        BOnSegment(Rising, i, x);
        BOnSegment(Rising, i, y);
        Piece1Lipschitz(i, x, y);
      } else {
        BOnSegment(Rising, i, x);
        BOnSegment(Rising, i, i);
        Piece1Lipschitz(i, x, i);
        LipschitzOrdered(i, i, y);
      }
    } else if x < i + 1.0 {
      if y <= i + 1.0 {
        BOnSegment(Cap, i, x);
        BOnSegment(Cap, i, y);
        Piece2Lipschitz(i, x, y);
      } else {
        BOnSegment(Cap, i, x);
        BOnSegment(Cap, i, i + 1.0);
        Piece2Lipschitz(i, x, i + 1.0);
        LipschitzOrdered(i, i + 1.0, y);
      }
    } else if x < i + 2.0 {
      if y <= i + 2.0 {
        BOnSegment(Falling, i, x);
        BOnSegment(Falling, i, y);
        Piece3Lipschitz(i, x, y);
      } else {
        BOnSegment(Falling, i, x);
        BOnSegment(Falling, i, i + 2.0);
        Piece3Lipschitz(i, x, i + 2.0);
      }
    }
  }

  /** |B(i, x) - B(i, y)| <= |x - y|: B is continuous on the whole real line. */
  lemma Lipschitz(i: real, x: real, y: real)
    ensures Abs(B(i, x) - B(i, y)) <= Abs(x - y)
  {
    if x <= y {
      LipschitzOrdered(i, x, y);
    } else {
      LipschitzOrdered(i, y, x);
    }
  }

  // ---------------------------------------------------------------------------
  // Shape: the same for every i, and symmetric about i + 1/2

  /** Shifting i shifts the graph: B(i, x) == B(0, x - i). */
  lemma TranslationInvariant(i: real, x: real)
    ensures B(i, x) == B(0.0, x - i)
  {
  }

  /** Reflecting about i + 1/2 maps piece 1 onto piece 3 and piece 2 onto itself. */
  lemma PiecesMirror(i: real, x: real)
    ensures Piece3(i, x) == Piece1(i, 2.0 * i + 1.0 - x)
    ensures Piece1(i, x) == Piece3(i, 2.0 * i + 1.0 - x)
    ensures Piece2(i, x) == Piece2(i, 2.0 * i + 1.0 - x)
  {
  }

  /** B(i, i + 1/2 + d) == B(i, i + 1/2 - d) for every d. */
  lemma Symmetric(i: real, d: real)
    ensures B(i, i + 0.5 + d) == B(i, i + 0.5 - d)
  {
    var x, y := i + 0.5 + d, i + 0.5 - d;
    assert y == 2.0 * i + 1.0 - x;
    PiecesMirror(i, x);
    PiecesMirror(i, y);
    ContinuousAtKnots(i);
  }

  // ---------------------------------------------------------------------------
  // Integer translates form a partition of unity

  /**
   On [j, j+1] only the translates B(j-1, .), B(j, .) and B(j+1, .) can be
   nonzero (the ones at j-2 and j+2 vanish there), and these three sum to 1.
   */
  lemma PartitionOfUnity(j: real, x: real)
    requires j <= x <= j + 1.0
    ensures B(j - 1.0, x) + B(j, x) + B(j + 1.0, x) == 1.0
    ensures B(j - 2.0, x) == 0.0 && B(j + 2.0, x) == 0.0
  {
    BOnSegment(Falling, j - 1.0, x);
    BOnSegment(Cap, j, x);
    BOnSegment(Rising, j + 1.0, x);
  }
}
