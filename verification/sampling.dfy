/**
 The data the plotting routine draws: for each piece a grid of sample points
 spanning its interval (numpy's `linspace`), the piece's polynomial applied
 element-wise to that grid, and the three marked points (the knots i, i+1
 and the peak i + 1/2). Arithmetic is exact over `real`.
 */
module Sampling {

  import opened RealArith
  import opened QuadraticBSpline

  /** Number of sample points per piece. */
  const Samples: nat := 100

  /**
   `n` evenly spaced points from `a` to `b`, both ends included; no point for
   n = 0 and just `a` for n = 1.
   */
  function Linspace(a: real, b: real, n: nat): (g: seq<real>)
    ensures |g| == n
    ensures n >= 1 ==> g[0] == a
    ensures n >= 2 ==> g[n - 1] == b
    ensures n >= 2 ==> forall k :: 0 <= k < n - 1 ==> g[k + 1] - g[k] == (b - a) / ((n - 1) as real)
    ensures a <= b ==> forall k :: 0 <= k < n ==> a <= g[k] <= b
  {
    if n == 0 then []
    else if n == 1 then [a]
    else
      var step := (b - a) / ((n - 1) as real);
      var g := seq(n, k requires 0 <= k < n => a + (k as real) * step);
      LinspaceWithin(a, b, n, step, g);
      g
  }

  lemma LinspaceWithin(a: real, b: real, n: nat, step: real, g: seq<real>)
    requires n >= 2 && step == (b - a) / ((n - 1) as real)
    requires |g| == n && forall k :: 0 <= k < n ==> g[k] == a + (k as real) * step
    ensures g[n - 1] == b
    ensures forall k :: 0 <= k < n - 1 ==> g[k + 1] - g[k] == step
    ensures a <= b ==> forall k :: 0 <= k < n ==> a <= g[k] <= b
  {
    var m := (n - 1) as real;
    assert m * step == b - a;
    forall k | 0 <= k < n - 1
      ensures g[k + 1] - g[k] == step
    {
      assert ((k + 1) as real) * step == (k as real) * step + step;
    }
    if a <= b {
      assert step >= 0.0;
      forall k | 0 <= k < n
        ensures a <= g[k] <= b
      {
        ProductNonnegative(step, k as real, (k as real) * step);
        ProductAtMost(step, k as real, m, (k as real) * step);
      }
    }
  }

  /** One piece's polynomial applied to every sample point, as numpy does element-wise. */
  function Evaluate(s: Segment, i: real, xs: seq<real>): (ys: seq<real>)
    ensures |ys| == |xs|
    ensures forall k :: 0 <= k < |xs| ==> ys[k] == Formula(s, i, xs[k])
  {
    if xs == [] then [] else [Formula(s, i, xs[0])] + Evaluate(s, i, xs[1..])
  }

  /** A drawn curve: sample points and the values plotted at them. */
  datatype Curve = Curve(xs: seq<real>, ys: seq<real>)

  /** The grid for one piece: `Samples` points across its interval. */
  function Grid(s: Segment, i: real): (g: seq<real>)
    ensures |g| == Samples
    ensures g[0] == Lo(s, i) && g[Samples - 1] == Hi(s, i)
    ensures forall k :: 0 <= k < Samples ==> OnSegment(s, i, g[k])
  {
    Linspace(Lo(s, i), Hi(s, i), Samples)
  }

  /**
   The curve drawn for one piece. Every plotted value is the value of the
   total spline B at that sample, so the three drawn segments trace B.
   */
  function PieceCurve(s: Segment, i: real): (c: Curve)
    ensures |c.xs| == |c.ys| == Samples
    ensures c.xs[0] == Lo(s, i) && c.xs[Samples - 1] == Hi(s, i)
    ensures forall k :: 0 <= k < Samples ==> c.ys[k] == B(i, c.xs[k])
    ensures forall k :: 0 <= k < Samples ==> 0.0 <= c.ys[k] <= 0.75
  {
    var xs := Grid(s, i);
    var ys := Evaluate(s, i, xs);
    forall k | 0 <= k < Samples
      ensures ys[k] == B(i, xs[k])
    {
      BOnSegment(s, i, xs[k]);
    }
    Curve(xs, ys)
  }

  /**
   The three drawn segments join up: each ends at the point where the next
   begins, the first starts at (i-1, 0) and the last ends at (i+2, 0).
   */
  lemma CurvesJoin(i: real)
    ensures PieceCurve(Rising, i).xs[0] == i - 1.0 && PieceCurve(Rising, i).ys[0] == 0.0
    ensures PieceCurve(Rising, i).xs[Samples - 1] == PieceCurve(Cap, i).xs[0]
    ensures PieceCurve(Rising, i).ys[Samples - 1] == PieceCurve(Cap, i).ys[0]
    ensures PieceCurve(Cap, i).xs[Samples - 1] == PieceCurve(Falling, i).xs[0]
    ensures PieceCurve(Cap, i).ys[Samples - 1] == PieceCurve(Falling, i).ys[0]
    ensures PieceCurve(Falling, i).xs[Samples - 1] == i + 2.0
    ensures PieceCurve(Falling, i).ys[Samples - 1] == 0.0
  {
    KeyPointsOnCurve(i);
  }

  /**
   The marked points: the two interior knots i and i+1, where the drawn
   curves join, and the midpoint i + 1/2 between them. All three lie on B,
   and the last is its unique maximum.
   */
  function Markers(i: real): (c: Curve)
    ensures |c.xs| == |c.ys| == 3
    ensures c.xs[0] == Hi(Rising, i) == Lo(Cap, i)
    ensures c.xs[1] == Hi(Cap, i) == Lo(Falling, i)
    ensures c.xs[2] == (Lo(Cap, i) + Hi(Cap, i)) / 2.0
    ensures forall k :: 0 <= k < 3 ==> c.ys[k] == B(i, c.xs[k])
    ensures forall x :: B(i, x) <= c.ys[2]
    ensures forall x :: B(i, x) == c.ys[2] ==> x == c.xs[2]
  {
    KeyPointsOnCurve(i);
    forall x | B(i, x) == 0.75
      ensures x == i + 0.5
    {
      PeakIsUniqueMaximum(i, x);
    }
    Curve([i, i + 1.0, i + 0.5], [0.5, 0.5, 0.75])
  }
}
