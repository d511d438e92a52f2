# Quadratic cardinal B-spline, modelled in Dafny

The repository's one routine, `plot_quadratic_bspline_pdf` in
`Theoretical_HW_3/a.py`, draws the cardinal quadratic B-spline B_i^2 with
knots t_k = k. It builds three 100-point grids on [i-1, i], [i, i+1] and
[i+1, i+2]. It evaluates one polynomial piece on each grid and marks the knots
i, i+1 and the peak i + 1/2. The routine fixes i = 0, and its comment says the
shape is the same for any i.

This project models that arithmetic over exact `real`s:

- `arith.dfy`, module `RealArith`: the square `Sq` (numpy's `**2`), `Abs`,
  and sign and size facts about products that the proofs below use.
- `bspline.dfy`, module `QuadraticBSpline`: the three pieces `Piece1`,
  `Piece2` and `Piece3`. It also gives their intervals (`Segment`, `Lo`, `Hi`)
  and a total `B(i, x)`. `B` takes the first piece whose closed interval
  contains x and is 0 outside the support [i-1, i+2]. The lemmas prove the
  values at the knots, the peak, continuity, the slopes of B at the knots
  (C1 smoothness), a Lipschitz bound, translation invariance, symmetry about
  i + 1/2 and the partition of unity of integer translates.
- `sampling.dfy`, module `Sampling`: numpy's `linspace` (`Linspace`), the
  element-wise evaluation of a piece on a grid (`Evaluate`), and the three
  drawn curves (`PieceCurve`). Every plotted value is proved to equal `B` at
  its sample point, and consecutive curves are proved to meet. `Markers` holds
  the three marked points, which are proved to lie on `B`.

The reference index `i` is a `real` parameter, not the constant 0, so every
property holds for every i. At the knots x = i and x = i + 1 two intervals
overlap. `B` takes the left piece there, and `ContinuousAtKnots` shows that
the choice does not matter.

## Model

| member | source | states |
|---|---|---|
| QuadraticBSpline.Piece1 | Theoretical_HW_3/a.py:24 | the piece (x-i+1)^2/2 is never negative, is at most 1/2 on [i-1, i], and is positive right of i-1 |
| QuadraticBSpline.Piece2 | Theoretical_HW_3/a.py:26 | the piece -(x-i)^2 + (x-i) + 1/2 never exceeds 3/4 anywhere |
| QuadraticBSpline.Piece3 | Theoretical_HW_3/a.py:28 | the piece (i+2-x)^2/2 is never negative, is at most 1/2 on [i+1, i+2], and is positive left of i+2 |
| QuadraticBSpline.B | Theoretical_HW_3/a.py:7-28 | the total spline stays in [0, 3/4], is 0 outside the support [i-1, i+2], and is positive exactly on the open support (i-1, i+2) |
| QuadraticBSpline.Piece1Ends | Theoretical_HW_3/a.py:24 | piece 1 is 0 at the left support end i-1 and 1/2 at the knot i |
| QuadraticBSpline.Piece2Ends | Theoretical_HW_3/a.py:26 | piece 2 is 1/2 at both knots i and i+1 |
| QuadraticBSpline.Piece3Ends | Theoretical_HW_3/a.py:28 | piece 3 is 1/2 at the knot i+1 and 0 at the right support end i+2 |
| QuadraticBSpline.Piece2Floor | Theoretical_HW_3/a.py:26 | on [i, i+1], piece 2 is at least 1/2 |
| QuadraticBSpline.Piece2Vertex | Theoretical_HW_3/a.py:26 | piece 2 equals 3/4 - (x - i - 1/2)^2, the parabola with vertex (i+1/2, 3/4) |
| QuadraticBSpline.Piece2Peak | Theoretical_HW_3/a.py:26 | piece 2 is 3/4 at i+1/2, at most 3/4 everywhere, and equals 3/4 only at i+1/2 |
| QuadraticBSpline.KeyPointsOnCurve | Theoretical_HW_3/a.py:50-53 | B is 0 at i-1, 1/2 at i, 3/4 at i+1/2, 1/2 at i+1 and 0 at i+2 |
| QuadraticBSpline.PeakIsUniqueMaximum | Theoretical_HW_3/a.py:50-53 | B(i, x) never exceeds B(i, i+1/2) = 3/4, and reaches 3/4 exactly at x = i+1/2 |
| QuadraticBSpline.SegmentsTile | Theoretical_HW_3/a.py:16-20 | the three intervals are non-empty, each ends where the next starts, and together they run from i-1 to i+2 |
| QuadraticBSpline.SegmentsCoverSupport | Theoretical_HW_3/a.py:7-20 | x lies in the support [i-1, i+2] if and only if it lies in one of the three intervals |
| QuadraticBSpline.ContinuousAtKnots | Theoretical_HW_3/a.py:24-28 | adjacent pieces agree at the shared knots: Piece1 = Piece2 at i and Piece2 = Piece3 at i+1 |
| QuadraticBSpline.BOnSegment | Theoretical_HW_3/a.py:16-28 | on the whole closed interval of each piece, including both knots, B equals that piece's polynomial |
| QuadraticBSpline.Taylor | Theoretical_HW_3/a.py:24-28 | exact second-order expansions of each piece around any x, which identify DPiece1..3 as the pieces' derivatives |
| QuadraticBSpline.SmoothAtKnot | Theoretical_HW_3/a.py:24-26 | B itself has slope 1 at the knot i from both sides: abs(B(i, i+h) - B(i, i) - h) <= h^2 for abs(h) <= 1 |
| QuadraticBSpline.SmoothAtNextKnot | Theoretical_HW_3/a.py:26-28 | B itself has slope -1 at the knot i+1 from both sides: abs(B(i, i+1+h) - B(i, i+1) + h) <= h^2 for abs(h) <= 1 |
| QuadraticBSpline.FlatAtSupportEnds | Theoretical_HW_3/a.py:7-28 | B has slope 0 at i-1 and at i+2, where it meets the zero function: it stays within h^2 of its end value at distance h |
| QuadraticBSpline.DifferentiableAtKnots | Theoretical_HW_3/a.py:24-28 | the slopes agree at the knots (1 at i, -1 at i+1) and are 0 at i-1 and i+2, where B meets the zero function |
| QuadraticBSpline.Piece1Lipschitz | Theoretical_HW_3/a.py:24 | on [i-1, i], piece 1 changes by at most the distance between its arguments |
| QuadraticBSpline.Piece2Lipschitz | Theoretical_HW_3/a.py:26 | on [i, i+1], piece 2 changes by at most the distance between its arguments |
| QuadraticBSpline.Piece3Lipschitz | Theoretical_HW_3/a.py:28 | on [i+1, i+2], piece 3 changes by at most the distance between its arguments |
| QuadraticBSpline.LipschitzOrdered | Theoretical_HW_3/a.py:16-28 | for x <= y, B(i, y) differs from B(i, x) by at most y - x, across knots and outside the support |
| QuadraticBSpline.Lipschitz | Theoretical_HW_3/a.py:16-28 | abs(B(i, x) - B(i, y)) <= abs(x - y) for all x and y, so B is continuous on the whole line |
| QuadraticBSpline.TranslationInvariant | Theoretical_HW_3/a.py:11-28 | B(i, x) = B(0, x - i): the shape is the same for every i |
| QuadraticBSpline.PiecesMirror | Theoretical_HW_3/a.py:24-28 | reflection x -> 2i+1-x swaps piece 1 and piece 3 and maps piece 2 onto itself |
| QuadraticBSpline.Symmetric | Theoretical_HW_3/a.py:16-28 | B(i, i+1/2+d) = B(i, i+1/2-d) for every d |
| QuadraticBSpline.PartitionOfUnity | Theoretical_HW_3/a.py:6 | an extra property of the cardinal spline that the source names but does not state: on [j, j+1] the translates B(j-1, x), B(j, x) and B(j+1, x) sum to 1, and the translates at j-2 and j+2 are 0 there |
| Sampling.Linspace | Theoretical_HW_3/a.py:16-20 | n points; the first is a, the last is b, consecutive points are (b-a)/(n-1) apart, and all lie in [a, b] |
| Sampling.LinspaceWithin | Theoretical_HW_3/a.py:16-20 | the evenly spaced sequence a + k*step with step (b-a)/(n-1) ends at b, has constant spacing and stays in [a, b] |
| Sampling.Evaluate | Theoretical_HW_3/a.py:24-28 | element-wise evaluation keeps the length, and each output is the piece's polynomial at the matching input |
| Sampling.Grid | Theoretical_HW_3/a.py:16-20 | each piece's grid has 100 points, starts at its interval's left end, ends at its right end and stays inside the interval |
| Sampling.PieceCurve | Theoretical_HW_3/a.py:16-28 | every plotted value is B at its sample point and lies in [0, 3/4]; the curve spans the piece's interval |
| Sampling.CurvesJoin | Theoretical_HW_3/a.py:16-28 | the drawn curves start at (i-1, 0), each ends at the point where the next begins, and the last ends at (i+2, 0) |
| Sampling.Markers | Theoretical_HW_3/a.py:50 | the first two markers sit on the interior knots i and i+1 where the drawn curves join, the third at their midpoint; all three lie on B, and the peak marker is B's maximum and the only point where B reaches it |

## Left out

- All plotting calls: the figure, the title, the axis labels, the ticks, the text annotations, the grid, the legend and the axis lines and limits (Theoretical_HW_3/a.py:31-63). They are presentation over a library that is not part of this model. Only the data these calls receive is modelled: the curves and the marked points.
- Saving `B_spline_plot.pdf` and printing the confirmation line (Theoretical_HW_3/a.py:66-67). These are file and console output.
- The `__main__` entry guard (Theoretical_HW_3/a.py:69-70).
- float64 rounding. The model uses exact `real`, so it states the mathematical values. It says nothing about the bits numpy computes.
- Sampling.Linspace: it models the uniform spacing in exact arithmetic. It does not model numpy's own steps: the float step, pinning the last point to `stop`, and the `ValueError` for a negative count. The count is a `nat` and the source always passes 100.
- The reference index `i` is an integer 0 in the source. Here it is any real number, which covers that case.
