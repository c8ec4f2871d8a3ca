# PointInterp: a verified model of the interpolation exercise's spline editor

The `PointInterp` class of `2.Interpolation` keeps a list of control points
(`RedefinedPoint`: a position plus a Hermite tangent and two Bezier tangents,
all stored relative to the position), an interpolation mode (line, Hermite,
parabola i.e. Catmull-Rom, Bezier) and a selection (active point, held axis
handle, held tangent handle). It samples the curve through the points in the
current mode, and it edits the points with the mouse: picking a point or one
of its handles, dragging a point along an axis, and dragging a tangent handle,
where in Bezier mode the opposite handle of an interior point is turned to stay
on one line with the edited one.

The model is in six modules:

- `Geometry` (geometry.dfy): `vec3` as a datatype of three reals, rays, the
  sphere and box hit shapes, and the properties of glm's `length` the editor
  relies on.
- `Bases` (bases.dfy): the blending polynomials eq1..eq4 of each evaluator and
  the point each basis gives on a segment.
- `Points` (points.dfy): `RedefinedPoint` and its defaults, the mode
  enumeration.
- `Curves` (curves.dfy): what the evaluators return, as functions of the
  points and the sampling interval h (`Spline`, built from per-segment
  `Block`s), and the delta/prefix-sum pair behind `getDeltaPositions`.
- `Editing` (editing.dfy): the selection state machine (`Press`, `Release`),
  the point picker, and the point list after inserting a point or dragging a
  handle, with the invariant that every interior point's Bezier handles are
  opposed.
- `Splines` (splines.dfy): the class `PointInterp` with the source's fields;
  its methods are written as the source's loops and in-place updates and are
  proved against the functions of `Curves` and `Editing`.

The float sampling counter `u = u + interval` is modelled exactly as
`u == k·h` over the reals, with a ghost step counter k. The cubic evaluators
loop while `u <= 1` and the line evaluator while `u < 1`, so a segment holds
⌊1/h⌋ + 1 or ⌈1/h⌉ samples, followed by the segment's end point.

What the editor gets from its environment is passed to the model as parameters:
- the pick ray, which the source computes from the mouse position and the camera;
- the ray-versus-shape test `hits`, standing in for Cinder's `Sphere::intersects` and `AxisAlignedBox::intersects`;
- the hit of the drag ray with the camera-facing plane through a handle, `planeHit`, standing in for `Ray::calcPlaneIntersection`;
- glm's `length`, constrained by `IsLength`.

Mouse events are reduced to the booleans the source tests.

## Model

| member | source | states |
|---|---|---|
| Points.NewPoint | 2.Interpolation/src/splines.h:13-21 | a fresh point is at the origin with Hermite tangent (0,1.5,0), forward Bezier tangent (0,1,1) and backward (0,-1,-1) |
| Points.NewPointTangentsOpposed | 2.Interpolation/src/splines.h:19-20 | a fresh point's backward Bezier tangent is minus its forward one, so the two are opposed |
| Points.HandlesFollowPoint | 2.Interpolation/src/splines.h:24-27 | tangents are relative: moving a point by d moves its Hermite, forward and backward handles by d |
| Splines.PointInterp.constructor | 2.Interpolation/src/splines.h:48-64 | the editor starts with no points, in line mode, with nothing selected, and satisfies its invariant |
| Geometry.WithCoord | 2.Interpolation/src/splines.cpp:268-273 | assigning one coordinate sets that coordinate and leaves the other two unchanged |
| Geometry.Normalize | 2.Interpolation/src/splines.cpp:303 | for any length function with glm's properties, a normalised vector has length 1 |
| Bases.LinePoint | 2.Interpolation/src/splines.cpp:15 | the line sample is p0 at u = 0 and p1 at u = 1 |
| Bases.LineTranslation | 2.Interpolation/src/splines.cpp:15 | translating both points by d translates the line sample by d |
| Bases.HermiteWeights | 2.Interpolation/src/splines.cpp:43-49 | the position weights eq1 + eq2 sum to 1; at u = 0 only eq1 and at u = 1 only eq2 is non-zero, so the tangent terms vanish at both ends |
| Bases.HermiteWeightsFactored | 2.Interpolation/src/splines.cpp:46-49 | the expanded Hermite weights equal the factored cubic Hermite basis |
| Bases.HermitePoint | 2.Interpolation/src/splines.cpp:51-53 | the Hermite sample is P0.pos at u = 0 and P1.pos at u = 1 |
| Bases.HermiteTranslation | 2.Interpolation/src/splines.cpp:51-53 | translating both positions translates the Hermite sample; the tangents stay |
| Bases.ParabolaWeights | 2.Interpolation/src/splines.cpp:95-98 | eq1..eq4 sum to 1; at u = 0 the weights select P1 and at u = 1 they select P2 |
| Bases.ParabolaWeightsFactored | 2.Interpolation/src/splines.cpp:95-98 | the expanded weights equal a factored form in which the outer neighbours' weights vanish at both ends |
| Bases.ParabolaPoint | 2.Interpolation/src/splines.cpp:100-102 | the parabola sample is P1 at u = 0 and P2 at u = 1 |
| Bases.ParabolaTranslation | 2.Interpolation/src/splines.cpp:100-102 | translating all four points translates the parabola sample |
| Bases.BezierWeights | 2.Interpolation/src/splines.cpp:136-139 | eq1..eq4 sum to 1; the weights select P0 at u = 0 and P3 at u = 1 |
| Bases.BezierWeightsAreBernstein | 2.Interpolation/src/splines.cpp:136-139 | the expanded weights are the cubic Bernstein polynomials |
| Bases.BezierPoint | 2.Interpolation/src/splines.cpp:141-143 | the Bezier sample is P0 at u = 0 and P3 at u = 1 |
| Bases.BezierTranslation | 2.Interpolation/src/splines.cpp:141-143 | translating the four control points translates the Bezier sample |
| Curves.LineSampleCount | 2.Interpolation/src/splines.cpp:14 | the line loop takes sample k exactly when k·h < 1, at least once |
| Curves.CubicSampleCount | 2.Interpolation/src/splines.cpp:42 | the cubic loops take sample k exactly when k·h <= 1, at least once |
| Curves.BlockLengthBounds | 2.Interpolation/src/splines.cpp:10-20 | a segment's output has length ⌈1/h⌉ + 1 for the line evaluator and ⌊1/h⌋ + 2 for the cubic ones |
| Curves.ParabolaNeighbours | 2.Interpolation/src/splines.cpp:79-87 | the outer neighbours are i - 1, or i on the first segment, and i + 2, or i + 1 on the last segment; both are valid indices |
| Curves.SegmentEndpoints | 2.Interpolation/src/splines.cpp:5-154 | in every mode segment i's basis gives points[i].pos at u = 0 and points[i+1].pos at u = 1 |
| Curves.BlockAt | 2.Interpolation/src/splines.cpp:42-58 | element k of a segment's block is the basis at u = k·h while k is below the sample count, and the segment's end point after that |
| Curves.CurveLayout | 2.Interpolation/src/splines.cpp:38-59 | element k of block i sits at index i·L + k of the output, where L is the block length |
| Curves.SplineLayout | 2.Interpolation/src/splines.cpp:5-154 | for n >= 2 points the output is n - 1 blocks of equal length; block i holds the basis samples of segment i followed by points[i+1].pos |
| Curves.SplineEnds | 2.Interpolation/src/splines.cpp:5-154 | for n >= 2 points the output starts with points[0].pos and ends with points[n-1].pos |
| Curves.SplineContinuity | 2.Interpolation/src/splines.cpp:5-154 | block i ends with points[i+1].pos, and block i + 1 starts with that same point |
| Curves.TwoPointsUnitStep | 2.Interpolation/src/splines.cpp:5-154 | with two points and h = 1 the line output is both points; a cubic output repeats the end point, once as the sample at u = 1 and once appended |
| Curves.SplineTranslation | 2.Interpolation/src/splines.cpp:5-154 | translating every control point translates every output sample by the same vector, in every mode |
| Curves.DeltasRoundTrip | 2.Interpolation/src/splines.cpp:384-394 | summing the first i + 1 deltas gives position i |
| Curves.DeltasOfRunningSums | 2.Interpolation/src/splines.cpp:384-394 | the deltas of the running sums of any sequence give that sequence back |
| Editing.Release | 2.Interpolation/src/splines.cpp:258-264 | a release clears both held handles and keeps the active point |
| Editing.PressKeepsWellFormed | 2.Interpolation/src/splines.cpp:245-255 | a press keeps the selection well formed: at most one handle is held, and only on an existing point |
| Editing.ReleaseKeepsWellFormed | 2.Interpolation/src/splines.cpp:258-264 | a release keeps the selection well formed |
| Editing.PressPrecedence | 2.Interpolation/src/splines.cpp:245-255 | with a point selected and no handle held, an axis handle wins over a tangent handle, which wins over re-picking a point |
| Editing.PressWithoutSelection | 2.Interpolation/src/splines.cpp:245-255 | with no point selected, a press consults only the points, and holds no handle |
| Editing.PressWhileHolding | 2.Interpolation/src/splines.cpp:245-255 | a press while an axis handle is held changes nothing; a held tangent handle is re-picked, and the points are consulted only if that misses |
| Editing.PickFrom | 2.Interpolation/src/splines.cpp:328-335 | from index i on: -1 exactly when no sphere is hit, otherwise a hit index with no hit before it |
| Editing.PickPoint | 2.Interpolation/src/splines.cpp:328-335 | the lowest index whose radius-0.1 sphere the ray hits, or -1 exactly when none is hit |
| Editing.AppendPoint | 2.Interpolation/src/splines.cpp:398-406 | the list grows by one point, which sits one unit along x from the previous last point (at the origin if the list was empty); from three points on, the old last point's backward tangent becomes minus its forward one; every other point is unchanged |
| Editing.AppendPointKeepsHandlesOpposed | 2.Interpolation/src/splines.cpp:398-406 | inserting a point keeps every interior point's Bezier handles opposed |
| Editing.AxisDragMovesOneCoordinate | 2.Interpolation/src/splines.cpp:266-274 | dragging changes only the active point, and only its coordinate along the axis; the handle centre (pos + 0.9 on that axis) lands on the hit's coordinate |
| Editing.AxisDragKeepsHandlesOpposed | 2.Interpolation/src/splines.cpp:266-274 | an axis drag keeps every interior point's Bezier handles opposed |
| Editing.HermiteTangentDrag | 2.Interpolation/src/splines.cpp:278-284 | a Hermite drag changes only the active point's Hermite tangent, and its handle lands on the plane hit |
| Editing.BezierTangentDrag | 2.Interpolation/src/splines.cpp:285-307 | the edited Bezier handle lands on the plane hit; on an interior point the opposite tangent becomes opposed to it and keeps its length; on an end point it is left unchanged; nothing else changes |
| Editing.RealignedIsOpposed | 2.Interpolation/src/splines.cpp:300-304 | minus the normalised edited tangent times the old length is opposed to the edited tangent and has the old length |
| Editing.RealignedIsMultiple | 2.Interpolation/src/splines.cpp:303 | the realigned tangent is -(length(opposite)/length(edited)) times the edited tangent |
| Editing.TangentDragKeepsHandlesOpposed | 2.Interpolation/src/splines.cpp:276-309 | any tangent drag, in any mode, keeps every interior point's Bezier handles opposed |
| Splines.PointInterp.GetActiveSpline | 2.Interpolation/src/splines.cpp:407-439 | the output is empty for at most one point or a mode outside the enumeration, and otherwise the selected evaluator's curve |
| Splines.PointInterp.GetInterpolatedLine | 2.Interpolation/src/splines.cpp:5-25 | the loops produce the line curve: per segment the samples for u = k·h < 1, then the end point |
| Splines.PointInterp.GetHermiteSpline | 2.Interpolation/src/splines.cpp:27-63 | the loops produce the Hermite curve: per segment the samples for u = k·h <= 1, then the end point |
| Splines.PointInterp.GetParabolaInterpSpline | 2.Interpolation/src/splines.cpp:65-115 | the loops, with neighbours clamped at both ends, produce the parabola curve |
| Splines.PointInterp.GetBezierInterpSpline | 2.Interpolation/src/splines.cpp:117-154 | the loops produce the Bezier curve whose inner control points are the forward handle of point i and the backward handle of point i + 1 |
| Splines.PointInterp.GetDeltaPositions | 2.Interpolation/src/splines.cpp:384-394 | the array holds the first position, then each position minus the one before; summing its first i + 1 entries gives points[i].pos |
| Splines.PointInterp.InsertPoint | 2.Interpolation/src/splines.cpp:398-406 | the point list becomes AppendPoint of the old one, and the editor invariant is kept |
| Splines.PointInterp.ChangeMode | 2.Interpolation/src/splines.cpp:443-446 | the mode becomes the given integer, unchecked |
| Splines.PointInterp.Intersect | 2.Interpolation/src/splines.cpp:328-335 | the result is the first index whose sphere is hit, or -1 exactly when none is hit; it equals PickPoint |
| Splines.PointInterp.HandleIntersect | 2.Interpolation/src/splines.cpp:337-346 | the result is the first of the x, y, z handle spheres (radius 0.2, 0.9 along the axis) that is hit, or -1 exactly when none is hit |
| Splines.PointInterp.TangentIntersect | 2.Interpolation/src/splines.cpp:348-368 | the result is -1 outside Hermite and Bezier mode; in Hermite mode 0 exactly when the Hermite box is hit; in Bezier mode 0 exactly when the forward box is hit, and 1 exactly when only the backward box is hit |
| Splines.PointInterp.MouseDown | 2.Interpolation/src/splines.cpp:238-256 | a left press changes the selection as Press with the pickers' answers on the old state; any other press changes nothing; the invariant is kept |
| Splines.PointInterp.MouseUp | 2.Interpolation/src/splines.cpp:258-264 | a left release is Release of the selection; any other release changes nothing; the invariant is kept |
| Splines.PointInterp.GetPlaneIntersect | 2.Interpolation/src/splines.cpp:370-381 | the result lies on the ray's line: in the plane z = pos.z for the x and y handles, in y = pos.y for the z handle, and at the ray's origin when no axis handle is held |
| Splines.PointInterp.UpdatePoint | 2.Interpolation/src/splines.cpp:266-274 | with an axis handle held the points become AxisDragged at the plane hit; with none held they are unchanged; the invariant is kept |
| Splines.PointInterp.UpdateTangent | 2.Interpolation/src/splines.cpp:276-309 | the points become TangentDragged for the current mode and handle, and the invariant is kept |
| Splines.PointInterp.MouseDrag | 2.Interpolation/src/splines.cpp:311-325 | a held axis handle moves the point, a held tangent handle moves the tangent, and with neither held nothing changes; the invariant is kept |

## Left out

- Rendering: `draw`, `DrawHandles` and each point's `batchRef` (sphere mesh and shader) are GPU work. The model keeps only the four vectors of a point.
- `ConstructHermiteB`, `ConstructParabolaB` and `ConstructBezierB` return an identity matrix and are never used.
- Screen-to-ray conversion in `MouseDown` and `MouseDrag`, which reads the window size and the camera, is not modelled. The ray is a parameter.
- Cinder's hit tests and `Ray::calcPlaneIntersection`, and glm's `length`, are library code. They are the parameters `hits`, `planeHit` and `length`. `length` is constrained only by non-negativity, positivity on non-zero vectors and absolute homogeneity.
- Floating point: all arithmetic is exact real arithmetic. The accumulated float `u` can differ from k·h, so on hardware a segment may hold one sample more or fewer than the model says. NaN and infinities are not modelled.
- Splines.PointInterp.GetInterpolatedLine: requires interval > 0 and at least one point. With n = 0, `points.size() - 1` wraps around. With interval <= 0 the loop does not end. GetActiveSpline never calls it with n = 0.
- Splines.PointInterp.GetHermiteSpline: requires interval > 0 and at least one point, as GetInterpolatedLine does.
- Splines.PointInterp.GetParabolaInterpSpline: requires interval > 0 and at least one point, as GetInterpolatedLine does.
- Splines.PointInterp.GetBezierInterpSpline: requires interval > 0 and at least one point, as GetInterpolatedLine does.
- Splines.PointInterp.GetActiveSpline: requires interval > 0 when it would call an evaluator, because an evaluator's loop does not end otherwise.
- Splines.PointInterp.GetDeltaPositions: requires at least one point, because the source writes element 0 of a vector sized to the point count. Its only caller, `draw`, returns early when there are no points.
- Splines.PointInterp.GetPlaneIntersect: requires the ray component it divides by to be non-zero. The source would produce an infinity or NaN there.
- Splines.PointInterp.UpdatePoint: requires the same non-zero ray component, through the plane intersection.
- Splines.PointInterp.UpdateTangent: requires a non-zero edited tangent on an interior point in Bezier mode, where the source normalises it. It also requires an active point, which every caller guarantees while a tangent handle is held.
- Splines.PointInterp.MouseDrag: carries the preconditions of UpdatePoint and UpdateTangent.
- Splines.PointInterp.ChangeMode: the enum cast is modelled as storing the integer itself. Modes outside 0..3 are handled as the source's `default` branches handle them.
- `InterpolationApp.cpp` (camera, user interface, the unimplemented constant-speed playback stubs), `PlanetariumApp.cpp` and `Shaders.h` are not part of this model.
