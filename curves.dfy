/** What the four evaluators of splines.cpp produce, as functions of the
    control points and the sampling interval h: for every pair of consecutive
    points, the basis sampled at u = 0, h, 2h, ... followed by the pair's end
    point. */
module Curves {
  import opened Geometry
  import opened Bases
  import opened Points

  /** u after k steps of the evaluators' counter `u = u + interval`. */
  function Param(k: nat, h: real): real { k as real * h }

  lemma {:induction false} ParamBelowOne(h: real)
    requires h > 0.0
    ensures forall k: nat :: (Param(k, h) < 1.0 <==> k as real < 1.0 / h)
    ensures forall k: nat :: (Param(k, h) <= 1.0 <==> k as real <= 1.0 / h)
  {
    var q := 1.0 / h;
    assert q * h == 1.0;
    forall k: nat
      ensures (Param(k, h) < 1.0 <==> k as real < q) && (Param(k, h) <= 1.0 <==> k as real <= q)
    {
      var r := k as real;
      if r < q { assert r * h < q * h; }
      if r == q { assert r * h == q * h; }
      if r > q { assert r * h > q * h; }
    }
  }

  /** The number of samples the line evaluator takes per segment: the
      u = k·h with u < 1. */
  function LineSampleCount(h: real): (c: nat)
    requires h > 0.0
    ensures c >= 1
    ensures forall k: nat :: k < c <==> Param(k, h) < 1.0
  {
    ParamBelowOne(h);
    var q := 1.0 / h;
    if q.Floor as real == q then q.Floor else q.Floor + 1
  }

  /** The number of samples the cubic evaluators take per segment: the
      u = k·h with u <= 1. */
  function CubicSampleCount(h: real): (c: nat)
    requires h > 0.0
    ensures c >= 1
    ensures forall k: nat :: k < c <==> Param(k, h) <= 1.0
  {
    ParamBelowOne(h);
    (1.0 / h).Floor + 1
  }

  function SampleCount(mode: int, h: real): (c: nat)
    requires h > 0.0
    ensures c >= 1
  {
    if mode == Line then LineSampleCount(h) else CubicSampleCount(h)
  }

  /** Samples plus the appended end point. */
  function BlockLength(mode: int, h: real): nat
    requires h > 0.0
  {
    SampleCount(mode, h) + 1
  }

  /** The block lengths in closed form: ⌈1/h⌉ + 1 for the line evaluator and
      ⌊1/h⌋ + 2 for the cubic ones. */
  lemma {:induction false} BlockLengthBounds(mode: int, h: real)
    requires h > 0.0
    ensures mode == Line ==> (BlockLength(mode, h) - 2) as real < 1.0 / h <= (BlockLength(mode, h) - 1) as real
    ensures mode != Line ==> (BlockLength(mode, h) - 2) as real <= 1.0 / h < (BlockLength(mode, h) - 1) as real
  {
    ParamBelowOne(h);
    var c := SampleCount(mode, h);
    assert c - 1 < c;
    assert !(c < c);
  }

  /** Indices of the outer neighbours of segment i in the parabola evaluator,
      clamped to the ends of the point list. */
  function ParabolaNeighbours(n: nat, i: nat): (r: (nat, nat))
    requires i + 1 < n
    ensures r.0 < n && r.1 < n
    ensures r.0 == (if i == 0 then i else i - 1)
    ensures r.1 == (if i == n - 2 then i + 1 else i + 2)
  {
    (if i == 0 then i else i - 1, if i == n - 2 then i + 1 else i + 2)
  }

  /** The sample of segment i (from point i to point i + 1) at u. */
  function SegmentSample(mode: int, pts: seq<RedefinedPoint>, i: nat, u: real): Vec3
    requires IsMode(mode) && i + 1 < |pts|
  {
    var p0 := pts[i];
    var p1 := pts[i + 1];
    if mode == Line then
      LinePoint(p0.pos, p1.pos, u)
    else if mode == Hermite then
      HermitePoint(p0.pos, p1.pos, p0.hermiteTangent, p1.hermiteTangent, u)
    else if mode == Parabol then
      var nb := ParabolaNeighbours(|pts|, i);
      ParabolaPoint(pts[nb.0].pos, p0.pos, p1.pos, pts[nb.1].pos, u)
    else
      BezierPoint(p0.pos, ForwardHandle(p0), BackwardHandle(p1), p1.pos, u)
  }

  /** Every basis interpolates its segment's two points. */
  lemma SegmentEndpoints(mode: int, pts: seq<RedefinedPoint>, i: nat)
    requires IsMode(mode) && i + 1 < |pts|
    ensures SegmentSample(mode, pts, i, 0.0) == pts[i].pos
    ensures SegmentSample(mode, pts, i, 1.0) == pts[i + 1].pos
  {
  }

  /** The first k samples of segment i. */
  function SamplePrefix(mode: int, pts: seq<RedefinedPoint>, i: nat, h: real, k: nat): (r: seq<Vec3>)
    requires IsMode(mode) && i + 1 < |pts|
    ensures |r| == k
  {
    if k == 0 then [] else SamplePrefix(mode, pts, i, h, k - 1) + [SegmentSample(mode, pts, i, Param(k - 1, h))]
  }

  lemma {:induction false} SamplePrefixAt(mode: int, pts: seq<RedefinedPoint>, i: nat, h: real, k: nat, j: nat)
    requires IsMode(mode) && i + 1 < |pts| && j < k
    ensures SamplePrefix(mode, pts, i, h, k)[j] == SegmentSample(mode, pts, i, Param(j, h))
  {
    if j < k - 1 {
      SamplePrefixAt(mode, pts, i, h, k - 1, j);
    }
  }

  /** One turn of an evaluator's inner loop over segment i: the sample at
      u = k·h extends the output, and the counter moves on to (k + 1)·h. */
  lemma {:induction false} SampleStep(mode: int, pts: seq<RedefinedPoint>, i: nat, h: real, k: nat, u: real)
    requires IsMode(mode) && i + 1 < |pts| && h > 0.0 && u == Param(k, h)
    ensures Curve(mode, pts, h, i) + SamplePrefix(mode, pts, i, h, k) + [SegmentSample(mode, pts, i, u)]
         == Curve(mode, pts, h, i) + SamplePrefix(mode, pts, i, h, k + 1)
    ensures u + h == Param(k + 1, h)
  {
    AppendAssoc(Curve(mode, pts, h, i), SamplePrefix(mode, pts, i, h, k), [SegmentSample(mode, pts, i, u)]);
    ParamNext(k, h);
  }

  /** An evaluator's loop test on u = k·h holds exactly while k is below the
      sample count. */
  lemma SampleGuard(mode: int, h: real, k: nat)
    requires h > 0.0
    ensures mode == Line ==> (Param(k, h) < 1.0 <==> k < SampleCount(mode, h))
    ensures mode != Line ==> (Param(k, h) <= 1.0 <==> k < SampleCount(mode, h))
  {
  }

  lemma ParamNext(k: nat, h: real)
    ensures Param(k + 1, h) == Param(k, h) + h
  {
    assert (k + 1) as real * h == k as real * h + 1.0 * h;
  }

  lemma AppendAssoc<T>(a: seq<T>, b: seq<T>, c: seq<T>)
    ensures a + b + c == a + (b + c)
  {
  }

  /** Segment i as the evaluators emit it: its samples, then its end point. */
  function Block(mode: int, pts: seq<RedefinedPoint>, i: nat, h: real): (r: seq<Vec3>)
    requires IsMode(mode) && i + 1 < |pts| && h > 0.0
    ensures |r| == BlockLength(mode, h)
  {
    SamplePrefix(mode, pts, i, h, SampleCount(mode, h)) + [pts[i + 1].pos]
  }

  /** The element k of block i: a basis sample while k is below the sample
      count, the segment's end point after it. */
  lemma BlockAt(mode: int, pts: seq<RedefinedPoint>, i: nat, h: real, k: nat)
    requires IsMode(mode) && i + 1 < |pts| && h > 0.0 && k < BlockLength(mode, h)
    ensures Block(mode, pts, i, h)[k]
         == if k < SampleCount(mode, h) then SegmentSample(mode, pts, i, Param(k, h)) else pts[i + 1].pos
  {
    if k < SampleCount(mode, h) {
      SamplePrefixAt(mode, pts, i, h, SampleCount(mode, h), k);
    }
  }

  /** The blocks of the first m segments, concatenated in point order. */
  function Curve(mode: int, pts: seq<RedefinedPoint>, h: real, m: nat): (r: seq<Vec3>)
    requires IsMode(mode) && m < |pts| && h > 0.0
    ensures |r| == m * BlockLength(mode, h)
  {
    if m == 0 then [] else Curve(mode, pts, h, m - 1) + Block(mode, pts, m - 1, h)
  }

  /** Closing segment i: its samples and its end point extend the curve by
      one block. */
  lemma {:induction false} CurveStep(mode: int, pts: seq<RedefinedPoint>, h: real, i: nat)
    requires IsMode(mode) && i + 1 < |pts| && h > 0.0
    ensures Curve(mode, pts, h, i) + SamplePrefix(mode, pts, i, h, SampleCount(mode, h)) + [pts[i + 1].pos]
         == Curve(mode, pts, h, i + 1)
  {
    assert Curve(mode, pts, h, i + 1) == Curve(mode, pts, h, i) + Block(mode, pts, i, h);
  }

  /** GetActiveSpline's result: nothing for fewer than two points or a mode
      outside the enumeration, the whole curve otherwise. */
  function Spline(mode: int, pts: seq<RedefinedPoint>, h: real): seq<Vec3>
    requires |pts| >= 2 && IsMode(mode) ==> h > 0.0
  {
    if |pts| <= 1 || !IsMode(mode) then [] else Curve(mode, pts, h, |pts| - 1)
  }

  lemma MulMonotone(a: nat, b: nat, c: nat)
    requires a <= b
    ensures a * c <= b * c
  {
  }

  /** Element k of block i sits at index i·L + k of the curve, L the block length. */
  lemma {:induction false} CurveLayout(mode: int, pts: seq<RedefinedPoint>, h: real, m: nat, i: nat, k: nat)
    requires IsMode(mode) && m < |pts| && h > 0.0 && i < m && k < BlockLength(mode, h)
    ensures i * BlockLength(mode, h) + k < |Curve(mode, pts, h, m)|
    ensures Curve(mode, pts, h, m)[i * BlockLength(mode, h) + k] == Block(mode, pts, i, h)[k]
  {
    var L := BlockLength(mode, h);
    assert (m - 1) * L + L == m * L;
    if i < m - 1 {
      CurveLayout(mode, pts, h, m - 1, i, k);
      MulMonotone(i + 1, m - 1, L);
      assert i * L + L == (i + 1) * L;
    }
  }

  /** The block structure of the evaluators' output for n >= 2 points: n - 1
      blocks of equal length; in block i, element k < SampleCount is the basis
      at u = k·h and the last element is point i + 1. */
  lemma SplineLayout(mode: int, pts: seq<RedefinedPoint>, h: real, i: nat, k: nat)
    requires IsMode(mode) && |pts| >= 2 && h > 0.0
    requires i + 1 < |pts| && k < BlockLength(mode, h)
    ensures |Spline(mode, pts, h)| == (|pts| - 1) * BlockLength(mode, h)
    ensures i * BlockLength(mode, h) + k < |Spline(mode, pts, h)|
    ensures Spline(mode, pts, h)[i * BlockLength(mode, h) + k]
         == if k < SampleCount(mode, h) then SegmentSample(mode, pts, i, Param(k, h)) else pts[i + 1].pos
  {
    CurveLayout(mode, pts, h, |pts| - 1, i, k);
    BlockAt(mode, pts, i, h, k);
  }

  /** The output starts at the first point and ends at the last one. */
  lemma SplineEnds(mode: int, pts: seq<RedefinedPoint>, h: real)
    requires IsMode(mode) && |pts| >= 2 && h > 0.0
    ensures |Spline(mode, pts, h)| >= 2
    ensures Spline(mode, pts, h)[0] == pts[0].pos
    ensures Spline(mode, pts, h)[|Spline(mode, pts, h)| - 1] == pts[|pts| - 1].pos
  {
    var L := BlockLength(mode, h);
    var n := |pts|;
    SplineLayout(mode, pts, h, 0, 0);
    SegmentEndpoints(mode, pts, 0);
    SplineLayout(mode, pts, h, n - 2, L - 1);
    assert (n - 2) * L + L - 1 == (n - 1) * L - 1;
  }

  /** No gap between segments: block i ends with the very point that block
      i + 1 starts with. */
  lemma SplineContinuity(mode: int, pts: seq<RedefinedPoint>, h: real, i: nat)
    requires IsMode(mode) && h > 0.0 && i + 2 < |pts|
    ensures (i + 1) * BlockLength(mode, h) < |Spline(mode, pts, h)|
    ensures Spline(mode, pts, h)[i * BlockLength(mode, h) + BlockLength(mode, h) - 1]
         == Spline(mode, pts, h)[(i + 1) * BlockLength(mode, h)]
         == pts[i + 1].pos
  {
    var L := BlockLength(mode, h);
    SplineLayout(mode, pts, h, i, L - 1);
    SplineLayout(mode, pts, h, i + 1, 0);
    SegmentEndpoints(mode, pts, i + 1);
  }

  /** With two points and h = 1 the line evaluator returns exactly the two
      points, and a cubic one the start point and the end point twice (once
      as the sample at u = 1, once appended). */
  lemma TwoPointsUnitStep(mode: int, pts: seq<RedefinedPoint>)
    requires IsMode(mode) && |pts| == 2
    ensures mode == Line ==> Spline(mode, pts, 1.0) == [pts[0].pos, pts[1].pos]
    ensures mode != Line ==> Spline(mode, pts, 1.0) == [pts[0].pos, pts[1].pos, pts[1].pos]
  {
    assert Param(0, 1.0) == 0.0 && Param(1, 1.0) == 1.0;
    SegmentEndpoints(mode, pts, 0);
    if mode == Line {
      assert LineSampleCount(1.0) == 1;
    } else {
      assert CubicSampleCount(1.0) == 2;
      assert SamplePrefix(mode, pts, 0, 1.0, 1) == [pts[0].pos];
      assert SamplePrefix(mode, pts, 0, 1.0, 2) == [pts[0].pos, pts[1].pos];
    }
  }

  // ---- Translation: tangents are relative ---------------------------------

  lemma SegmentTranslation(mode: int, pts: seq<RedefinedPoint>, i: nat, u: real, d: Vec3)
    requires IsMode(mode) && i + 1 < |pts|
    ensures SegmentSample(mode, Translated(pts, d), i, u) == Add(SegmentSample(mode, pts, i, u), d)
  {
    var tp := Translated(pts, d);
    var p0, p1 := pts[i], pts[i + 1];
    assert tp[i] == p0.(pos := Add(p0.pos, d)) && tp[i + 1] == p1.(pos := Add(p1.pos, d));
    if mode == Line {
      LineTranslation(p0.pos, p1.pos, u, d);
    } else if mode == Hermite {
      HermiteTranslation(p0.pos, p1.pos, p0.hermiteTangent, p1.hermiteTangent, u, d);
    } else if mode == Parabol {
      var nb := ParabolaNeighbours(|pts|, i);
      assert tp[nb.0].pos == Add(pts[nb.0].pos, d) && tp[nb.1].pos == Add(pts[nb.1].pos, d);
      ParabolaTranslation(pts[nb.0].pos, p0.pos, p1.pos, pts[nb.1].pos, u, d);
    } else {
      HandlesFollowPoint(p0, d);
      HandlesFollowPoint(p1, d);
      BezierTranslation(p0.pos, ForwardHandle(p0), BackwardHandle(p1), p1.pos, u, d);
    }
  }

  lemma {:induction false} SamplePrefixTranslation(mode: int, pts: seq<RedefinedPoint>, i: nat, h: real, k: nat, d: Vec3)
    requires IsMode(mode) && i + 1 < |pts|
    ensures SamplePrefix(mode, Translated(pts, d), i, h, k) == Shifted(SamplePrefix(mode, pts, i, h, k), d)
  {
    if k > 0 {
      SamplePrefixTranslation(mode, pts, i, h, k - 1, d);
      SegmentTranslation(mode, pts, i, Param(k - 1, h), d);
      ShiftedAppend(SamplePrefix(mode, pts, i, h, k - 1), [SegmentSample(mode, pts, i, Param(k - 1, h))], d);
    }
  }

  lemma ShiftedAppend(a: seq<Vec3>, b: seq<Vec3>, d: Vec3)
    ensures Shifted(a + b, d) == Shifted(a, d) + Shifted(b, d)
  {
  }

  lemma {:induction false} CurveTranslation(mode: int, pts: seq<RedefinedPoint>, h: real, m: nat, d: Vec3)
    requires IsMode(mode) && m < |pts| && h > 0.0
    ensures Curve(mode, Translated(pts, d), h, m) == Shifted(Curve(mode, pts, h, m), d)
  {
    if m > 0 {
      CurveTranslation(mode, pts, h, m - 1, d);
      BlockTranslation(mode, pts, m - 1, h, d);
      ShiftedAppend(Curve(mode, pts, h, m - 1), Block(mode, pts, m - 1, h), d);
    }
  }

  lemma {:induction false} BlockTranslation(mode: int, pts: seq<RedefinedPoint>, i: nat, h: real, d: Vec3)
    requires IsMode(mode) && i + 1 < |pts| && h > 0.0
    ensures Block(mode, Translated(pts, d), i, h) == Shifted(Block(mode, pts, i, h), d)
  {
    var prefix := SamplePrefix(mode, pts, i, h, SampleCount(mode, h));
    SamplePrefixTranslation(mode, pts, i, h, SampleCount(mode, h), d);
    ShiftedAppend(prefix, [pts[i + 1].pos], d);
    assert Translated(pts, d)[i + 1].pos == Add(pts[i + 1].pos, d);
    assert Shifted([pts[i + 1].pos], d) == [Add(pts[i + 1].pos, d)];
  }

  /** Moving every control point by d moves every sample by d, in every mode:
      position weights sum to 1 and tangents are stored relative to the point. */
  lemma SplineTranslation(mode: int, pts: seq<RedefinedPoint>, h: real, d: Vec3)
    requires |pts| >= 2 && IsMode(mode) ==> h > 0.0
    ensures Spline(mode, Translated(pts, d), h) == Shifted(Spline(mode, pts, h), d)
  {
    if |pts| >= 2 && IsMode(mode) {
      CurveTranslation(mode, pts, h, |pts| - 1, d);
    }
  }

  // ---- Delta positions -----------------------------------------------------

  /** The first position, then the difference of each position from the one
      before it. */
  function Deltas(ps: seq<Vec3>): (r: seq<Vec3>)
    ensures |r| == |ps|
  {
    seq(|ps|, i requires 0 <= i < |ps| => if i == 0 then ps[0] else Sub(ps[i], ps[i - 1]))
  }

  /** The sum of the first m vectors. */
  function PrefixSum(ds: seq<Vec3>, m: nat): Vec3
    requires m <= |ds|
  {
    if m == 0 then Zero else Add(PrefixSum(ds, m - 1), ds[m - 1])
  }

  /** Summing the differences back up gives the positions again. */
  lemma {:induction false} DeltasRoundTrip(ps: seq<Vec3>, i: nat)
    requires i < |ps|
    ensures PrefixSum(Deltas(ps), i + 1) == ps[i]
  {
    DeltaAt(ps, i);
    if i > 0 {
      DeltasRoundTrip(ps, i - 1);
      assert PrefixSum(Deltas(ps), i + 1) == Add(ps[i - 1], Sub(ps[i], ps[i - 1]));
    }
  }

  lemma DeltaAt(ps: seq<Vec3>, i: nat)
    requires i < |ps|
    ensures Deltas(ps)[i] == if i == 0 then ps[0] else Sub(ps[i], ps[i - 1])
  {
  }

  /** The running sums: entry i is the sum of the first i + 1 vectors. */
  function RunningSums(ds: seq<Vec3>): (r: seq<Vec3>)
    ensures |r| == |ds|
  {
    seq(|ds|, i requires 0 <= i < |ds| => PrefixSum(ds, i + 1))
  }

  lemma RunningSumAt(ds: seq<Vec3>, i: nat)
    requires i < |ds|
    ensures RunningSums(ds)[i] == PrefixSum(ds, i + 1)
  {
  }

  /** The other direction: the differences of the running sums are the
      original vectors. */
  lemma {:induction false} DeltasOfRunningSums(ds: seq<Vec3>)
    ensures Deltas(RunningSums(ds)) == ds
  {
    forall i | 0 <= i < |ds|
      ensures Deltas(RunningSums(ds))[i] == ds[i]
    {
      DeltaOfRunningSumsAt(ds, i);
    }
  }

  lemma {:induction false} DeltaOfRunningSumsAt(ds: seq<Vec3>, i: nat)
    requires i < |ds|
    ensures Deltas(RunningSums(ds))[i] == ds[i]
  {
    var sums := RunningSums(ds);
    DeltaAt(sums, i);
    RunningSumAt(ds, i);
    if i > 0 {
      RunningSumAt(ds, i - 1);
      SubAddCancel(PrefixSum(ds, i), ds[i]);
    } else {
      assert PrefixSum(ds, 1) == Add(Zero, ds[0]);
    }
  }
}
