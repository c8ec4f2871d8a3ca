/** The spline editor of splines.h / splines.cpp: the point list, the
    interpolation mode and the selection, changed in place by the editing
    operations, and the four evaluators that sample the curve. Each method is
    proved against the value-level definitions of the Curves and Editing
    modules.

    What the editor receives from its environment is passed in: the pick ray
    (computed by the caller from the mouse position and the camera), the
    ray-versus-shape test `hits`, the camera-facing plane intersection of the
    drag ray `planeHit`, and glm's vector `length`. */
module Splines {
  import opened Geometry
  import opened Bases
  import opened Points
  import opened Curves
  import opened Editing

  class PointInterp {
    var points: seq<RedefinedPoint>
    var currentInterpMode: int
    var activePoint: int
    var activeXYZHandle: int
    var activeTangentHandle: int

    function SelectionState(): Selection
      reads this
    {
      Selection(activePoint, activeXYZHandle, activeTangentHandle)
    }

    /** The editor's invariant: the selection is well formed (at most one
        handle held, and only on an existing point) and every interior point
        has opposed Bezier handles. */
    ghost predicate Valid()
      reads this
    {
      WellFormed(SelectionState(), |points|) && InteriorHandlesOpposed(points)
    }

    /** The initial state: no points, line mode, nothing selected. */
    constructor ()
      ensures Valid()
      ensures points == [] && currentInterpMode == Line
      ensures SelectionState() == Idle
    {
      points := [];
      currentInterpMode := Line;
      activePoint := -1;
      activeXYZHandle := -1;
      activeTangentHandle := -1;
    }

    // ---- Evaluation -------------------------------------------------------

    method GetActiveSpline(interval: real) returns (spline: seq<Vec3>)
      requires |points| >= 2 && IsMode(currentInterpMode) ==> interval > 0.0
      ensures spline == Spline(currentInterpMode, points, interval)
    {
      if |points| <= 1 {
        return [];
      }
      if currentInterpMode == Line {
        spline := GetInterpolatedLine(interval);
      } else if currentInterpMode == Hermite {
        spline := GetHermiteSpline(interval);
      } else if currentInterpMode == Parabol {
        spline := GetParabolaInterpSpline(interval);
      } else if currentInterpMode == Bezier {
        spline := GetBezierInterpSpline(interval);
      } else {
        spline := [];
      }
    }

    method GetInterpolatedLine(interval: real) returns (interpList: seq<Vec3>)
      requires |points| >= 1 && interval > 0.0
      ensures interpList == Curve(Line, points, interval, |points| - 1)
    {
      interpList := [];
      var i := 0;
      while i < |points| - 1
        invariant 0 <= i <= |points| - 1
        invariant interpList == Curve(Line, points, interval, i)
      {
        var p0 := points[i];
        var p1 := points[i + 1];
        var u := 0.0;
        ghost var k: nat := 0;
        while u < 1.0
          invariant u == Param(k, interval) && k <= LineSampleCount(interval)
          invariant interpList == Curve(Line, points, interval, i) + SamplePrefix(Line, points, i, interval, k)
          decreases LineSampleCount(interval) - k
        {
          SampleStep(Line, points, i, interval, k, u);
          SampleGuard(Line, interval, k);
          interpList := interpList + [LinePoint(p0.pos, p1.pos, u)];
          u := u + interval;
          k := k + 1;
        }
        SampleGuard(Line, interval, k);
        CurveStep(Line, points, interval, i);
        interpList := interpList + [p1.pos];
        i := i + 1;
      }
    }

    method GetHermiteSpline(interval: real) returns (interpList: seq<Vec3>)
      requires |points| >= 1 && interval > 0.0
      ensures interpList == Curve(Hermite, points, interval, |points| - 1)
    {
      interpList := [];
      var i := 0;
      while i < |points| - 1
        invariant 0 <= i <= |points| - 1
        invariant interpList == Curve(Hermite, points, interval, i)
      {
        var p0 := points[i];
        var p1 := points[i + 1];
        var u := 0.0;
        ghost var k: nat := 0;
        while u <= 1.0
          invariant u == Param(k, interval) && k <= CubicSampleCount(interval)
          invariant interpList == Curve(Hermite, points, interval, i) + SamplePrefix(Hermite, points, i, interval, k)
          decreases CubicSampleCount(interval) - k
        {
          SampleStep(Hermite, points, i, interval, k, u);
          SampleGuard(Hermite, interval, k);
          var w := HermiteWeights(u);
          interpList := interpList + [Blend(w, p0.pos, p1.pos, p0.hermiteTangent, p1.hermiteTangent)];
          u := u + interval;
          k := k + 1;
        }
        SampleGuard(Hermite, interval, k);
        CurveStep(Hermite, points, interval, i);
        interpList := interpList + [p1.pos];
        i := i + 1;
      }
    }

    method GetParabolaInterpSpline(interval: real) returns (list: seq<Vec3>)
      requires |points| >= 1 && interval > 0.0
      ensures list == Curve(Parabol, points, interval, |points| - 1)
    {
      list := [];
      var i := 0;
      while i < |points| - 1
        invariant 0 <= i <= |points| - 1
        invariant list == Curve(Parabol, points, interval, i)
      {
        var p0: RedefinedPoint;
        var p1 := points[i];
        var p2 := points[i + 1];
        var p3: RedefinedPoint;
        if i == 0 {
          p0 := points[i];
        } else {
          p0 := points[i - 1];
        }
        if i == |points| - 2 {
          p3 := points[i + 1];
        } else {
          p3 := points[i + 2];
        }
        var u := 0.0;
        ghost var k: nat := 0;
        while u <= 1.0
          invariant u == Param(k, interval) && k <= CubicSampleCount(interval)
          invariant list == Curve(Parabol, points, interval, i) + SamplePrefix(Parabol, points, i, interval, k)
          decreases CubicSampleCount(interval) - k
        {
          SampleStep(Parabol, points, i, interval, k, u);
          SampleGuard(Parabol, interval, k);
          var w := ParabolaWeights(u);
          list := list + [Blend(w, p0.pos, p1.pos, p2.pos, p3.pos)];
          u := u + interval;
          k := k + 1;
        }
        SampleGuard(Parabol, interval, k);
        CurveStep(Parabol, points, interval, i);
        list := list + [p2.pos];
        i := i + 1;
      }
    }

    method GetBezierInterpSpline(interval: real) returns (interpList: seq<Vec3>)
      requires |points| >= 1 && interval > 0.0
      ensures interpList == Curve(Bezier, points, interval, |points| - 1)
    {
      interpList := [];
      var i := 0;
      while i < |points| - 1
        invariant 0 <= i <= |points| - 1
        invariant interpList == Curve(Bezier, points, interval, i)
      {
        var p0 := points[i].pos;
        var p1 := Add(points[i].pos, points[i].bezierTangentF);
        var p2 := Add(points[i + 1].pos, points[i + 1].bezierTangentB);
        var p3 := points[i + 1].pos;
        var u := 0.0;
        ghost var k: nat := 0;
        while u <= 1.0
          invariant u == Param(k, interval) && k <= CubicSampleCount(interval)
          invariant interpList == Curve(Bezier, points, interval, i) + SamplePrefix(Bezier, points, i, interval, k)
          decreases CubicSampleCount(interval) - k
        {
          SampleStep(Bezier, points, i, interval, k, u);
          SampleGuard(Bezier, interval, k);
          var w := BezierWeights(u);
          interpList := interpList + [Blend(w, p0, p1, p2, p3)];
          u := u + interval;
          k := k + 1;
        }
        SampleGuard(Bezier, interval, k);
        CurveStep(Bezier, points, interval, i);
        interpList := interpList + [p3];
        i := i + 1;
      }
    }

    /** The first position, then each position's offset from the previous one
        (the draw loop translates by these one after another). */
    method GetDeltaPositions() returns (deltaPositions: seq<Vec3>)
      requires |points| >= 1
      ensures deltaPositions == Deltas(Positions(points))
      ensures forall i :: 0 <= i < |points| ==> PrefixSum(deltaPositions, i + 1) == points[i].pos
    {
      var pts := points;
      var d := new Vec3[|pts|](_ => Zero);
      d[0] := pts[0].pos;
      var i := 1;
      while i < |pts|
        invariant 1 <= i <= |pts|
        invariant d[0] == pts[0].pos
        invariant forall j :: 1 <= j < i ==> d[j] == Sub(pts[j].pos, pts[j - 1].pos)
      {
        d[i] := Sub(pts[i].pos, pts[i - 1].pos);
        i := i + 1;
      }
      deltaPositions := d[..];
      assert deltaPositions == Deltas(Positions(pts));
      forall i | 0 <= i < |pts|
        ensures PrefixSum(deltaPositions, i + 1) == pts[i].pos
      {
        DeltasRoundTrip(Positions(pts), i);
      }
    }

    // ---- Editing ----------------------------------------------------------

    /** Appends a default point one unit along x from the last one; the point
        that becomes interior gets its backward Bezier tangent reset to minus
        its forward one. */
    method InsertPoint()
      requires Valid()
      modifies this`points
      ensures Valid()
      ensures points == AppendPoint(old(points))
    {
      ghost var before := points;
      points := points + [NewPoint()];
      var last := |points| - 1;
      if last >= 1 {
        points := points[last := points[last].(pos := Add(points[last - 1].pos, InsertOffset))];
      }
      if last >= 2 {
        points := points[last - 1 := points[last - 1].(bezierTangentB := Neg(points[last - 1].bezierTangentF))];
      }
      assert points == AppendPoint(before);
      assert InteriorHandlesOpposed(points) by {
        AppendPointKeepsHandlesOpposed(before);
      }
    }

    /** Stores the mode as given; no resampling happens. */
    method ChangeMode(mode: int)
      modifies this`currentInterpMode
      ensures currentInterpMode == mode
    {
      currentInterpMode := mode;
    }

    /** The index of the first point whose sphere the ray hits, or -1. */
    method Intersect(ray: Ray, hits: (Ray, Shape) -> bool) returns (hit: int)
      ensures -1 <= hit < |points|
      ensures hit == -1 <==> forall j :: 0 <= j < |points| ==> !hits(ray, PointSphere(points[j]))
      ensures hit != -1 ==> hits(ray, PointSphere(points[hit]))
      ensures forall j :: 0 <= j < hit ==> !hits(ray, PointSphere(points[j]))
      ensures hit == PickPoint(points, ray, hits)
    {
      var i := 0;
      while i < |points|
        invariant 0 <= i <= |points|
        invariant forall j :: 0 <= j < i ==> !hits(ray, PointSphere(points[j]))
      {
        if hits(ray, PointSphere(points[i])) {
          return i;
        }
        i := i + 1;
      }
      return -1;
    }

    /** The axis handle of the active point the ray hits, trying x, then y,
        then z, or -1. */
    function HandleIntersect(ray: Ray, hits: (Ray, Shape) -> bool): (r: int)
      reads this
      requires 0 <= activePoint < |points|
      ensures -1 <= r <= 2
      ensures r == -1 <==> forall a :: 0 <= a <= 2 ==> !hits(ray, AxisHandleSphere(points[activePoint].pos, a))
      ensures r != -1 ==> hits(ray, AxisHandleSphere(points[activePoint].pos, r))
      ensures forall a :: 0 <= a < r ==> !hits(ray, AxisHandleSphere(points[activePoint].pos, a))
    {
      var pos := points[activePoint].pos;
      if hits(ray, AxisHandleSphere(pos, 0)) then 0
      else if hits(ray, AxisHandleSphere(pos, 1)) then 1
      else if hits(ray, AxisHandleSphere(pos, 2)) then 2
      else -1
    }

    /** The tangent handle of the active point the ray hits: in Hermite mode
        the Hermite handle (0); in Bezier mode the forward handle (0) before
        the backward one (1); in any other mode none (-1). */
    function TangentIntersect(ray: Ray, hits: (Ray, Shape) -> bool): (r: int)
      reads this
      requires 0 <= activePoint < |points|
      ensures -1 <= r <= 1
      ensures currentInterpMode != Hermite && currentInterpMode != Bezier ==> r == -1
      ensures currentInterpMode == Hermite ==>
                (r == 0 <==> hits(ray, TangentBox(HermiteHandle(points[activePoint])))) && r != 1
      ensures currentInterpMode == Bezier ==>
                && (r == 0 <==> hits(ray, TangentBox(ForwardHandle(points[activePoint]))))
                && (r == 1 <==> !hits(ray, TangentBox(ForwardHandle(points[activePoint])))
                                && hits(ray, TangentBox(BackwardHandle(points[activePoint]))))
    {
      var p := points[activePoint];
      if currentInterpMode == Hermite then
        if hits(ray, TangentBox(HermiteHandle(p))) then 0 else -1
      else if currentInterpMode == Bezier then
        if hits(ray, TangentBox(ForwardHandle(p))) then 0
        else if hits(ray, TangentBox(BackwardHandle(p))) then 1
        else -1
      else
        -1
    }

    /** A button press: the held axis handle, tangent handle or active point
        changes as Press says, consulting the pickers on this state. */
    method MouseDown(leftDown: bool, ray: Ray, hits: (Ray, Shape) -> bool)
      requires Valid()
      modifies this`activePoint, this`activeXYZHandle, this`activeTangentHandle
      ensures Valid()
      ensures !leftDown ==> SelectionState() == old(SelectionState())
      ensures leftDown ==>
                var axisHit := if old(activePoint) != -1 then old(HandleIntersect(ray, hits)) else -1;
                var tangentHit := if old(activePoint) != -1 then old(TangentIntersect(ray, hits)) else -1;
                SelectionState() == Press(old(SelectionState()), axisHit, tangentHit, PickPoint(points, ray, hits))
    {
      if leftDown {
        if activePoint != -1 && activeXYZHandle == -1 && activeTangentHandle == -1 {
          activeXYZHandle := HandleIntersect(ray, hits);
        }
        if activeXYZHandle == -1 && activePoint != -1 {
          activeTangentHandle := TangentIntersect(ray, hits);
        }
        if activeTangentHandle == -1 && activeXYZHandle == -1 {
          activePoint := Intersect(ray, hits);
        }
      }
    }

    /** A button release lets go of both handles; the point stays selected. */
    method MouseUp(isLeft: bool)
      requires Valid()
      modifies this`activeXYZHandle, this`activeTangentHandle
      ensures Valid()
      ensures SelectionState() == if isLeft then Release(old(SelectionState())) else old(SelectionState())
    {
      if isLeft {
        activeXYZHandle := -1;
        activeTangentHandle := -1;
      }
    }

    /** The drag plane of the held axis handle is not parallel to the ray. */
    predicate PlaneIntersectDefined(ray: Ray)
      reads this
    {
      && (activeXYZHandle == 0 || activeXYZHandle == 1 ==> ray.direction.z != 0.0)
      && (activeXYZHandle == 2 ==> ray.direction.y != 0.0)
    }

    /** Where the ray meets the drag plane of the held axis handle: the plane
        z = pos.z for the x and y handles, y = pos.y for the z handle; the
        ray's origin when no axis handle is held. */
    function GetPlaneIntersect(ray: Ray): (r: Vec3)
      reads this
      requires Valid() && PlaneIntersectDefined(ray)
      ensures OnRayLine(r, ray)
      ensures activeXYZHandle == 0 || activeXYZHandle == 1 ==> r.z == points[activePoint].pos.z
      ensures activeXYZHandle == 2 ==> r.y == points[activePoint].pos.y
      ensures activeXYZHandle == -1 ==> r == ray.origin
    {
      var t :=
        if activeXYZHandle == 0 || activeXYZHandle == 1 then
          (points[activePoint].pos.z - ray.origin.z) / ray.direction.z
        else if activeXYZHandle == 2 then
          (points[activePoint].pos.y - ray.origin.y) / ray.direction.y
        else
          0.0;
      PointAt(ray, t)
    }

    /** Moves the active point along the held axis so that the handle follows
        the ray's hit on the drag plane. */
    method UpdatePoint(ray: Ray)
      requires Valid() && PlaneIntersectDefined(ray)
      modifies this`points
      ensures Valid()
      ensures points == if activeXYZHandle == -1 then old(points)
                        else AxisDragged(old(points), activePoint, activeXYZHandle, old(GetPlaneIntersect(ray)))
    {
      if activeXYZHandle == 0 {
        var hit := GetPlaneIntersect(ray);
        points := points[activePoint := points[activePoint].(pos := points[activePoint].pos.(x := hit.x - AxisHandleOffset))];
      }
      if activeXYZHandle == 1 {
        var hit := GetPlaneIntersect(ray);
        points := points[activePoint := points[activePoint].(pos := points[activePoint].pos.(y := hit.y - AxisHandleOffset))];
      }
      if activeXYZHandle == 2 {
        var hit := GetPlaneIntersect(ray);
        points := points[activePoint := points[activePoint].(pos := points[activePoint].pos.(z := hit.z - AxisHandleOffset))];
      }
      if activeXYZHandle != -1 {
        AxisDragKeepsHandlesOpposed(old(points), activePoint, activeXYZHandle, old(GetPlaneIntersect(ray)));
      }
    }

    /** Moves the held tangent handle of the active point onto the drag ray's
        hit with the camera-facing plane through the handle. */
    method UpdateTangent(planeHit: Vec3 -> Vec3, length: Vec3 -> real)
      requires Valid() && 0 <= activePoint < |points| && IsLength(length)
      requires TangentDragDefined(points, currentInterpMode, activePoint, activeTangentHandle, planeHit, length)
      modifies this`points
      ensures Valid()
      ensures points == TangentDragged(old(points), currentInterpMode, activePoint, activeTangentHandle, planeHit, length)
    {
      if currentInterpMode == Hermite {
        var p := points[activePoint];
        var intersection := planeHit(Add(p.pos, p.hermiteTangent));
        points := points[activePoint := p.(hermiteTangent := Sub(intersection, p.pos))];
      }
      if currentInterpMode == Bezier {
        var p := points[activePoint];
        var handle, oppositeHandle;
        if activeTangentHandle == 0 {
          handle, oppositeHandle := p.bezierTangentF, p.bezierTangentB;
        } else {
          handle, oppositeHandle := p.bezierTangentB, p.bezierTangentF;
        }
        var intersection := planeHit(Add(p.pos, handle));
        handle := Sub(intersection, p.pos);
        if activePoint != 0 && activePoint != |points| - 1 {
          oppositeHandle := Scale(length(oppositeHandle), Neg(Normalize(length, handle)));
        }
        if activeTangentHandle == 0 {
          points := points[activePoint := p.(bezierTangentF := handle, bezierTangentB := oppositeHandle)];
        } else {
          points := points[activePoint := p.(bezierTangentB := handle, bezierTangentF := oppositeHandle)];
        }
      }
      TangentDragKeepsHandlesOpposed(old(points), currentInterpMode, activePoint, activeTangentHandle, planeHit, length);
    }

    /** A drag moves the active point when an axis handle is held and its
        tangent when a tangent handle is held. */
    method MouseDrag(ray: Ray, planeHit: Vec3 -> Vec3, length: Vec3 -> real)
      requires Valid() && PlaneIntersectDefined(ray) && IsLength(length)
      requires activeTangentHandle != -1 ==>
                 0 <= activePoint < |points|
                 && TangentDragDefined(points, currentInterpMode, activePoint, activeTangentHandle, planeHit, length)
      modifies this`points
      ensures Valid()
      ensures points == if activeXYZHandle != -1 then
                          AxisDragged(old(points), activePoint, activeXYZHandle, old(GetPlaneIntersect(ray)))
                        else if activeTangentHandle != -1 then
                          TangentDragged(old(points), currentInterpMode, activePoint, activeTangentHandle, planeHit, length)
                        else
                          old(points)
    {
      if activeXYZHandle != -1 {
        UpdatePoint(ray);
      }
      if activeTangentHandle != -1 {
        UpdateTangent(planeHit, length);
      }
    }
  }
}
