/** The editing rules of the spline editor as functions of values: the
    selection state machine of a button press and release, the point picker,
    and the changes that inserting a point and dragging a handle make to the
    point list. */
module Editing {
  import opened Geometry
  import opened Points

  // ---- Selection --------------------------------------------------------------

  /** The editor's selection fields; -1 means none. activeXYZHandle 0, 1, 2 is
      the x, y, z translation handle; activeTangentHandle 0 is the Hermite or
      forward Bezier handle, 1 the backward Bezier handle. */
  datatype Selection = Selection(activePoint: int, activeXYZHandle: int, activeTangentHandle: int)

  const Idle := Selection(-1, -1, -1)

  /** At most one handle is held, and a held handle belongs to an existing
      point. */
  predicate WellFormed(s: Selection, n: nat) {
    && -1 <= s.activePoint < n
    && -1 <= s.activeXYZHandle <= 2
    && -1 <= s.activeTangentHandle <= 1
    && (s.activeXYZHandle == -1 || s.activeTangentHandle == -1)
    && (s.activeXYZHandle != -1 || s.activeTangentHandle != -1 ==> 0 <= s.activePoint)
  }

  /** A left-button press, given what each picker would answer: axisHit from
      the axis handles of the active point, tangentHit from its tangent
      handles, pointHit from the points. A picker's answer is used only when
      the rules of the press consult it. */
  function Press(s: Selection, axisHit: int, tangentHit: int, pointHit: int): Selection {
    var xyz := if s.activePoint != -1 && s.activeXYZHandle == -1 && s.activeTangentHandle == -1
               then axisHit else s.activeXYZHandle;
    var tangent := if xyz == -1 && s.activePoint != -1 then tangentHit else s.activeTangentHandle;
    var point := if tangent == -1 && xyz == -1 then pointHit else s.activePoint;
    Selection(point, xyz, tangent)
  }

  /** A left-button release lets go of every handle and keeps the point. */
  function Release(s: Selection): (r: Selection)
    ensures r.activeXYZHandle == -1 && r.activeTangentHandle == -1
    ensures r.activePoint == s.activePoint
  {
    s.(activeXYZHandle := -1, activeTangentHandle := -1)
  }

  lemma PressKeepsWellFormed(s: Selection, n: nat, axisHit: int, tangentHit: int, pointHit: int)
    requires WellFormed(s, n)
    requires -1 <= axisHit <= 2 && -1 <= tangentHit <= 1 && -1 <= pointHit < n
    ensures WellFormed(Press(s, axisHit, tangentHit, pointHit), n)
  {
  }

  lemma ReleaseKeepsWellFormed(s: Selection, n: nat)
    requires WellFormed(s, n)
    ensures WellFormed(Release(s), n)
  {
  }

  /** The precedence of a press on a selected point with no handle held:
      an axis handle wins over a tangent handle, which wins over the points. */
  lemma PressPrecedence(s: Selection, n: nat, axisHit: int, tangentHit: int, pointHit: int)
    requires WellFormed(s, n) && s.activePoint != -1
    requires s.activeXYZHandle == -1 && s.activeTangentHandle == -1
    ensures axisHit != -1 ==> Press(s, axisHit, tangentHit, pointHit) == Selection(s.activePoint, axisHit, -1)
    ensures axisHit == -1 && tangentHit != -1
        ==> Press(s, axisHit, tangentHit, pointHit) == Selection(s.activePoint, -1, tangentHit)
    ensures axisHit == -1 && tangentHit == -1
        ==> Press(s, axisHit, tangentHit, pointHit) == Selection(pointHit, -1, -1)
  {
  }

  /** With no point selected only the points are consulted. */
  lemma PressWithoutSelection(s: Selection, n: nat, axisHit: int, tangentHit: int, pointHit: int)
    requires WellFormed(s, n) && s.activePoint == -1
    ensures Press(s, axisHit, tangentHit, pointHit) == Selection(pointHit, -1, -1)
  {
  }

  /** A press while a handle is still held (no release came in between): an
      axis handle stays held and nothing changes; a held tangent handle is
      re-picked, and only if that misses are the points consulted. */
  lemma PressWhileHolding(s: Selection, n: nat, axisHit: int, tangentHit: int, pointHit: int)
    requires WellFormed(s, n)
    ensures s.activeXYZHandle != -1 ==> Press(s, axisHit, tangentHit, pointHit) == s
    ensures s.activeTangentHandle != -1 ==>
              Press(s, axisHit, tangentHit, pointHit)
              == Selection(if tangentHit == -1 then pointHit else s.activePoint, -1, tangentHit)
  {
  }

  // ---- Picking ------------------------------------------------------------------

  /** Hit shapes: radius 0.1 around a point, radius 0.2 around the axis
      handle 0.9 along each axis, half-extent 0.1 around a tangent handle. */
  const PointRadius := 0.1
  const AxisHandleRadius := 0.2
  const AxisHandleOffset := 0.9
  const TangentBoxExtent := 0.1

  function PointSphere(p: RedefinedPoint): Shape { Sphere(p.pos, PointRadius) }

  function AxisHandleCentre(pos: Vec3, axis: int): Vec3
    requires 0 <= axis <= 2
  {
    Add(pos, WithCoord(Zero, axis, AxisHandleOffset))
  }

  function AxisHandleSphere(pos: Vec3, axis: int): Shape
    requires 0 <= axis <= 2
  {
    Sphere(AxisHandleCentre(pos, axis), AxisHandleRadius)
  }

  function TangentBox(handle: Vec3): Shape { CubeAround(handle, TangentBoxExtent) }

  /** The first point at index i or later whose sphere the ray hits, or -1. */
  function PickFrom(pts: seq<RedefinedPoint>, ray: Ray, hits: (Ray, Shape) -> bool, i: nat): (r: int)
    requires i <= |pts|
    ensures r == -1 || i <= r < |pts|
    ensures r == -1 <==> forall j :: i <= j < |pts| ==> !hits(ray, PointSphere(pts[j]))
    ensures r != -1 ==> hits(ray, PointSphere(pts[r])) && forall j :: i <= j < r ==> !hits(ray, PointSphere(pts[j]))
    decreases |pts| - i
  {
    if i == |pts| then -1
    else if hits(ray, PointSphere(pts[i])) then i
    else PickFrom(pts, ray, hits, i + 1)
  }

  /** The point the ray selects: the lowest index whose sphere is hit (first
      in the list, not nearest to the eye), or -1. */
  function PickPoint(pts: seq<RedefinedPoint>, ray: Ray, hits: (Ray, Shape) -> bool): (r: int)
    ensures -1 <= r < |pts|
    ensures r == -1 <==> forall j :: 0 <= j < |pts| ==> !hits(ray, PointSphere(pts[j]))
    ensures r != -1 ==> hits(ray, PointSphere(pts[r])) && forall j :: 0 <= j < r ==> !hits(ray, PointSphere(pts[j]))
  {
    PickFrom(pts, ray, hits, 0)
  }

  // ---- Inserting a point ----------------------------------------------------------

  const InsertOffset := Vec3(1.0, 0.0, 0.0)

  /** The point list after InsertPoint. */
  function AppendPoint(pts: seq<RedefinedPoint>): (r: seq<RedefinedPoint>)
    ensures |r| == |pts| + 1
    ensures r[|pts|] == NewPoint().(pos := if pts == [] then Zero else Add(pts[|pts| - 1].pos, InsertOffset))
    ensures |pts| >= 2
        ==> r[|pts| - 1] == pts[|pts| - 1].(bezierTangentB := Neg(pts[|pts| - 1].bezierTangentF))
    ensures forall i :: 0 <= i < |pts| && (|pts| < 2 || i != |pts| - 1) ==> r[i] == pts[i]
  {
    var last := |pts|;
    var grown := pts + [NewPoint()];
    var placed := if last >= 1 then grown[last := grown[last].(pos := Add(grown[last - 1].pos, InsertOffset))] else grown;
    if last >= 2 then placed[last - 1 := placed[last - 1].(bezierTangentB := Neg(placed[last - 1].bezierTangentF))]
    else placed
  }

  /** The Bezier handles of every interior point are opposed: on one line,
      pointing away from each other. */
  ghost predicate InteriorHandlesOpposed(pts: seq<RedefinedPoint>) {
    forall i :: 0 < i < |pts| - 1 ==> HandlesOpposedAt(pts, i)
  }

  /** Point i has opposed Bezier handles. */
  predicate HandlesOpposedAt(pts: seq<RedefinedPoint>, i: int) {
    0 <= i < |pts| && Opposed(pts[i].bezierTangentF, pts[i].bezierTangentB)
  }

  /** Inserting keeps the interior handles opposed: the point that becomes
      interior gets its backward handle reset to minus its forward one. */
  lemma AppendPointKeepsHandlesOpposed(pts: seq<RedefinedPoint>)
    requires InteriorHandlesOpposed(pts)
    ensures InteriorHandlesOpposed(AppendPoint(pts))
  {
    var n := |pts|;
    var r := AppendPoint(pts);
    forall i | 0 < i < |r| - 1
      ensures HandlesOpposedAt(r, i)
    {
      if i == n - 1 {
        OpposedToNegativeMultiple(pts[n - 1].bezierTangentF, 1.0);
        assert Scale(-1.0, pts[n - 1].bezierTangentF) == Neg(pts[n - 1].bezierTangentF);
      } else {
        assert r[i] == pts[i] && HandlesOpposedAt(pts, i);
      }
    }
  }

  // ---- Dragging an axis handle ----------------------------------------------------

  /** The point list after the axis handle `axis` of point ap is dragged to
      `hit`: the handle centre's coordinate along the axis follows the hit. */
  function AxisDragged(pts: seq<RedefinedPoint>, ap: int, axis: int, hit: Vec3): seq<RedefinedPoint>
    requires 0 <= ap < |pts| && 0 <= axis <= 2
  {
    pts[ap := pts[ap].(pos := WithCoord(pts[ap].pos, axis, Coord(hit, axis) - AxisHandleOffset))]
  }

  /** Dragging changes one coordinate of one point: the dragged handle's
      centre lands on the hit along its axis, and nothing else moves. */
  lemma AxisDragMovesOneCoordinate(pts: seq<RedefinedPoint>, ap: int, axis: int, hit: Vec3)
    requires 0 <= ap < |pts| && 0 <= axis <= 2
    ensures |AxisDragged(pts, ap, axis, hit)| == |pts|
    ensures forall i :: 0 <= i < |pts| && i != ap ==> AxisDragged(pts, ap, axis, hit)[i] == pts[i]
    ensures Coord(AxisHandleCentre(AxisDragged(pts, ap, axis, hit)[ap].pos, axis), axis) == Coord(hit, axis)
    ensures forall b :: 0 <= b <= 2 && b != axis ==>
              Coord(AxisDragged(pts, ap, axis, hit)[ap].pos, b) == Coord(pts[ap].pos, b)
    ensures AxisDragged(pts, ap, axis, hit)[ap].(pos := pts[ap].pos) == pts[ap]
  {
    var q := AxisDragged(pts, ap, axis, hit)[ap].pos;
    assert Coord(AxisHandleCentre(q, axis), axis) == Coord(q, axis) + AxisHandleOffset;
  }

  lemma AxisDragKeepsHandlesOpposed(pts: seq<RedefinedPoint>, ap: int, axis: int, hit: Vec3)
    requires 0 <= ap < |pts| && 0 <= axis <= 2
    requires InteriorHandlesOpposed(pts)
    ensures InteriorHandlesOpposed(AxisDragged(pts, ap, axis, hit))
  {
    var r := AxisDragged(pts, ap, axis, hit);
    forall i | 0 < i < |r| - 1
      ensures HandlesOpposedAt(r, i)
    {
      assert r[i].bezierTangentF == pts[i].bezierTangentF && r[i].bezierTangentB == pts[i].bezierTangentB;
      assert HandlesOpposedAt(pts, i);
    }
  }

  // ---- Dragging a tangent handle --------------------------------------------------

  /** The handle a drag edits in Bezier mode: 0 picks the forward handle, any
      other value the backward one. */
  function SelectedBezierTangent(p: RedefinedPoint, handle: int): Vec3 {
    if handle == 0 then p.bezierTangentF else p.bezierTangentB
  }

  /** The handle a Bezier drag does not edit. */
  function OppositeBezierTangent(p: RedefinedPoint, handle: int): Vec3 {
    if handle == 0 then p.bezierTangentB else p.bezierTangentF
  }

  /** The relative tangent that puts the handle where the drag ray crosses
      the camera-facing plane through the handle's current absolute position. */
  function DraggedTangent(p: RedefinedPoint, tangent: Vec3, planeHit: Vec3 -> Vec3): Vec3 {
    Sub(planeHit(Add(p.pos, tangent)), p.pos)
  }

  predicate IsInterior(n: nat, i: int) { i != 0 && i != n - 1 }

  /** An interior Bezier edit normalises the edited tangent, so it must not
      have zero length. */
  predicate TangentDragDefined(pts: seq<RedefinedPoint>, mode: int, ap: int, handle: int,
                               planeHit: Vec3 -> Vec3, length: Vec3 -> real)
    requires 0 <= ap < |pts|
  {
    mode == Bezier && IsInterior(|pts|, ap)
    ==> length(DraggedTangent(pts[ap], SelectedBezierTangent(pts[ap], handle), planeHit)) != 0.0
  }

  /** The opposite Bezier tangent after the other one became `edited`: the
      reverse direction of `edited`, with the opposite tangent's old length. */
  function RealignedTangent(edited: Vec3, opposite: Vec3, length: Vec3 -> real): Vec3
    requires length(edited) != 0.0
  {
    Scale(length(opposite), Neg(Normalize(length, edited)))
  }

  /** The point list after the tangent handle `handle` of point ap is dragged. */
  function TangentDragged(pts: seq<RedefinedPoint>, mode: int, ap: int, handle: int,
                          planeHit: Vec3 -> Vec3, length: Vec3 -> real): seq<RedefinedPoint>
    requires 0 <= ap < |pts|
    requires TangentDragDefined(pts, mode, ap, handle, planeHit, length)
  {
    var p := pts[ap];
    if mode == Hermite then
      pts[ap := p.(hermiteTangent := DraggedTangent(p, p.hermiteTangent, planeHit))]
    else if mode == Bezier then
      var edited := DraggedTangent(p, SelectedBezierTangent(p, handle), planeHit);
      var other := OppositeBezierTangent(p, handle);
      var opposite := if IsInterior(|pts|, ap) then RealignedTangent(edited, other, length) else other;
      if handle == 0 then pts[ap := p.(bezierTangentF := edited, bezierTangentB := opposite)]
      else pts[ap := p.(bezierTangentB := edited, bezierTangentF := opposite)]
    else
      pts
  }

  /** In Hermite mode only the Hermite tangent of the active point changes,
      and its handle lands on the drag plane's hit. */
  lemma HermiteTangentDrag(pts: seq<RedefinedPoint>, ap: int, handle: int,
                           planeHit: Vec3 -> Vec3, length: Vec3 -> real)
    requires 0 <= ap < |pts|
    ensures |TangentDragged(pts, Hermite, ap, handle, planeHit, length)| == |pts|
    ensures forall i :: 0 <= i < |pts| && i != ap ==> TangentDragged(pts, Hermite, ap, handle, planeHit, length)[i] == pts[i]
    ensures TangentDragged(pts, Hermite, ap, handle, planeHit, length)[ap].(hermiteTangent := pts[ap].hermiteTangent) == pts[ap]
    ensures HermiteHandle(TangentDragged(pts, Hermite, ap, handle, planeHit, length)[ap]) == planeHit(HermiteHandle(pts[ap]))
  {
  }

  /** In Bezier mode the edited handle lands on the drag plane's hit. On an
      interior point the opposite tangent is turned to point away from the
      edited one and keeps its length; on the first or last point it is left
      alone. Other points and the position and Hermite tangent do not change. */
  lemma {:induction false} BezierTangentDrag(pts: seq<RedefinedPoint>, ap: int, handle: int,
                                            planeHit: Vec3 -> Vec3, length: Vec3 -> real)
    requires 0 <= ap < |pts| && IsLength(length)
    requires TangentDragDefined(pts, Bezier, ap, handle, planeHit, length)
    ensures |TangentDragged(pts, Bezier, ap, handle, planeHit, length)| == |pts|
    ensures forall i :: 0 <= i < |pts| && i != ap ==> TangentDragged(pts, Bezier, ap, handle, planeHit, length)[i] == pts[i]
    ensures var q := TangentDragged(pts, Bezier, ap, handle, planeHit, length)[ap];
            && q.pos == pts[ap].pos && q.hermiteTangent == pts[ap].hermiteTangent
            && Add(q.pos, SelectedBezierTangent(q, handle)) == planeHit(Add(pts[ap].pos, SelectedBezierTangent(pts[ap], handle)))
            && (IsInterior(|pts|, ap) ==> Opposed(q.bezierTangentF, q.bezierTangentB))
            && (IsInterior(|pts|, ap) ==> length(OppositeBezierTangent(q, handle)) == length(OppositeBezierTangent(pts[ap], handle)))
            && (!IsInterior(|pts|, ap) ==> OppositeBezierTangent(q, handle) == OppositeBezierTangent(pts[ap], handle))
  {
    var p := pts[ap];
    var q := TangentDragged(pts, Bezier, ap, handle, planeHit, length)[ap];
    var edited := DraggedTangent(p, SelectedBezierTangent(p, handle), planeHit);
    var other := OppositeBezierTangent(p, handle);
    assert SelectedBezierTangent(q, handle) == edited;
    if IsInterior(|pts|, ap) {
      RealignedIsOpposed(edited, other, length);
    }
  }

  /** The realigned tangent is a non-positive multiple of the edited one with
      the length of the tangent it replaces. */
  lemma {:induction false} RealignedIsOpposed(edited: Vec3, opposite: Vec3, length: Vec3 -> real)
    requires IsLength(length) && length(edited) != 0.0
    ensures Opposed(edited, RealignedTangent(edited, opposite, length))
    ensures Opposed(RealignedTangent(edited, opposite, length), edited)
    ensures length(RealignedTangent(edited, opposite, length)) == length(opposite)
  {
    assert length(edited) > 0.0 && length(opposite) >= 0.0;
    var c := RealignedIsMultiple(edited, opposite, length);
    var r := RealignedTangent(edited, opposite, length);
    OpposedToNegativeMultiple(edited, c);
    assert Opposed(edited, r) && Opposed(r, edited);
    ScaledLength(edited, c, length);
  }

  lemma ScaledLength(v: Vec3, c: real, length: Vec3 -> real)
    requires IsLength(length) && c >= 0.0 && length(v) != 0.0
    ensures length(Scale(-c, v)) == c * length(v)
  {
    assert Abs(-c) == c;
  }

  /** The realigned tangent is -c times the edited one, c = |opposite| / |edited|. */
  lemma {:induction false} RealignedIsMultiple(edited: Vec3, opposite: Vec3, length: Vec3 -> real) returns (c: real)
    requires length(edited) > 0.0 && length(opposite) >= 0.0
    ensures c >= 0.0 && c == length(opposite) / length(edited)
    ensures RealignedTangent(edited, opposite, length) == Scale(-c, edited)
    ensures c * length(edited) == length(opposite)
  {
    var l := length(edited);
    var len := length(opposite);
    c := len / l;
    DivNonNegative(len, l);
    RealignedAsMultiple(edited, len, l);
    MulDivCancel(len, l);
  }

  lemma DivNonNegative(a: real, b: real)
    requires a >= 0.0 && b > 0.0
    ensures a / b >= 0.0
  {
  }

  lemma MulDivCancel(a: real, b: real)
    requires b != 0.0
    ensures a / b * b == a
  {
  }

  /** len · -(e / l) is the multiple -(len / l) of e. */
  lemma RealignedAsMultiple(e: Vec3, len: real, l: real)
    requires l != 0.0
    ensures Scale(len, Neg(Scale(1.0 / l, e))) == Scale(-(len / l), e)
  {
    assert len * -(1.0 / l * e.x) == -(len / l) * e.x;
    assert len * -(1.0 / l * e.y) == -(len / l) * e.y;
    assert len * -(1.0 / l * e.z) == -(len / l) * e.z;
  }

  /** Any tangent drag keeps every interior point's Bezier handles opposed. */
  lemma {:induction false} TangentDragKeepsHandlesOpposed(pts: seq<RedefinedPoint>, mode: int, ap: int, handle: int,
                                                          planeHit: Vec3 -> Vec3, length: Vec3 -> real)
    requires 0 <= ap < |pts| && IsLength(length)
    requires TangentDragDefined(pts, mode, ap, handle, planeHit, length)
    requires InteriorHandlesOpposed(pts)
    ensures InteriorHandlesOpposed(TangentDragged(pts, mode, ap, handle, planeHit, length))
  {
    var r := TangentDragged(pts, mode, ap, handle, planeHit, length);
    if mode == Bezier {
      BezierTangentDrag(pts, ap, handle, planeHit, length);
    } else if mode == Hermite {
      HermiteTangentDrag(pts, ap, handle, planeHit, length);
    }
    forall i | 0 < i < |r| - 1
      ensures HandlesOpposedAt(r, i)
    {
      if i != ap || mode != Bezier {
        assert r[i].bezierTangentF == pts[i].bezierTangentF && r[i].bezierTangentB == pts[i].bezierTangentB;
        assert HandlesOpposedAt(pts, i);
      }
    }
  }
}
