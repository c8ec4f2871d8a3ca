/** The control-point record and the interpolation modes of splines.h. */
module Points {
  import opened Geometry

  /** One control point. The three tangents are stored relative to `pos`:
      the handle a user drags sits at pos + tangent. The points vector of the
      editor holds these by value (copying one copies all four vectors), so
      the record is a datatype here. */
  datatype RedefinedPoint = RedefinedPoint(
    pos: Vec3,
    hermiteTangent: Vec3,
    bezierTangentF: Vec3,
    bezierTangentB: Vec3)

  /** A default-constructed point: at the origin, with the default tangents. */
  function NewPoint(): (p: RedefinedPoint)
    ensures p.pos == Zero
    ensures p.hermiteTangent == Vec3(0.0, 1.5, 0.0)
    ensures p.bezierTangentF == Vec3(0.0, 1.0, 1.0)
    ensures p.bezierTangentB == Vec3(0.0, -1.0, -1.0)
  {
    RedefinedPoint(Zero, Vec3(0.0, 1.5, 0.0), Vec3(0.0, 1.0, 1.0), Vec3(0.0, -1.0, -1.0))
  }

  /** A fresh point already has the relation between its Bezier tangents that
      inserting a point re-establishes: the backward tangent is minus the
      forward one, so the two are opposed. */
  lemma NewPointTangentsOpposed()
    ensures NewPoint().bezierTangentB == Neg(NewPoint().bezierTangentF)
    ensures Opposed(NewPoint().bezierTangentF, NewPoint().bezierTangentB)
  {
    OpposedToNegativeMultiple(NewPoint().bezierTangentF, 1.0);
  }

  /** Absolute positions of the handles: the point plus its relative tangent. */
  function HermiteHandle(p: RedefinedPoint): Vec3 { Add(p.pos, p.hermiteTangent) }

  function ForwardHandle(p: RedefinedPoint): Vec3 { Add(p.pos, p.bezierTangentF) }

  function BackwardHandle(p: RedefinedPoint): Vec3 { Add(p.pos, p.bezierTangentB) }

  /** Moving a point moves its handles with it, because tangents are relative. */
  lemma HandlesFollowPoint(p: RedefinedPoint, d: Vec3)
    ensures HermiteHandle(p.(pos := Add(p.pos, d))) == Add(HermiteHandle(p), d)
    ensures ForwardHandle(p.(pos := Add(p.pos, d))) == Add(ForwardHandle(p), d)
    ensures BackwardHandle(p.(pos := Add(p.pos, d))) == Add(BackwardHandle(p), d)
  {
  }

  /** The interpolationMode enumerators; the editor stores the mode as the
      integer it was given. */
  const Line := 0
  const Hermite := 1
  const Parabol := 2
  const Bezier := 3

  predicate IsMode(mode: int) { Line <= mode <= Bezier }

  function Positions(pts: seq<RedefinedPoint>): (r: seq<Vec3>)
    ensures |r| == |pts|
    ensures forall i :: 0 <= i < |pts| ==> r[i] == pts[i].pos
  {
    seq(|pts|, i requires 0 <= i < |pts| => pts[i].pos)
  }

  /** Every point moved by d; the tangents stay as they are. */
  function Translated(pts: seq<RedefinedPoint>, d: Vec3): (r: seq<RedefinedPoint>)
    ensures |r| == |pts|
  {
    seq(|pts|, i requires 0 <= i < |pts| => pts[i].(pos := Add(pts[i].pos, d)))
  }

  /** Every vector moved by d. */
  function Shifted(vs: seq<Vec3>, d: Vec3): (r: seq<Vec3>)
    ensures |r| == |vs|
  {
    seq(|vs|, i requires 0 <= i < |vs| => Add(vs[i], d))
  }
}
