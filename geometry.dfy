/** Exact 3D vector arithmetic standing in for glm's vec3, and the ray and hit
    shapes that the spline editor hands to Cinder's intersection tests. */
module Geometry {

  datatype Vec3 = Vec3(x: real, y: real, z: real)

  const Zero := Vec3(0.0, 0.0, 0.0)

  function Add(a: Vec3, b: Vec3): Vec3 { Vec3(a.x + b.x, a.y + b.y, a.z + b.z) }

  function Sub(a: Vec3, b: Vec3): Vec3 { Vec3(a.x - b.x, a.y - b.y, a.z - b.z) }

  function Neg(a: Vec3): Vec3 { Vec3(-a.x, -a.y, -a.z) }

  function Scale(c: real, a: Vec3): Vec3 { Vec3(c * a.x, c * a.y, c * a.z) }

  lemma ScaleAdd(c: real, a: Vec3, b: Vec3)
    ensures Scale(c, Add(a, b)) == Add(Scale(c, a), Scale(c, b))
  {
  }

  lemma SubAddCancel(a: Vec3, b: Vec3)
    ensures Sub(Add(a, b), a) == b
  {
  }

  function Dot(a: Vec3, b: Vec3): real { a.x * b.x + a.y * b.y + a.z * b.z }

  function Cross(a: Vec3, b: Vec3): Vec3 {
    Vec3(a.y * b.z - a.z * b.y, a.z * b.x - a.x * b.z, a.x * b.y - a.y * b.x)
  }

  function Abs(r: real): real { if r < 0.0 then -r else r }

  /** Coordinate `axis` of v: 0 is x, 1 is y, 2 is z. */
  function Coord(v: Vec3, axis: int): real
    requires 0 <= axis <= 2
  {
    if axis == 0 then v.x else if axis == 1 then v.y else v.z
  }

  /** v with coordinate `axis` replaced by `value`. */
  function WithCoord(v: Vec3, axis: int, value: real): (r: Vec3)
    requires 0 <= axis <= 2
    ensures Coord(r, axis) == value
    ensures forall b :: 0 <= b <= 2 && b != axis ==> Coord(r, b) == Coord(v, b)
  {
    if axis == 0 then v.(x := value) else if axis == 1 then v.(y := value) else v.(z := value)
  }

  /** a and b lie on one line through the origin and point in opposite
      directions; either of them may be the zero vector. */
  predicate Opposed(a: Vec3, b: Vec3) {
    Cross(a, b) == Zero && Dot(a, b) <= 0.0
  }

  lemma NonNegativeProduct(a: real, b: real)
    requires a >= 0.0 && b >= 0.0
    ensures a * b >= 0.0
  {
  }

  /** Scaling a vector by a non-positive factor gives a vector opposed to it. */
  lemma {:induction false} OpposedToNegativeMultiple(v: Vec3, c: real)
    requires c >= 0.0
    ensures Opposed(v, Scale(-c, v)) && Opposed(Scale(-c, v), v)
  {
    var s := v.x * v.x + v.y * v.y + v.z * v.z;
    assert s >= 0.0 by {
      NonNegativeProduct(v.x * v.x, 1.0);
    }
    assert Dot(v, Scale(-c, v)) == -(c * s);
    assert Dot(Scale(-c, v), v) == -(c * s);
    NonNegativeProduct(c, s);
  }

  /** The properties of glm's `length` that the editor relies on: it is never
      negative, it is positive on every non-zero vector, and it scales with the
      absolute value of a factor. */
  ghost predicate IsLength(length: Vec3 -> real) {
    && (forall v :: length(v) >= 0.0)
    && (forall v :: v != Zero ==> length(v) > 0.0)
    && (forall c, v :: length(Scale(c, v)) == Abs(c) * length(v))
  }

  /** glm's `normalize`: v divided by its length. */
  function Normalize(length: Vec3 -> real, v: Vec3): (n: Vec3)
    requires length(v) != 0.0
    ensures IsLength(length) ==> length(n) == 1.0
  {
    Scale(1.0 / length(v), v)
  }

  /** A ray as Cinder's `Ray`: the points origin + t·direction. */
  datatype Ray = Ray(origin: Vec3, direction: Vec3)

  function PointAt(ray: Ray, t: real): Vec3 {
    Add(ray.origin, Scale(t, ray.direction))
  }

  /** p lies on the line that carries the ray. */
  predicate OnRayLine(p: Vec3, ray: Ray) {
    Cross(Sub(p, ray.origin), ray.direction) == Zero
  }

  /** The two hit shapes the picker builds: Cinder's `Sphere` and `AxisAlignedBox`. */
  datatype Shape = Sphere(center: Vec3, radius: real) | Box(lower: Vec3, upper: Vec3)

  /** The axis-aligned cube of half-extent e centred at c. */
  function CubeAround(c: Vec3, e: real): Shape {
    Box(Add(c, Vec3(-e, -e, -e)), Add(c, Vec3(e, e, e)))
  }
}
