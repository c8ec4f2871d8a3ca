/** The per-segment blending polynomials of the four evaluators (the eq1..eq4
    expressions of splines.cpp), over exact reals. */
module Bases {
  import opened Geometry

  /** The four blending weights eq1..eq4 at one parameter value. */
  datatype Weights = Weights(w1: real, w2: real, w3: real, w4: real)

  /** w1·a + w2·b + w3·c + w4·d, coordinate by coordinate, as the cubic
      evaluators compute x, y and z. */
  function Blend(w: Weights, a: Vec3, b: Vec3, c: Vec3, d: Vec3): Vec3 {
    Vec3(w.w1 * a.x + w.w2 * b.x + w.w3 * c.x + w.w4 * d.x,
         w.w1 * a.y + w.w2 * b.y + w.w3 * c.y + w.w4 * d.y,
         w.w1 * a.z + w.w2 * b.z + w.w3 * c.z + w.w4 * d.z)
  }

  /** Blending with weights that sum to 1 commutes with a translation of all
      four inputs. */
  lemma {:induction false} BlendTranslation(w: Weights, a: Vec3, b: Vec3, c: Vec3, e: Vec3, d: Vec3)
    requires w.w1 + w.w2 + w.w3 + w.w4 == 1.0
    ensures Blend(w, Add(a, d), Add(b, d), Add(c, d), Add(e, d)) == Add(Blend(w, a, b, c, e), d)
  {
    assert w.w4 == 1.0 - w.w1 - w.w2 - w.w3;
  }

  // ---- Line -------------------------------------------------------------

  /** (1 - u)·p0 + u·p1. */
  function LinePoint(p0: Vec3, p1: Vec3, u: real): (r: Vec3)
    ensures u == 0.0 ==> r == p0
    ensures u == 1.0 ==> r == p1
  {
    Add(Scale(1.0 - u, p0), Scale(u, p1))
  }

  lemma {:induction false} LineTranslation(p0: Vec3, p1: Vec3, u: real, d: Vec3)
    ensures LinePoint(Add(p0, d), Add(p1, d), u) == Add(LinePoint(p0, p1, u), d)
  {
    ScaleAdd(1.0 - u, p0, d);
    ScaleAdd(u, p1, d);
    SplitByWeights(u, d);
    var a, b, c, e := Scale(1.0 - u, p0), Scale(1.0 - u, d), Scale(u, p1), Scale(u, d);
    assert Add(Add(a, b), Add(c, e)) == Add(Add(a, c), Add(b, e));
  }

  /** The two line weights sum to 1. */
  lemma SplitByWeights(u: real, d: Vec3)
    ensures Add(Scale(1.0 - u, d), Scale(u, d)) == d
  {
  }

  // ---- Hermite ----------------------------------------------------------

  function HermiteWeights(u: real): (w: Weights)
    ensures w.w1 + w.w2 == 1.0
    ensures u == 0.0 ==> w == Weights(1.0, 0.0, 0.0, 0.0)
    ensures u == 1.0 ==> w == Weights(0.0, 1.0, 0.0, 0.0)
  {
    var u3 := u * u * u;
    var u2 := u * u;
    Weights(2.0 * u3 - 3.0 * u2 + 1.0, -2.0 * u3 + 3.0 * u2, u3 - 2.0 * u2 + u, u3 - u2)
  }

  /** The textbook factored form of the cubic Hermite basis. */
  lemma HermiteWeightsFactored(u: real)
    ensures HermiteWeights(u)
         == Weights((1.0 + 2.0 * u) * (1.0 - u) * (1.0 - u), u * u * (3.0 - 2.0 * u),
                    u * (1.0 - u) * (1.0 - u), u * u * (u - 1.0))
  {
  }

  /** Hermite curve through p0 and p1; the tangents t0 and t1 enter the basis
      as raw coefficients, not as offsets from the positions. */
  function HermitePoint(p0: Vec3, p1: Vec3, t0: Vec3, t1: Vec3, u: real): (r: Vec3)
    ensures u == 0.0 ==> r == p0
    ensures u == 1.0 ==> r == p1
  {
    Blend(HermiteWeights(u), p0, p1, t0, t1)
  }

  /** Translating both positions translates the sample; the tangents, being
      relative, stay as they are. */
  lemma {:induction false} HermiteTranslation(p0: Vec3, p1: Vec3, t0: Vec3, t1: Vec3, u: real, d: Vec3)
    ensures HermitePoint(Add(p0, d), Add(p1, d), t0, t1, u) == Add(HermitePoint(p0, p1, t0, t1, u), d)
  {
    PositionBlendTranslation(HermiteWeights(u), p0, p1, t0, t1, d);
  }

  /** Blending two positions with weights summing to 1, plus two vectors that
      do not move, commutes with a translation of the positions. */
  lemma {:induction false} PositionBlendTranslation(w: Weights, a: Vec3, b: Vec3, c: Vec3, e: Vec3, d: Vec3)
    requires w.w1 + w.w2 == 1.0
    ensures Blend(w, Add(a, d), Add(b, d), c, e) == Add(Blend(w, a, b, c, e), d)
  {
    assert w.w2 == 1.0 - w.w1;
  }

  // ---- Parabola (Catmull-Rom with tension 1/2) ---------------------------

  function ParabolaWeights(u: real): (w: Weights)
    ensures w.w1 + w.w2 + w.w3 + w.w4 == 1.0
    ensures u == 0.0 ==> w == Weights(0.0, 1.0, 0.0, 0.0)
    ensures u == 1.0 ==> w == Weights(0.0, 0.0, 1.0, 0.0)
  {
    var u3 := u * u * u;
    var u2 := u * u;
    Weights(0.5 * (-1.0 * u3 + 2.0 * u2 - u), 0.5 * (3.0 * u3 - 5.0 * u2 + 2.0),
            0.5 * (-3.0 * u3 + 4.0 * u2 + u), 0.5 * (u3 - u2))
  }

  /** Factored form of the Catmull-Rom weights (tension 1/2): the outer
      neighbours' weights vanish at both ends of the segment. */
  lemma ParabolaWeightsFactored(u: real)
    ensures ParabolaWeights(u)
         == Weights(-0.5 * u * (1.0 - u) * (1.0 - u), 0.5 * (1.0 - u) * (2.0 + 2.0 * u - 3.0 * u * u),
                    0.5 * u * (1.0 + 4.0 * u - 3.0 * u * u), -0.5 * u * u * (1.0 - u))
  {
  }

  /** Curve between q1 and q2, shaped by the neighbours q0 and q3. */
  function ParabolaPoint(q0: Vec3, q1: Vec3, q2: Vec3, q3: Vec3, u: real): (r: Vec3)
    ensures u == 0.0 ==> r == q1
    ensures u == 1.0 ==> r == q2
  {
    Blend(ParabolaWeights(u), q0, q1, q2, q3)
  }

  lemma ParabolaTranslation(q0: Vec3, q1: Vec3, q2: Vec3, q3: Vec3, u: real, d: Vec3)
    ensures ParabolaPoint(Add(q0, d), Add(q1, d), Add(q2, d), Add(q3, d), u)
         == Add(ParabolaPoint(q0, q1, q2, q3, u), d)
  {
    BlendTranslation(ParabolaWeights(u), q0, q1, q2, q3, d);
  }

  // ---- Bezier -----------------------------------------------------------

  function BezierWeights(u: real): (w: Weights)
    ensures w.w1 + w.w2 + w.w3 + w.w4 == 1.0
    ensures u == 0.0 ==> w == Weights(1.0, 0.0, 0.0, 0.0)
    ensures u == 1.0 ==> w == Weights(0.0, 0.0, 0.0, 1.0)
  {
    var u3 := u * u * u;
    var u2 := u * u;
    Weights(-u3 + 3.0 * u2 - 3.0 * u + 1.0, 3.0 * u3 - 6.0 * u2 + 3.0 * u, -3.0 * u3 + 3.0 * u2, u3)
  }

  /** The expanded polynomials are the cubic Bernstein basis. */
  lemma BezierWeightsAreBernstein(u: real)
    ensures BezierWeights(u)
         == Weights((1.0 - u) * (1.0 - u) * (1.0 - u), 3.0 * u * (1.0 - u) * (1.0 - u),
                    3.0 * u * u * (1.0 - u), u * u * u)
  {
  }

  /** Cubic Bezier with control points b0..b3. */
  function BezierPoint(b0: Vec3, b1: Vec3, b2: Vec3, b3: Vec3, u: real): (r: Vec3)
    ensures u == 0.0 ==> r == b0
    ensures u == 1.0 ==> r == b3
  {
    Blend(BezierWeights(u), b0, b1, b2, b3)
  }

  lemma BezierTranslation(b0: Vec3, b1: Vec3, b2: Vec3, b3: Vec3, u: real, d: Vec3)
    ensures BezierPoint(Add(b0, d), Add(b1, d), Add(b2, d), Add(b3, d), u)
         == Add(BezierPoint(b0, b1, b2, b3, u), d)
  {
    BlendTranslation(BezierWeights(u), b0, b1, b2, b3, d);
  }
}
