/** The constant 4x4 change-of-basis matrices used to turn cubic curve
    segments into Bézier form. As with the graphics library they are built
    for, the sixteen initializer entries fill the matrix column by column:
    entry 4c+r is row r of column c. */
module Basis {
  import opened Common

  type Mat4 = m: seq<real> | |m| == 16 witness [0.0, 0.0, 0.0, 0.0, 0.0, 0.0, 0.0, 0.0, 0.0, 0.0, 0.0, 0.0, 0.0, 0.0, 0.0, 0.0]

  /** Four scalar weights: one coordinate of a segment's four control points. */
  type Weights = w: seq<real> | |w| == 4 witness [0.0, 0.0, 0.0, 0.0]

  const BSplineToBezier: Mat4 := [
    1.0 / 6.0, 0.0, 0.0, 0.0,
    2.0 / 3.0, 2.0 / 3.0, 1.0 / 3.0, 1.0 / 6.0,
    1.0 / 6.0, 1.0 / 3.0, 2.0 / 3.0, 2.0 / 3.0,
    0.0, 0.0, 0.0, 1.0 / 6.0]

  const BezierToBSpline: Mat4 := [
    6.0, 0.0, 0.0, 0.0,
    -7.0, 2.0, -1.0, 2.0,
    2.0, -1.0, 2.0, -7.0,
    0.0, 0.0, 0.0, 6.0]

  /** Converts the power-basis coefficients (a, b, c, d) of a cubic on [0, 1]
      into its four Bernstein (Bézier) coefficients. */
  const PowerToBernstein: Mat4 := [
    1.0, 1.0, 1.0, 1.0,
    0.0, 1.0 / 3.0, 2.0 / 3.0, 1.0,
    0.0, 0.0, 1.0 / 3.0, 1.0,
    0.0, 0.0, 0.0, 1.0]

  const Identity: Mat4 := [
    1.0, 0.0, 0.0, 0.0,
    0.0, 1.0, 0.0, 0.0,
    0.0, 0.0, 1.0, 0.0,
    0.0, 0.0, 0.0, 1.0]

  /** Matrix times column vector. */
  function Apply(m: Mat4, v: Weights): Weights {
    [m[0] * v[0] + m[4] * v[1] + m[8] * v[2] + m[12] * v[3],
     m[1] * v[0] + m[5] * v[1] + m[9] * v[2] + m[13] * v[3],
     m[2] * v[0] + m[6] * v[1] + m[10] * v[2] + m[14] * v[3],
     m[3] * v[0] + m[7] * v[1] + m[11] * v[2] + m[15] * v[3]]
  }

  /** Row r, column c of the product a b. */
  function Entry(a: Mat4, b: Mat4, r: nat, c: nat): real
    requires r < 4 && c < 4
  {
    a[r] * b[4 * c] + a[4 + r] * b[4 * c + 1] + a[8 + r] * b[4 * c + 2] + a[12 + r] * b[4 * c + 3]
  }

  /** Matrix product in the same column-by-column layout. */
  function Compose(a: Mat4, b: Mat4): Mat4 {
    [Entry(a, b, 0, 0), Entry(a, b, 1, 0), Entry(a, b, 2, 0), Entry(a, b, 3, 0),
     Entry(a, b, 0, 1), Entry(a, b, 1, 1), Entry(a, b, 2, 1), Entry(a, b, 3, 1),
     Entry(a, b, 0, 2), Entry(a, b, 1, 2), Entry(a, b, 2, 2), Entry(a, b, 3, 2),
     Entry(a, b, 0, 3), Entry(a, b, 1, 3), Entry(a, b, 2, 3), Entry(a, b, 3, 3)]
  }

  /** The sum of the weights in output row r. */
  function RowWeight(m: Mat4, r: nat): real
    requires r < 4
  {
    m[r] + m[4 + r] + m[8 + r] + m[12 + r]
  }

  /** Adds t to each weight: a translation of the four control points. */
  function Shift(p: Weights, t: real): Weights {
    [p[0] + t, p[1] + t, p[2] + t, p[3] + t]
  }

  /** Applies a matrix coordinate by coordinate to four control points. */
  function ApplyPoints(m: Mat4, ps: seq<Vec3>): (r: seq<Vec3>)
    requires |ps| == 4
    ensures |r| == 4
  {
    var xs := Apply(m, [ps[0].x, ps[1].x, ps[2].x, ps[3].x]);
    var ys := Apply(m, [ps[0].y, ps[1].y, ps[2].y, ps[3].y]);
    var zs := Apply(m, [ps[0].z, ps[1].z, ps[2].z, ps[3].z]);
    seq(4, i requires 0 <= i < 4 => Vec3(xs[i], ys[i], zs[i]))
  }

  /** The two B-spline/Bézier matrices are inverse to each other. */
  lemma BasisChangesInverse()
    ensures Compose(BSplineToBezier, BezierToBSpline) == Identity
    ensures Compose(BezierToBSpline, BSplineToBezier) == Identity
  {
  }

  /** Converting de Boor weights to Bézier weights and back (or the other way
      round) gives the original weights. */
  lemma BasisRoundTrip(p: Weights)
    ensures Apply(BezierToBSpline, Apply(BSplineToBezier, p)) == p
    ensures Apply(BSplineToBezier, Apply(BezierToBSpline, p)) == p
  {
  }

  /** The Bézier points of a uniform cubic B-spline segment. */
  lemma BSplineToBezierFormula(p: Weights)
    ensures Apply(BSplineToBezier, p)
         == [(p[0] + 4.0 * p[1] + p[2]) / 6.0, (2.0 * p[1] + p[2]) / 3.0,
             (p[1] + 2.0 * p[2]) / 3.0, (p[1] + 4.0 * p[2] + p[3]) / 6.0]
  {
  }

  /** Every output of both matrices is an affine combination of the inputs,
      so moving all four inputs by the same amount moves every output by it. */
  lemma BasisChangesAffine(p: Weights, t: real)
    ensures forall r :: 0 <= r < 4 ==> RowWeight(BSplineToBezier, r) == 1.0
    ensures forall r :: 0 <= r < 4 ==> RowWeight(BezierToBSpline, r) == 1.0
    ensures Apply(BSplineToBezier, Shift(p, t)) == Shift(Apply(BSplineToBezier, p), t)
    ensures Apply(BezierToBSpline, Shift(p, t)) == Shift(Apply(BezierToBSpline, p), t)
  {
  }

  /** The Bernstein coefficients of a + b t + c t^2 + d t^3: the curve's value
      at t = 0 and at t = 1 become the first and last control points. */
  lemma PowerToBernsteinFormula(a: real, b: real, c: real, d: real)
    ensures Apply(PowerToBernstein, [a, b, c, d])
         == [a, a + b / 3.0, a + 2.0 * b / 3.0 + c / 3.0, a + b + c + d]
    ensures Apply(PowerToBernstein, [a, b, c, d])[0] == a
    ensures Apply(PowerToBernstein, [a, b, c, d])[3] == a + b + c + d
  {
  }
}
