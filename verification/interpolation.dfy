/** The C2 interpolating cubic spline: a piecewise cubic through every control
    point, converted segment by segment into Bézier form for drawing. The
    tridiagonal solve for the second-derivative coefficients is an input
    here (`curvature`); everything around it is modelled. All chord
    parameters are fixed at 1, as in the editor. */
module Interpolation {
  import opened Common
  import Basis

  /** The two vertex buffers of the curve and whether they were uploaded. */
  datatype Buffers = Buffers(ready: bool, bezier: seq<real>, polygon: seq<real>)

  const Empty := Buffers(false, [], [])

  /** Quadratic coefficient of segment i: zero for the first segment, the
      solver output for the inner ones, and zero past the last one. */
  function Quadratic(curvature: seq<Vec3>, i: nat): Vec3 {
    if 1 <= i <= |curvature| then curvature[i - 1] else Origin
  }

  /** Power-basis coefficients (a, b, c, d) of segment i, with unit chords. */
  function Power(p: seq<Vec3>, curvature: seq<Vec3>, i: nat): (r: seq<Vec3>)
    requires i + 1 < |p|
    ensures |r| == 4
  {
    var a := p[i];
    var c := Quadratic(curvature, i);
    var d := Quadratic(curvature, i + 1).Minus(c).Times(1.0 / 3.0);
    var b := p[i + 1].Minus(a).Minus(c).Minus(d);
    [a, b, c, d]
  }

  /** One coordinate of the four power coefficients mapped to Bernstein form. */
  function ToBernstein(pw: seq<Vec3>, k: nat): Basis.Weights
    requires |pw| == 4 && k < 3
  {
    Basis.Apply(Basis.PowerToBernstein, [pw[0].Coord(k), pw[1].Coord(k), pw[2].Coord(k), pw[3].Coord(k)])
  }

  /** The four Bézier control points of segment i. Whatever the solver
      returns, the segment starts at point i and ends at point i+1. */
  function Bernstein(p: seq<Vec3>, curvature: seq<Vec3>, i: nat): (b: seq<Vec3>)
    requires i + 1 < |p|
    ensures |b| == 4
    ensures b[0] == p[i] && b[3] == p[i + 1]
  {
    var pw := Power(p, curvature, i);
    var xs, ys, zs := ToBernstein(pw, 0), ToBernstein(pw, 1), ToBernstein(pw, 2);
    Basis.PowerToBernsteinFormula(pw[0].x, pw[1].x, pw[2].x, pw[3].x);
    Basis.PowerToBernsteinFormula(pw[0].y, pw[1].y, pw[2].y, pw[3].y);
    Basis.PowerToBernsteinFormula(pw[0].z, pw[1].z, pw[2].z, pw[3].z);
    [Vec3(xs[0], ys[0], zs[0]), Vec3(xs[1], ys[1], zs[1]), Vec3(xs[2], ys[2], zs[2]), Vec3(xs[3], ys[3], zs[3])]
  }

  /** Which control point each of the six polygon vertices of a segment
      repeats: the line pairs (b0,b1), (b1,b2), (b2,b3). */
  function PolygonCorner(j: nat): (m: nat)
    requires j < 6
    ensures m == (j + 1) / 2
  {
    [0, 1, 1, 2, 2, 3][j]
  }

  /** The positions of the points when every reference is live. */
  function Positions(points: seq<PointRef>): (r: seq<Vec3>)
    ensures |r| == |points|
    ensures forall i :: 0 <= i < |points| ==> r[i] == points[i].position
  {
    seq(|points|, i requires 0 <= i < |points| => points[i].position)
  }

  /** Coordinate k of control point m of segment i in the Bézier buffer. */
  function BezierAt(r: Buffers, i: nat, m: nat, k: nat): real
    requires 12 * i + 3 * m + k < |r.bezier|
  {
    r.bezier[12 * i + 3 * m + k]
  }

  /** Coordinate k of vertex j of segment i in the polygon buffer. */
  function PolygonAt(r: Buffers, i: nat, j: nat, k: nat): real
    requires 18 * i + 3 * j + k < |r.polygon|
  {
    r.polygon[18 * i + 3 * j + k]
  }

  /** Every segment's four Bézier points as x, y, z triples. */
  function BezierBuffer(p: seq<Vec3>, curvature: seq<Vec3>): (r: seq<real>)
    requires |p| >= 1
    ensures |r| == 12 * (|p| - 1)
    ensures forall i, m, k :: 0 <= i < |p| - 1 && 0 <= m < 4 && 0 <= k < 3 ==>
      r[12 * i + 3 * m + k] == Bernstein(p, curvature, i)[m].Coord(k)
  {
    var n := |p| - 1;
    var bez := seq(4 * n, j requires 0 <= j < 4 * n => Bernstein(p, curvature, j / 4)[j % 4]);
    var r := Flatten(bez);
    forall i, m, k | 0 <= i < n && 0 <= m < 4 && 0 <= k < 3
      ensures r[12 * i + 3 * m + k] == Bernstein(p, curvature, i)[m].Coord(k)
    {
      var b := 4 * i + m;
      assert 12 * i + 3 * m + k == 3 * b + k && b / 4 == i && b % 4 == m;
      assert bez[b] == Bernstein(p, curvature, i)[m];
      assert r[3 * b + k] == bez[b].Coord(k);
    }
    r
  }

  /** Every segment's control polygon as three line pairs of x, y, z triples. */
  function PolygonBuffer(p: seq<Vec3>, curvature: seq<Vec3>): (r: seq<real>)
    requires |p| >= 1
    ensures |r| == 18 * (|p| - 1)
    ensures forall i, j, k :: 0 <= i < |p| - 1 && 0 <= j < 6 && 0 <= k < 3 ==>
      r[18 * i + 3 * j + k] == Bernstein(p, curvature, i)[PolygonCorner(j)].Coord(k)
  {
    var n := |p| - 1;
    var poly := seq(6 * n, j requires 0 <= j < 6 * n => Bernstein(p, curvature, j / 6)[PolygonCorner(j % 6)]);
    var r := Flatten(poly);
    forall i, j, k | 0 <= i < n && 0 <= j < 6 && 0 <= k < 3
      ensures r[18 * i + 3 * j + k] == Bernstein(p, curvature, i)[PolygonCorner(j)].Coord(k)
    {
      var a := 6 * i + j;
      assert 18 * i + 3 * j + k == 3 * a + k && a / 6 == i && a % 6 == j;
      assert poly[a] == Bernstein(p, curvature, i)[PolygonCorner(j)];
      assert r[3 * a + k] == poly[a].Coord(k);
    }
    r
  }

  /** Rebuilds both buffers from the control points. With N >= 4 points all
      live there are N-1 segments: the Bézier buffer holds each segment's four
      points as x, y, z triples, and the polygon buffer holds its three
      control-polygon edges. Fewer than four points, or any expired point,
      leaves both buffers empty and the curve not ready. */
  function Rebuild(points: seq<PointRef>, curvature: seq<Vec3>): (r: Buffers)
    requires |points| >= 4 ==> |curvature| == |points| - 2
    ensures |points| < 4 ==> r == Empty
    ensures (exists i :: 0 <= i < |points| && !points[i].live) ==> r == Empty
    ensures |points| >= 4 && (forall i :: 0 <= i < |points| ==> points[i].live) ==>
      r.ready && |r.bezier| == 12 * (|points| - 1) && |r.polygon| == 18 * (|points| - 1)
    ensures r.ready ==> forall i, k :: 0 <= i < |points| - 1 && 0 <= k < 3 ==>
      BezierAt(r, i, 0, k) == points[i].position.Coord(k) &&
      BezierAt(r, i, 3, k) == points[i + 1].position.Coord(k)
    ensures r.ready ==> forall i, j, k :: 0 <= i < |points| - 1 && 0 <= j < 6 && 0 <= k < 3 ==>
      PolygonAt(r, i, j, k) == BezierAt(r, i, PolygonCorner(j), k)
  {
    if |points| < 4 || exists i :: 0 <= i < |points| && !points[i].live then Empty
    else
      var p := Positions(points);
      var r := Buffers(true, BezierBuffer(p, curvature), PolygonBuffer(p, curvature));
      BuffersLayout(points, curvature, r);
      r
  }

  /** The buffers of live points: each segment starts at its point and ends
      at the next, and the polygon repeats the segment's Bézier points. */
  lemma BuffersLayout(points: seq<PointRef>, curvature: seq<Vec3>, r: Buffers)
    requires |points| >= 1
    requires r == Buffers(true, BezierBuffer(Positions(points), curvature), PolygonBuffer(Positions(points), curvature))
    ensures forall i, k :: 0 <= i < |points| - 1 && 0 <= k < 3 ==>
      BezierAt(r, i, 0, k) == points[i].position.Coord(k) &&
      BezierAt(r, i, 3, k) == points[i + 1].position.Coord(k)
    ensures forall i, j, k :: 0 <= i < |points| - 1 && 0 <= j < 6 && 0 <= k < 3 ==>
      PolygonAt(r, i, j, k) == BezierAt(r, i, PolygonCorner(j), k)
  {
    var p := Positions(points);
    forall i, k | 0 <= i < |points| - 1 && 0 <= k < 3
      ensures BezierAt(r, i, 0, k) == points[i].position.Coord(k)
      ensures BezierAt(r, i, 3, k) == points[i + 1].position.Coord(k)
    {
      assert BezierAt(r, i, 0, k) == Bernstein(p, curvature, i)[0].Coord(k);
      assert BezierAt(r, i, 3, k) == Bernstein(p, curvature, i)[3].Coord(k);
    }
    forall i, j, k | 0 <= i < |points| - 1 && 0 <= j < 6 && 0 <= k < 3
      ensures PolygonAt(r, i, j, k) == BezierAt(r, i, PolygonCorner(j), k)
    {
      assert PolygonAt(r, i, j, k) == Bernstein(p, curvature, i)[PolygonCorner(j)].Coord(k);
    }
  }

  /** Consecutive segments meet: the end of segment i is the start of segment i+1. */
  lemma SegmentsJoin(points: seq<PointRef>, curvature: seq<Vec3>, i: nat, k: nat)
    requires |points| >= 4 && |curvature| == |points| - 2
    requires forall m :: 0 <= m < |points| ==> points[m].live
    requires i + 2 < |points| && k < 3
    ensures BezierAt(Rebuild(points, curvature), i, 3, k) == BezierAt(Rebuild(points, curvature), i + 1, 0, k)
  {
  }
}
