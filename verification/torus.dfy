/** The torus object: a (div_u+1) x (div_v+1) grid of vertices over the
    angle parameters and two triangles per grid quad. Vertex positions use
    trigonometry and are represented here by their grid cell (vi, ui). */
module Torus {
  import Gui
  import Grid

  /** The torus settings edited in its panel. */
  datatype Settings = Settings(innerRadius: real, outerRadius: real, divU: int, divV: int)

  /** The vertex grid, texture coordinates and index buffer built from the
      division counts. */
  datatype Geometry = Geometry(vertices: seq<Grid.Cell>, uv: seq<nat>, indices: seq<nat>)

  /** Vertex (ui, vi) is stored at row vi of rows of length div_u+1. */
  function VertexIndex(du: nat, vi: nat, ui: nat): nat {
    (du + 1) * vi + ui
  }

  /** The six indices of quad (vi, ui): triangles (v0,v1,v2) and (v1,v3,v2). */
  function QuadTriangles(du: nat, vi: nat, ui: nat): (r: seq<nat>)
    ensures |r| == 6
  {
    var v0 := VertexIndex(du, vi, ui);
    var v1 := v0 + 1;
    var v2 := v0 + (du + 1);
    var v3 := v2 + 1;
    [v0, v1, v2, v1, v3, v2]
  }

  /** The four corners of a quad are vertices of the grid. */
  lemma QuadInRange(du: nat, dv: nat, vi: nat, ui: nat)
    requires vi < dv && ui < du
    ensures VertexIndex(du, vi, ui) + (du + 1) + 1 < (du + 1) * (dv + 1)
  {
    assert (du + 1) * vi + (du + 1) == (du + 1) * (vi + 1);
    Grid.MulLe(vi + 1, dv, du + 1);
    assert (du + 1) * (vi + 1) <= (du + 1) * dv;
  }

  /** The triangles of the given quads, six indices per quad, in order. */
  function Triangles(du: nat, dv: nat, quads: seq<Grid.Cell>): (r: seq<nat>)
    requires forall k :: 0 <= k < |quads| ==> quads[k].row < dv && quads[k].col < du
    ensures |r| == 6 * |quads|
    ensures forall k, c :: 0 <= k < |quads| && 0 <= c < 6 ==> r[6 * k + c] == QuadTriangles(du, quads[k].row, quads[k].col)[c]
    ensures forall j :: 0 <= j < |r| ==> r[j] < (du + 1) * (dv + 1)
  {
    if |quads| == 0 then []
    else
      QuadInRange(du, dv, quads[0].row, quads[0].col);
      var rest := Triangles(du, dv, quads[1..]);
      QuadTriangles(du, quads[0].row, quads[0].col) + rest
  }

  /** The index buffer: six indices per quad, all naming vertices of the
      (div_u+1) x (div_v+1) grid. */
  function Topology(du: nat, dv: nat): (r: seq<nat>)
    ensures |r| == 6 * du * dv
    ensures forall j :: 0 <= j < |r| ==> r[j] < (du + 1) * (dv + 1)
  {
    Grid.RowMajorLength(du, dv);
    Grid.RowMajorCells(du, dv);
    assert 6 * (dv * du) == 6 * du * dv;
    Triangles(du, dv, Grid.RowMajor(du, dv))
  }

  /** Quads are emitted in loop order (vi outer, ui inner): quad (vi, ui)
      occupies the six slots from 6(vi*div_u + ui), holding its triangles
      (v0,v1,v2) and (v1,v3,v2). */
  lemma TopologyQuad(du: nat, dv: nat, vi: nat, ui: nat)
    requires vi < dv && ui < du
    ensures 6 * (vi * du + ui) + 6 <= |Topology(du, dv)|
    ensures Topology(du, dv)[6 * (vi * du + ui)..6 * (vi * du + ui) + 6] == QuadTriangles(du, vi, ui)
  {
    Grid.RowMajorAt(du, dv, vi, ui);
    Grid.RowMajorCells(du, dv);
    var r, k := Topology(du, dv), vi * du + ui;
    assert k + 1 <= dv * du;
    assert forall c :: 0 <= c < 6 ==> r[6 * k + c] == QuadTriangles(du, vi, ui)[c];
  }

  /** Texture coordinates (ui mod 2, vi mod 2) of grid vertices. */
  function Uvs(vertices: seq<Grid.Cell>): (r: seq<nat>)
    ensures |r| == 2 * |vertices|
    ensures forall w :: 0 <= w < |vertices| ==> r[2 * w] == vertices[w].col % 2 && r[2 * w + 1] == vertices[w].row % 2
    ensures forall j :: 0 <= j < |r| ==> r[j] == 0 || r[j] == 1
  {
    if |vertices| == 0 then []
    else [vertices[0].col % 2, vertices[0].row % 2] + Uvs(vertices[1..])
  }

  /** The vertex grid in loop order: vertex (ui, vi), stored as the pair
      (vi, ui), sits at vi*(div_u+1) + ui. */
  lemma VertexGridLayout(du: nat, dv: nat)
    ensures |Grid.RowMajor(du + 1, dv + 1)| == (du + 1) * (dv + 1)
    ensures forall vi, ui :: 0 <= vi <= dv && 0 <= ui <= du ==>
              VertexIndex(du, vi, ui) < (du + 1) * (dv + 1) && Grid.RowMajor(du + 1, dv + 1)[VertexIndex(du, vi, ui)] == Grid.Cell(vi, ui)
  {
    Grid.RowMajorLength(du + 1, dv + 1);
    assert (dv + 1) * (du + 1) == (du + 1) * (dv + 1);
    forall vi, ui | 0 <= vi <= dv && 0 <= ui <= du
      ensures VertexIndex(du, vi, ui) < (du + 1) * (dv + 1) && Grid.RowMajor(du + 1, dv + 1)[VertexIndex(du, vi, ui)] == Grid.Cell(vi, ui)
    {
      Grid.RowMajorAt(du + 1, dv + 1, vi, ui);
      assert VertexIndex(du, vi, ui) == vi * (du + 1) + ui;
    }
  }

  /** Regenerates the geometry from the settings (negative counts, which the
      panel's clamps exclude, count as zero here). */
  function Generate(s: Settings): (g: Geometry)
    ensures s.divU >= 0 && s.divV >= 0 ==>
      |g.indices| == 6 * s.divU * s.divV && |g.vertices| == (s.divU + 1) * (s.divV + 1)
    ensures forall j :: 0 <= j < |g.indices| ==> g.indices[j] < |g.vertices|
  {
    var du: nat := if s.divU < 0 then 0 else s.divU;
    var dv: nat := if s.divV < 0 then 0 else s.divV;
    var vertices := Grid.RowMajor(du + 1, dv + 1);
    VertexGridLayout(du, dv);
    Geometry(vertices, Uvs(vertices), Topology(du, dv))
  }

  /** A new torus: fifteen divisions in both directions. */
  function Create(innerRadius: real, outerRadius: real): (s: Settings)
    ensures s.divU == 15 && s.divV == 15
    ensures s.innerRadius == innerRadius && s.outerRadius == outerRadius
  {
    Settings(innerRadius, outerRadius, 15, 15)
  }

  /** Applies the panel's edits. When any field was edited, the outer radius
      is clamped to [0.2, 30], then the inner radius to [0.1, outer - 0.5],
      then both division counts to [4, 100]; otherwise nothing changes. */
  function Configure(s: Settings, edited: bool, input: Settings): (r: Settings)
    ensures !edited ==> r == s
    ensures edited ==> 0.2 <= r.outerRadius <= 30.0
    ensures edited ==> 4 <= r.divU <= 100 && 4 <= r.divV <= 100
    ensures edited && r.outerRadius >= 0.6 ==> 0.1 <= r.innerRadius <= r.outerRadius - 0.5
    ensures edited && 4 <= input.divU <= 100 && 4 <= input.divV <= 100 ==> r.divU == input.divU && r.divV == input.divV
  {
    if !edited then s
    else
      var outer := Gui.ClampReal(input.outerRadius, 0.2, 30.0);
      var inner := Gui.ClampReal(input.innerRadius, 0.1, outer - 0.5);
      Settings(inner, outer, Gui.Clamp(input.divU, 4, 100), Gui.Clamp(input.divV, 4, 100))
  }

  /** When the outer radius is below 0.6 the inner bound lies below 0.1, and
      the clamp then yields the upper bound, which can be negative. */
  lemma SmallOuterRadiusGivesNegativeInner()
    ensures Configure(Settings(1.0, 2.0, 15, 15), true, Settings(0.15, 0.2, 15, 15)).innerRadius == -0.3
  {
  }
}
