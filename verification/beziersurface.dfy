/** The C0 Bézier surface and its builder template. Neighbouring bicubic
    patches share their boundary row or column of control points, so a net
    of patches_x x patches_y patches has 3 * patches + 1 points along each
    direction. The template lays such a net out as a flat grid of fresh
    points, centred on its own position, and fills the grid column by
    column. */
module BezierSurface {
  import opened Common
  import Grid

  /** Points along one direction of a net: each patch owns three, its first
      point being the last of the previous patch, and one closes the net. */
  function PointsAlong(patches: nat): nat {
    3 * patches + 1
  }

  // ---------------------------------------------------------------------
  // The surface object.

  /** A C0 Bézier surface: its patch counts, the ids of its control points in
      the order given, and the flag saying whether the control polygon is
      drawn. The constructor leaves that flag uninitialised, so its first
      value is a parameter here. */
  datatype Patch = Patch(patchesX: nat, patchesY: nat, points: seq<nat>, showPolygon: bool)

  function NewPatch(patchesX: nat, patchesY: nat, points: seq<nat>, initialShow: bool): (p: Patch)
    ensures p.patchesX == patchesX && p.patchesY == patchesY && p.points == points
  {
    Patch(patchesX, patchesY, points, initialShow)
  }

  function IsShowingPolygon(p: Patch): bool {
    p.showPolygon
  }

  /** The setter as the source writes it: it stores true whatever it is
      given. */
  function SetShowingPolygonAsWritten(p: Patch, show: bool): (r: Patch)
    ensures IsShowingPolygon(r)
    ensures r.patchesX == p.patchesX && r.patchesY == p.patchesY && r.points == p.points
  {
    p.(showPolygon := true)
  }

  /** Hiding the polygon has no effect: asked to store false, the as-written
      setter leaves a surface that still shows it. */
  lemma PolygonCannotBeHidden()
    ensures var p := NewPatch(1, 1, [], true);
      && IsShowingPolygon(SetShowingPolygonAsWritten(p, false))
      && !IsShowingPolygon(SetShowingPolygon(p, false))
  {
  }

  /** The setter as intended: it stores its argument and nothing else. */
  function SetShowingPolygon(p: Patch, show: bool): (r: Patch)
    ensures IsShowingPolygon(r) == show
    ensures r.(showPolygon := p.showPolygon) == p
  {
    p.(showPolygon := show)
  }

  /** The getters read back what was constructed and what was last set; the
      patch counts and points never change. */
  lemma AccessorsReadBack(patchesX: nat, patchesY: nat, points: seq<nat>, initialShow: bool, s1: bool, s2: bool)
    ensures var p := SetShowingPolygon(SetShowingPolygon(NewPatch(patchesX, patchesY, points, initialShow), s1), s2);
      && p.patchesX == patchesX && p.patchesY == patchesY && p.points == points
      && IsShowingPolygon(p) == s2
  {
  }

  // ---------------------------------------------------------------------
  // The template's point grid.

  /** Distance between neighbouring grid points. */
  const Spacing: real := 0.75

  /** Where the template puts point (x, y) of a w x h grid centred at
      `center`: spaced evenly in the xz-plane at height 0. */
  function Position(center: Vec3, w: nat, h: nat, x: nat, y: nat): Vec3 {
    Vec3(x as real * Spacing + (center.x - (w as real - 1.0) * Spacing / 2.0),
         0.0,
         y as real * Spacing + (center.z - (h as real - 1.0) * Spacing / 2.0))
  }

  /** The grid is centred on the template: opposite points average to the
      centre's x and z, and neighbours are one spacing apart. */
  lemma GridIsCentred(center: Vec3, w: nat, h: nat, x: nat, y: nat)
    requires x < w && y < h
    ensures var p, q := Position(center, w, h, x, y), Position(center, w, h, w - 1 - x, h - 1 - y);
      p.x + q.x == 2.0 * center.x && p.z + q.z == 2.0 * center.z && p.y == 0.0
    ensures x + 1 < w ==> Position(center, w, h, x + 1, y).x == Position(center, w, h, x, y).x + Spacing
    ensures y + 1 < h ==> Position(center, w, h, x, y + 1).z == Position(center, w, h, x, y).z + Spacing
  {
  }

  /** A grid slot: a fresh point created for column x, row y, at the given
      position, or the empty pointer the resize leaves. */
  datatype Slot = Fresh(x: nat, y: nat, position: Vec3) | Empty

  /** The grid being filled, and how many times each slot has been written. */
  datatype Net = Net(slots: seq<Slot>, writes: seq<nat>)

  /** The slot of point (column c, row r): r * w + c, inside the grid. */
  function Pos(w: nat, h: nat, r: nat, c: nat): (k: nat)
    requires r < h && c < w
    ensures k < h * w
  {
    Grid.RowMajorLess(r, c, h, 0, w);
    r * w + c
  }

  /** Distinct points of the grid have distinct slots. */
  lemma PosInjective(w: nat, h: nat, r: nat, c: nat, r2: nat, c2: nat)
    requires r < h && c < w && r2 < h && c2 < w
    requires r != r2 || c != c2
    ensures Pos(w, h, r, c) != Pos(w, h, r2, c2)
  {
    if r < r2 || (r == r2 && c < c2) {
      Grid.RowMajorLess(r, c, r2, c2, w);
    } else {
      Grid.RowMajorLess(r2, c2, r, c, w);
    }
  }

  /** Every slot belongs to a point of the grid. */
  lemma PosCovers(w: nat, h: nat, k: nat)
    requires k < h * w
    ensures 0 < w && k / w < h && k % w < w && Pos(w, h, k / w, k % w) == k
  {
    if k / w >= h {
      Grid.MulLe(h, k / w, w);
    }
  }

  /** Column c, row r comes before column x, row y in the fill order:
      columns outer, rows inner. */
  predicate Before(x: nat, y: nat, c: nat, r: nat) {
    c < x || (c == x && r < y)
  }

  /** The grid once every point before (x, y) has been created: those slots
      were written once and hold their point, the others were never written
      and are empty. */
  ghost predicate Partial(net: Net, center: Vec3, w: nat, h: nat, x: nat, y: nat) {
    && |net.slots| == h * w && |net.writes| == h * w
    && forall r: nat, c: nat :: r < h && c < w ==>
         && net.slots[Pos(w, h, r, c)] == (if Before(x, y, c, r) then Fresh(c, r, Position(center, w, h, c, r)) else Empty)
         && net.writes[Pos(w, h, r, c)] == (if Before(x, y, c, r) then 1 else 0)
  }

  /** Writes slot k. */
  function Put(net: Net, k: nat, s: Slot): Net
    requires k < |net.slots| && k < |net.writes|
  {
    Net(net.slots[k := s], net.writes[k := net.writes[k] + 1])
  }

  /** One inner iteration creates point (x, y) and touches no other slot. */
  lemma PutStep(net: Net, center: Vec3, w: nat, h: nat, x: nat, y: nat)
    requires x < w && y < h && Partial(net, center, w, h, x, y)
    ensures Partial(Put(net, Pos(w, h, y, x), Fresh(x, y, Position(center, w, h, x, y))), center, w, h, x, y + 1)
  {
    var k := Pos(w, h, y, x);
    var n := Put(net, k, Fresh(x, y, Position(center, w, h, x, y)));
    forall r: nat, c: nat | r < h && c < w
      ensures && n.slots[Pos(w, h, r, c)] == (if Before(x, y + 1, c, r) then Fresh(c, r, Position(center, w, h, c, r)) else Empty)
              && n.writes[Pos(w, h, r, c)] == (if Before(x, y + 1, c, r) then 1 else 0)
    {
      if r != y || c != x {
        PosInjective(w, h, r, c, y, x);
      }
    }
  }

  /** The resized grid: every slot empty and never written. */
  lemma EmptyIsPartial(center: Vec3, w: nat, h: nat)
    ensures Partial(Net(seq(h * w, _ => Empty), seq(h * w, _ => 0)), center, w, h, 0, 0)
  {
  }

  /** A finished column is the start of the next one. */
  lemma ColumnDone(net: Net, center: Vec3, w: nat, h: nat, x: nat)
    requires Partial(net, center, w, h, x, h)
    ensures Partial(net, center, w, h, x + 1, 0)
  {
  }

  /** Once every column is done, every point sits in its own slot and every
      slot has been written exactly once. */
  ghost predicate Filled(net: Net, center: Vec3, w: nat, h: nat) {
    && |net.slots| == h * w && |net.writes| == h * w
    && (forall r: nat, c: nat :: r < h && c < w ==> net.slots[Pos(w, h, r, c)] == Fresh(c, r, Position(center, w, h, c, r)))
    && (forall k :: 0 <= k < |net.writes| ==> net.writes[k] == 1 && net.slots[k].Fresh?)
  }

  lemma AllColumnsDone(net: Net, center: Vec3, w: nat, h: nat)
    requires Partial(net, center, w, h, w, 0)
    ensures Filled(net, center, w, h)
  {
    forall k | 0 <= k < |net.writes|
      ensures net.writes[k] == 1 && net.slots[k].Fresh?
    {
      PosCovers(w, h, k);
    }
  }

  /** The inner loop: creates the points of column x, top to bottom. */
  method FillColumn(net0: Net, center: Vec3, w: nat, h: nat, x: nat) returns (net: Net)
    requires x < w && Partial(net0, center, w, h, x, 0)
    ensures Partial(net, center, w, h, x + 1, 0)
  {
    net := net0;
    var y := 0;
    while y < h
      invariant y <= h && Partial(net, center, w, h, x, y)
    {
      PutStep(net, center, w, h, x, y);
      net := Put(net, Pos(w, h, y, x), Fresh(x, y, Position(center, w, h, x, y)));
      y := y + 1;
    }
    ColumnDone(net, center, w, h, x);
  }

  /** Builds the template's grid of (3 * patches_x + 1) x (3 * patches_y + 1)
      points: point (x, y) goes to slot y * points_x + x, and every slot is
      written exactly once with its own fresh point. */
  method FillGrid(center: Vec3, patchesX: nat, patchesY: nat) returns (net: Net)
    ensures Filled(net, center, PointsAlong(patchesX), PointsAlong(patchesY))
  {
    var w, h := PointsAlong(patchesX), PointsAlong(patchesY);
    net := Net(seq(h * w, _ => Empty), seq(h * w, _ => 0));
    EmptyIsPartial(center, w, h);
    var x := 0;
    while x < w
      invariant x <= w && Partial(net, center, w, h, x, 0)
    {
      net := FillColumn(net, center, w, h, x);
      x := x + 1;
    }
    AllColumnsDone(net, center, w, h);
  }
}
