/** The bicubic surface base: a grid of 4x4-point patches over a shared list
    of control points, with an index buffer that lists each patch's 16 points
    in turn. The model keeps the point list, the index buffer, the drawing
    settings and the rebuild bookkeeping; GPU buffers are a flag. */
module Surface {
  import opened Common
  import Gui

  /** The number of control points of one patch. */
  const PatchPoints: nat := 16

  /** A control point held by the surface: its id, its position and its
      deletable flag. */
  datatype Handle = Handle(id: nat, position: Vec3, deletable: bool)

  /** A surface. A point slot may be empty (a null pointer). */
  datatype Surface = Surface(
    patchesX: nat, patchesY: nat, points: seq<Option<Handle>>, indices: seq<nat>,
    resU: int, resV: int, showPolygon: bool, solid: bool, wireframe: bool,
    queued: bool, ready: bool, buffers: bool, positions: seq<real>)

  /** The points as the surface stores them: in order, each marked not
      deletable. */
  function Adopt(points: seq<Handle>): (r: seq<Option<Handle>>)
    ensures |r| == |points|
    ensures forall i :: 0 <= i < |points| ==> r[i] == Some(points[i].(deletable := false))
  {
    seq(|points|, i requires 0 <= i < |points| => Some(points[i].(deletable := false)))
  }

  /** A surface over the given points; its index buffer is built on the
      first update. */
  function Create(patchesX: nat, patchesY: nat, points: seq<Handle>): (s: Surface)
    ensures s.patchesX == patchesX && s.patchesY == patchesY && s.points == Adopt(points) && s.indices == []
    ensures s.resU == 25 && s.resV == 25 && !s.showPolygon && s.solid && s.wireframe
    ensures s.queued && !s.ready && !s.buffers
  {
    Surface(patchesX, patchesY, Adopt(points), [], 25, 25, false, true, true, true, false, false, [])
  }

  /** A surface over the given points with a ready-made topology, as a
      loaded scene supplies it; it shows its control polygon. */
  function CreateWithTopology(patchesX: nat, patchesY: nat, points: seq<Handle>, topology: seq<nat>): (s: Surface)
    ensures s.patchesX == patchesX && s.patchesY == patchesY && s.points == Adopt(points) && s.indices == topology
    ensures s.resU == 25 && s.resV == 25 && s.showPolygon && s.solid && s.wireframe
    ensures s.queued && !s.ready && !s.buffers
  {
    Surface(patchesX, patchesY, Adopt(points), topology, 25, 25, true, true, true, true, false, false, [])
  }

  /** The patch count, computed in 32-bit unsigned arithmetic. */
  function NumPatches(s: Surface): (r: nat)
    ensures r < WordModulus
    ensures s.patchesX * s.patchesY < WordModulus ==> r == s.patchesX * s.patchesY
  {
    (s.patchesX * s.patchesY) % WordModulus
  }

  /** The point count, cast to 32 bits. */
  function NumPoints(s: Surface): (r: nat)
    ensures r < WordModulus
    ensures |s.points| < WordModulus ==> r == |s.points|
  {
    |s.points| % WordModulus
  }

  // ---------------------------------------------------------------------
  // Serialisation and patch lookup.

  /** Every slot holds a point and every index names one. */
  predicate Complete(s: Surface) {
    && (forall i :: 0 <= i < |s.points| ==> s.points[i].Some?)
    && (forall k :: 0 <= k < |s.indices| ==> s.indices[k] < |s.points|)
  }

  /** The ids of the points, in order. */
  function SerializePoints(s: Surface): (r: seq<nat>)
    requires forall i :: 0 <= i < |s.points| ==> s.points[i].Some?
    ensures |r| == |s.points|
    ensures forall i :: 0 <= i < |s.points| ==> r[i] == s.points[i].value.id
  {
    seq(|s.points|, i requires 0 <= i < |s.points| && s.points[i].Some? => s.points[i].value.id)
  }

  /** The id of the point index slot k names. */
  function IdAt(s: Surface, k: nat): nat
    requires Complete(s) && k < |s.indices|
  {
    s.points[s.indices[k]].value.id
  }

  /** Consecutive 16-entry blocks of the index buffer, as point ids. The
      loop reads whole blocks, so the buffer must hold whole blocks. */
  function SerializePatches(s: Surface): (r: seq<seq<nat>>)
    requires Complete(s) && |s.indices| % PatchPoints == 0
    ensures |r| * PatchPoints == |s.indices|
    ensures forall b, j :: 0 <= b < |r| && 0 <= j < PatchPoints ==> |r[b]| == PatchPoints && r[b][j] == IdAt(s, PatchPoints * b + j)
  {
    var n := |s.indices| / PatchPoints;
    seq(n, b requires 0 <= b < n => Block(s, b))
  }

  function Block(s: Surface, b: nat): (r: seq<nat>)
    requires Complete(s) && PatchPoints * b + PatchPoints <= |s.indices|
  {
    var base := PatchPoints * b;
    var ids: seq<int> := seq(16, j requires 0 <= j < 16 => IdAt(s, base + j));
    assert forall j :: 0 <= j < 16 ==> ids[j] == IdAt(s, base + j);
    ids
  }

  /** Where patch (x, y) starts in the index buffer. */
  function PatchBase(s: Surface, x: nat, y: nat): nat {
    PatchPoints * (y * s.patchesX + x)
  }

  /** Patch (x, y) as a 4x4 grid: entry i of its index block lands at column
      i % 4, row i / 4. */
  function GetPatch(s: Surface, x: nat, y: nat): (p: seq<seq<Handle>>)
    requires Complete(s) && PatchBase(s, x, y) + PatchPoints <= |s.indices|
    ensures |p| == 4 && forall a :: 0 <= a < 4 ==> |p[a]| == 4
    ensures forall i :: 0 <= i < PatchPoints ==> p[i % 4][i / 4] == s.points[s.indices[PatchBase(s, x, y) + i]].value
  {
    var base := PatchBase(s, x, y);
    var p := seq(4, a requires 0 <= a < 4 => seq(4, b requires 0 <= b < 4 => s.points[s.indices[base + 4 * b + a]].value));
    assert forall i :: 0 <= i < PatchPoints ==> 4 * (i / 4) + i % 4 == i;
    p
  }

  /** Looking a patch up and serialising the patches agree: block
      y * patchesX + x of the serialised patches lists the ids of patch (x, y)
      in index order. */
  lemma PatchMatchesSerialization(s: Surface, x: nat, y: nat, i: nat)
    requires Complete(s) && |s.indices| % PatchPoints == 0
    requires PatchBase(s, x, y) + PatchPoints <= |s.indices| && i < PatchPoints
    ensures y * s.patchesX + x < |SerializePatches(s)|
    ensures SerializePatches(s)[y * s.patchesX + x][i] == GetPatch(s, x, y)[i % 4][i / 4].id
  {
    var r := SerializePatches(s);
    var b := y * s.patchesX + x;
    assert PatchPoints * b + PatchPoints <= |r| * PatchPoints;
    assert b < |r|;
  }

  // ---------------------------------------------------------------------
  // Editing.

  /** Replaces every point with the merged point's id by `merge`, and queues
      an update. */
  function OnPointMerge(s: Surface, pointId: nat, merge: Handle): (r: Surface)
    ensures |r.points| == |s.points| && r.queued
    ensures forall i :: 0 <= i < |s.points| ==>
      r.points[i] == if s.points[i].Some? && s.points[i].value.id == pointId then Some(merge) else s.points[i]
    ensures r.indices == s.indices && r.patchesX == s.patchesX && r.patchesY == s.patchesY
  {
    var pts := seq(|s.points|, i requires 0 <= i < |s.points| =>
      if s.points[i].Some? && s.points[i].value.id == pointId then Some(merge) else s.points[i]);
    s.(points := pts, queued := true)
  }

  /** After a merge into a different point no slot holds the merged-away
      point, so repeating the merge changes no slot. */
  lemma MergeReplacesAll(s: Surface, pointId: nat, merge: Handle)
    requires merge.id != pointId
    ensures var r := OnPointMerge(s, pointId, merge);
      && (forall i :: 0 <= i < |r.points| && r.points[i].Some? ==> r.points[i].value.id != pointId)
      && OnPointMerge(r, pointId, merge).points == r.points
  {
  }

  /** Deleting a point of a surface is refused. */
  function OnPointDestroy(s: Surface, pointId: nat): (r: Result<Surface, string>)
    ensures r.Failure?
  {
    Failure("cannot destroy point that belongs to a surface")
  }

  /** The settings panel: resolutions are clamped to [4, 64] after editing. */
  function Configure(s: Surface, resU: int, resV: int): (r: Surface)
    ensures 4 <= r.resU <= 64 && 4 <= r.resV <= 64
    ensures 4 <= resU <= 64 ==> r.resU == resU
    ensures 4 <= resV <= 64 ==> r.resV == resV
    ensures r.points == s.points && r.indices == s.indices
  {
    s.(resU := Gui.Clamp(resU, 4, 64), resV := Gui.Clamp(resV, 4, 64))
  }

  /** A moved point queues an update. */
  function OnMoved(s: Surface): (r: Surface)
    ensures r.queued && r.points == s.points
  {
    s.(queued := true)
  }

  // ---------------------------------------------------------------------
  // The position buffer.

  /** The first empty slot, or the length if there is none. */
  function FirstGap(points: seq<Option<Handle>>): (g: nat)
    ensures g <= |points|
    ensures forall i :: 0 <= i < g ==> points[i].Some?
    ensures g < |points| ==> points[g].None?
  {
    if |points| == 0 || points[0].None? then 0
    else
      var rest := FirstGap(points[1..]);
      assert forall i :: 1 <= i < |points| ==> points[i] == points[1..][i - 1];
      1 + rest
  }

  /** Copies each point's position into slots 3i..3i+2 of the buffer. The
      copy stops, reporting failure, at the first empty slot; the slots of
      that point and all later ones keep their previous contents. */
  method CalcPosBuffer(points: seq<Option<Handle>>, positions: seq<real>) returns (r: seq<real>, ok: bool)
    requires |positions| == 3 * |points|
    ensures |r| == |positions|
    ensures ok <==> FirstGap(points) == |points|
    ensures forall i, k :: 0 <= i < FirstGap(points) && 0 <= k < 3 ==> r[3 * i + k] == points[i].value.position.Coord(k)
    ensures forall j :: 3 * FirstGap(points) <= j < |r| ==> r[j] == positions[j]
  {
    r := positions;
    var index := 0;
    while index < |points|
      invariant index <= FirstGap(points) && |r| == |positions|
      invariant forall i, k :: 0 <= i < index && 0 <= k < 3 ==> r[3 * i + k] == points[i].value.position.Coord(k)
      invariant forall j :: 3 * index <= j < |r| ==> r[j] == positions[j]
    {
      if points[index].None? {
        return r, false;
      }
      var pos := points[index].value.position;
      r := r[3 * index := pos.x][3 * index + 1 := pos.y][3 * index + 2 := pos.z];
      index := index + 1;
    }
    ok := true;
  }

  /** A frame: a queued update refreshes the position buffer. Without
      buffers the surface builds them from scratch (taking `built` as the
      index buffer when it has none yet) and is ready exactly when every
      point slot was filled. With buffers it only refreshes the positions:
      an empty slot makes it not ready, and a successful refresh leaves the
      ready flag as it was. */
  method Integrate(s: Surface, built: seq<nat>) returns (r: Surface)
    requires s.buffers ==> |s.positions| == 3 * |s.points|
    ensures !s.queued ==> r == s
    ensures s.queued ==> !r.queued && r.points == s.points && |r.positions| == 3 * |s.points|
    ensures s.queued && !s.buffers ==> (r.ready <==> FirstGap(s.points) == |s.points|) && r.buffers == r.ready
    ensures s.queued && !s.buffers ==> r.indices == (if s.indices == [] && r.ready then built else s.indices)
    ensures s.queued && s.buffers ==> (r.ready <==> s.ready && FirstGap(s.points) == |s.points|)
    ensures s.queued && s.buffers ==> r.indices == s.indices && r.buffers
  {
    if !s.queued {
      return s;
    }
    var ok;
    if !s.buffers {
      var cleared := seq(3 * |s.points|, j => 0.0);
      var positions;
      positions, ok := CalcPosBuffer(s.points, cleared);
      if !ok {
        r := s.(positions := positions, ready := false, buffers := false, queued := false);
      } else {
        var indices := if s.indices == [] then built else s.indices;
        r := s.(positions := positions, indices := indices, ready := true, buffers := true, queued := false);
      }
    } else {
      var positions;
      positions, ok := CalcPosBuffer(s.points, s.positions);
      r := s.(positions := positions, ready := ok && s.ready, queued := false);
    }
  }
}
