/** The plain polyline curve object: a list of positions drawn as line
    segments between consecutive points, with a user-adjustable count of
    indices to draw. */
module Polyline {
  import opened Common
  import Gui

  /** The polyline's state: its points, the vertex and index buffers built
      from them, whether buffers exist, how many indices are drawn, and the
      line width. */
  datatype Curve = Curve(points: seq<Vec3>, positions: seq<real>, indices: seq<nat>,
                         ready: bool, idxEnd: int, lineWidth: real)

  /** A fresh curve with no points (the first constructor). */
  const Fresh := Curve([], [], [], false, 0, 2.0)

  /** The buffers describe exactly the current points: positions are the
      points' coordinates in order, indices join point i to point i+1, and
      every index is drawn. */
  predicate Built(c: Curve) {
    && c.ready
    && |c.positions| == 3 * |c.points|
    && (forall i, k :: 0 <= i < |c.points| && 0 <= k < 3 ==> c.positions[3 * i + k] == c.points[i].Coord(k))
    && |c.points| >= 1 && |c.indices| == 2 * (|c.points| - 1)
    && (forall i :: 0 <= i < |c.points| - 1 ==> c.indices[2 * i] == i && c.indices[2 * i + 1] == i + 1)
    && c.idxEnd == |c.indices|
  }

  /** Rebuilds the buffers. With no points the curve only becomes not ready;
      its old buffers and index end are left as they were. */
  method RebuildBuffers(c: Curve) returns (r: Curve)
    ensures r.points == c.points && r.lineWidth == c.lineWidth
    ensures |c.points| == 0 ==> r == c.(ready := false)
    ensures |c.points| > 0 ==> Built(r)
  {
    if |c.points| == 0 {
      return c.(ready := false);
    }
    var n := |c.points|;
    var positions: seq<real> := [];
    var i := 0;
    while i < n
      invariant i <= n
      invariant |positions| == 3 * i
      invariant forall j, k :: 0 <= j < i && 0 <= k < 3 ==> positions[3 * j + k] == c.points[j].Coord(k)
    {
      positions := positions + [c.points[i].x, c.points[i].y, c.points[i].z];
      i := i + 1;
    }
    var indices: seq<nat> := [];
    i := 0;
    while i < n - 1
      invariant i <= n - 1
      invariant |indices| == 2 * i
      invariant forall j :: 0 <= j < i ==> indices[2 * j] == j && indices[2 * j + 1] == j + 1
    {
      indices := indices + [i, i + 1];
      i := i + 1;
    }
    r := c.(positions := positions, indices := indices, idxEnd := |indices|, ready := true);
  }

  /** Consecutive line pairs share a point, so the pairs trace one connected
      path through all points, and no index refers past the last point. */
  lemma BuiltIsPath(c: Curve)
    requires Built(c)
    ensures forall i :: 0 <= i < |c.points| - 2 ==> c.indices[2 * i + 1] == c.indices[2 * i + 2]
    ensures forall j :: 0 <= j < |c.indices| ==> c.indices[j] < |c.points|
  {
    forall j | 0 <= j < |c.indices|
      ensures c.indices[j] < |c.points|
    {
      var i := j / 2;
      assert j == 2 * i || j == 2 * i + 1;
    }
    forall i | 0 <= i < |c.points| - 2
      ensures c.indices[2 * i + 1] == c.indices[2 * i + 2]
    {
      assert c.indices[2 * (i + 1)] == i + 1;
    }
  }

  method AppendPosition(c: Curve, p: Vec3) returns (r: Curve)
    ensures r.points == c.points + [p] && Built(r)
  {
    r := RebuildBuffers(c.(points := c.points + [p]));
  }

  method PrependPosition(c: Curve, p: Vec3) returns (r: Curve)
    ensures r.points == [p] + c.points && Built(r)
  {
    r := RebuildBuffers(c.(points := [p] + c.points));
  }

  method AppendPositions(c: Curve, ps: seq<Vec3>) returns (r: Curve)
    ensures r.points == c.points + ps
    ensures |r.points| > 0 ==> Built(r)
    ensures |r.points| == 0 ==> !r.ready
  {
    r := RebuildBuffers(c.(points := c.points + ps));
  }

  method PrependPositions(c: Curve, ps: seq<Vec3>) returns (r: Curve)
    ensures r.points == ps + c.points
    ensures |r.points| > 0 ==> Built(r)
    ensures |r.points| == 0 ==> !r.ready
  {
    r := RebuildBuffers(c.(points := ps + c.points));
  }

  /** Drops the first point; an empty curve is left exactly as it was. */
  method EraseHead(c: Curve) returns (r: Curve)
    ensures |c.points| == 0 ==> r == c
    ensures |c.points| > 0 ==> r.points == c.points[1..] && [c.points[0]] + r.points == c.points
    ensures |r.points| > 0 ==> Built(r)
    ensures |c.points| == 1 ==> |r.points| == 0 && !r.ready
  {
    if |c.points| == 0 {
      return c;
    }
    r := RebuildBuffers(c.(points := c.points[1..]));
  }

  /** Drops the last point; an empty curve is left exactly as it was. */
  method EraseTail(c: Curve) returns (r: Curve)
    ensures |c.points| == 0 ==> r == c
    ensures |c.points| > 0 ==> r.points == c.points[..|c.points| - 1] && r.points + [c.points[|c.points| - 1]] == c.points
    ensures |r.points| > 0 ==> Built(r)
    ensures |c.points| == 1 ==> |r.points| == 0 && !r.ready
  {
    if |c.points| == 0 {
      return c;
    }
    r := RebuildBuffers(c.(points := c.points[..|c.points| - 1]));
  }

  /** The index-end edit as written: the signed 32-bit value is compared with
      the unsigned 64-bit index count, so a negative entry is first converted to a huge
      unsigned number and takes the "too large" branch. */
  function ClampIndexEndAsWritten(idx: int, count: nat): (r: int)
    requires -0x8000_0000 <= idx < 0x8000_0000 && count < 0x8000_0000_0000_0000
    ensures 0 <= r <= count
    ensures idx < 0 ==> r == count
  {
    var unsigned := if idx < 0 then idx + SizeModulus else idx;
    if unsigned > count then count else if idx <= 0 then 0 else idx
  }

  /** The index-end edit as intended, where the code as written sends a
      negative entry to the full count: clamp into [0, count]. */
  function ClampIndexEnd(idx: int, count: nat): (r: int)
    ensures 0 <= r <= count
    ensures 0 <= idx <= count ==> r == idx
    ensures idx < 0 ==> r == 0
    ensures idx > count ==> r == count
  {
    Gui.Clamp(idx, 0, count)
  }

  /** Entering -1 with four indices: the code draws all four indices, the
      evident intent is to draw none. */
  lemma NegativeIndexEndDrawsEverything()
    ensures ClampIndexEndAsWritten(-1, 4) == 4
    ensures ClampIndexEnd(-1, 4) == 0
  {
  }

  /** The settings panel as intended: an edit of the index end (None when
      the field was not edited) is clamped into [0, count], a negative entry
      giving 0; the line width is always clamped to
      [1, 25]. Nothing else changes. */
  function Configure(c: Curve, edit: Option<int>, lineWidth: real): (r: Curve)
    ensures 1.0 <= r.lineWidth <= 25.0
    ensures edit.None? ==> r.idxEnd == c.idxEnd
    ensures edit.Some? ==> 0 <= r.idxEnd <= |c.indices|
    ensures edit.Some? && 0 <= edit.value <= |c.indices| ==> r.idxEnd == edit.value
    ensures edit.Some? && edit.value < 0 ==> r.idxEnd == 0
    ensures edit.Some? && edit.value > |c.indices| ==> r.idxEnd == |c.indices|
    ensures r.(idxEnd := c.idxEnd, lineWidth := c.lineWidth) == c
  {
    var idxEnd := if edit.Some? then ClampIndexEnd(edit.value, |c.indices|) else c.idxEnd;
    c.(idxEnd := idxEnd, lineWidth := Gui.ClampReal(lineWidth, 1.0, 25.0))
  }
}
