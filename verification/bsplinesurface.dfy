/** The B-spline surface: patches_x x patches_y bicubic patches over a
    (patches_x + 3) x (patches_y + 3) control net, neighbouring patches
    sharing three rows or columns of control points. The index buffer lists
    each patch's 4x4 window of the net; the grid buffer lists the segments of
    the control polygon. The surface template that builds the net can wrap
    it into a cylinder by reusing the first three columns as the last three. */
module BSplineSurface {
  import Grid

  /** Width of the control net. */
  function NetWidth(patchesX: nat): nat {
    patchesX + 3
  }

  /** Height of the control net. */
  function NetHeight(patchesY: nat): nat {
    patchesY + 3
  }

  // ---------------------------------------------------------------------
  // Patch indices.

  /** Point (row, col) of a net w points wide sits at row * w + col. */
  function Index(w: nat, row: nat, col: nat): nat {
    row * w + col
  }

  /** The 16 control-point indices of the patch whose window starts at
      (row, col) of a net w points wide, rows outer and columns inner. */
  function Window(w: nat, c: Grid.Cell): (r: seq<nat>)
    ensures |r| == 16
    ensures forall j :: 0 <= j < 16 ==> r[j] == Index(w, c.row + j / 4, c.col + j % 4)
  {
    var s: seq<int> := seq(16, j requires 0 <= j < 16 => Index(w, c.row + j / 4, c.col + j % 4));
    assert forall j :: 0 <= j < 16 ==> s[j] == Index(w, c.row + j / 4, c.col + j % 4);
    s
  }

  /** Entry 4y + x of a window is point (row + y, col + x). */
  lemma WindowAt(w: nat, c: Grid.Cell, y: nat, x: nat)
    requires y < 4 && x < 4
    ensures Window(w, c)[4 * y + x] == (c.row + y) * w + c.col + x
  {
    assert (4 * y + x) / 4 == y && (4 * y + x) % 4 == x;
  }

  /** The windows of the given patches, 16 indices each, in order. */
  function Windows(w: nat, patches: seq<Grid.Cell>): (r: seq<nat>)
    ensures |r| == 16 * |patches|
    ensures forall k, j :: 0 <= k < |patches| && 0 <= j < 16 ==> r[16 * k + j] == Window(w, patches[k])[j]
  {
    if |patches| == 0 then []
    else Window(w, patches[0]) + Windows(w, patches[1..])
  }

  /** A window of a patch of the grid lies inside the net. */
  lemma WindowInNet(patchesX: nat, patchesY: nat, c: Grid.Cell, j: nat)
    requires c.row < patchesY && c.col < patchesX && j < 16
    ensures Window(NetWidth(patchesX), c)[j] < NetWidth(patchesX) * NetHeight(patchesY)
  {
    var w := NetWidth(patchesX);
    Grid.RowMajorLess(c.row + j / 4, c.col + j % 4, NetHeight(patchesY), 0, w);
  }

  /** The patch index buffer: one window per patch, patches in row-major
      order. */
  function PatchIndices(patchesX: nat, patchesY: nat): (r: seq<nat>)
    ensures |r| == 16 * (patchesY * patchesX)
    ensures forall i :: 0 <= i < |r| ==> r[i] < NetWidth(patchesX) * NetHeight(patchesY)
  {
    WindowsInNet(patchesX, patchesY);
    Windows(NetWidth(patchesX), Grid.RowMajor(patchesX, patchesY))
  }

  /** Patch (px, py) writes the 16 indices (py + y) * width + (px + x), rows
      outer, starting at slot 16 * (py * patches_x + px); there are
      16 * patches_x * patches_y indices, each naming a point of the net. */
  lemma PatchIndicesLayout(patchesX: nat, patchesY: nat, px: nat, py: nat, y: nat, x: nat)
    requires px < patchesX && py < patchesY && y < 4 && x < 4
    ensures |PatchIndices(patchesX, patchesY)| == 16 * (patchesY * patchesX)
    ensures 16 * (py * patchesX + px) + 4 * y + x < |PatchIndices(patchesX, patchesY)|
    ensures PatchIndices(patchesX, patchesY)[16 * (py * patchesX + px) + 4 * y + x] == (py + y) * NetWidth(patchesX) + px + x
  {
    Grid.RowMajorAt(patchesX, patchesY, py, px);
    var cells := Grid.RowMajor(patchesX, patchesY);
    var k := py * patchesX + px;
    assert 16 * k + (4 * y + x) < 16 * (patchesY * patchesX);
    assert PatchIndices(patchesX, patchesY)[16 * k + (4 * y + x)] == Window(NetWidth(patchesX), cells[k])[4 * y + x];
    WindowAt(NetWidth(patchesX), cells[k], y, x);
  }

  /** Every index of every patch's window names a point of the net. */
  lemma WindowsInNet(patchesX: nat, patchesY: nat)
    ensures var r := Windows(NetWidth(patchesX), Grid.RowMajor(patchesX, patchesY));
      && |r| == 16 * (patchesY * patchesX)
      && forall i :: 0 <= i < |r| ==> r[i] < NetWidth(patchesX) * NetHeight(patchesY)
  {
    var cells := Grid.RowMajor(patchesX, patchesY);
    var r := Windows(NetWidth(patchesX), cells);
    Grid.RowMajorLayout(patchesX, patchesY);
    forall i | 0 <= i < |r|
      ensures r[i] < NetWidth(patchesX) * NetHeight(patchesY)
    {
      var k, j := i / 16, i % 16;
      assert i == 16 * k + j;
      WindowInNet(patchesX, patchesY, cells[k], j);
    }
  }

  /** Horizontally adjacent patches share three columns of control points:
      column x + 1 of a patch is column x of its right neighbour. */
  lemma NeighboursShareColumns(w: nat, row: nat, col: nat, y: nat, x: nat)
    requires y < 4 && x < 3
    ensures Window(w, Grid.Cell(row, col))[4 * y + x + 1] == Window(w, Grid.Cell(row, col + 1))[4 * y + x]
  {
    WindowAt(w, Grid.Cell(row, col), y, x + 1);
    WindowAt(w, Grid.Cell(row, col + 1), y, x);
  }

  // ---------------------------------------------------------------------
  // The control polygon.

  /** The horizontal segments of row cy: (i, i + 1) for each point but the
      last of the row. */
  function RowSegments(w: nat, cy: nat): (r: seq<nat>)
    requires w >= 1
    ensures |r| == 2 * (w - 1)
    ensures forall k :: 0 <= k < w - 1 ==> r[2 * k] == cy * w + k && r[2 * k + 1] == cy * w + k + 1
  {
    var s := seq(2 * (w - 1), j requires 0 <= j < 2 * (w - 1) => cy * w + j / 2 + j % 2);
    assert forall k :: 0 <= k < w - 1 ==> (2 * k) / 2 == k && (2 * k) % 2 == 0 && (2 * k + 1) / 2 == k && (2 * k + 1) % 2 == 1;
    s
  }

  /** The vertical segments from row cy to row cy + 1: (i, i + w). */
  function ColumnSegments(w: nat, cy: nat): (r: seq<nat>)
    ensures |r| == 2 * w
    ensures forall k :: 0 <= k < w ==> r[2 * k] == cy * w + k && r[2 * k + 1] == cy * w + k + w
  {
    var s := seq(2 * w, j requires 0 <= j < 2 * w => cy * w + j / 2 + (j % 2) * w);
    assert forall k :: 0 <= k < w ==> (2 * k) / 2 == k && (2 * k) % 2 == 0 && (2 * k + 1) / 2 == k && (2 * k + 1) % 2 == 1;
    s
  }

  /** The grid loop from row cy on: the row's horizontal segments, then,
      unless it is the last row, the vertical segments down to the next row. */
  function GridFrom(w: nat, h: nat, cy: nat): (r: seq<nat>)
    requires w >= 1 && cy < h
    decreases h - cy
  {
    if cy == h - 1 then RowSegments(w, cy)
    else RowSegments(w, cy) + ColumnSegments(w, cy) + GridFrom(w, h, cy + 1)
  }

  /** The control-polygon index buffer of a w x h net: it has exactly the
      size it is allocated with, 2 * ((w - 1) * h + w * (h - 1)), and holds
      only segments between neighbouring net points. */
  function GridIndices(w: nat, h: nat): (r: seq<nat>)
    requires w >= 1 && h >= 1
    ensures |r| == 2 * ((w - 1) * h + w * (h - 1))
    ensures Segments(w, h, r)
  {
    GridFromLength(w, h, 0);
    GridFromValid(w, h, 0);
    GridFrom(w, h, 0)
  }

  /** A segment of the w x h net: from a point to its right neighbour in
      the same row, or to the point below it. */
  predicate Segment(w: nat, h: nat, a: nat, b: nat) {
    && b < w * h
    && exists row: nat, col: nat :: row < h && col < w && a == Index(w, row, col) &&
         ((col + 1 < w && b == a + 1) || (row + 1 < h && b == a + w))
  }

  /** Every consecutive pair of the buffer is a segment of the net. */
  predicate Segments(w: nat, h: nat, s: seq<nat>) {
    |s| % 2 == 0 && forall k :: 0 <= k < |s| / 2 ==> Segment(w, h, s[2 * k], s[2 * k + 1])
  }

  lemma SegmentsConcat(w: nat, h: nat, a: seq<nat>, b: seq<nat>)
    requires Segments(w, h, a) && Segments(w, h, b)
    ensures Segments(w, h, a + b)
  {
    var s := a + b;
    forall k | 0 <= k < |s| / 2
      ensures Segment(w, h, s[2 * k], s[2 * k + 1])
    {
      if k >= |a| / 2 {
        var k' := k - |a| / 2;
        assert s[2 * k] == b[2 * k'] && s[2 * k + 1] == b[2 * k' + 1];
      }
    }
  }

  lemma RowSegmentsValid(w: nat, h: nat, cy: nat)
    requires w >= 1 && cy < h
    ensures Segments(w, h, RowSegments(w, cy))
  {
    var r := RowSegments(w, cy);
    forall k | 0 <= k < |r| / 2
      ensures Segment(w, h, r[2 * k], r[2 * k + 1])
    {
      Grid.RowMajorLess(cy, k + 1, h, 0, w);
      assert r[2 * k] == Index(w, cy, k);
    }
  }

  lemma ColumnSegmentsValid(w: nat, h: nat, cy: nat)
    requires cy + 1 < h
    ensures Segments(w, h, ColumnSegments(w, cy))
  {
    var r := ColumnSegments(w, cy);
    forall k | 0 <= k < |r| / 2
      ensures Segment(w, h, r[2 * k], r[2 * k + 1])
    {
      Grid.RowMajorLess(cy + 1, k, h, 0, w);
      assert cy * w + k + w == (cy + 1) * w + k;
      assert r[2 * k] == Index(w, cy, k);
    }
  }

  lemma Distribute(a: int, n: int)
    ensures a * (n + 1) == a + a * n
  {
  }

  /** The grid loop writes 2 * ((w - 1) * (h - cy) + w * (h - 1 - cy))
      entries from row cy on. */
  lemma {:induction false} GridFromLength(w: nat, h: nat, cy: nat)
    requires w >= 1 && cy < h
    ensures |GridFrom(w, h, cy)| == 2 * ((w - 1) * (h - cy) + w * (h - 1 - cy))
    decreases h - cy
  {
    if cy < h - 1 {
      GridFromLength(w, h, cy + 1);
      assert |GridFrom(w, h, cy)| == 2 * (w - 1) + 2 * w + |GridFrom(w, h, cy + 1)|;
      Distribute(w - 1, h - (cy + 1));
      Distribute(w, h - 1 - (cy + 1));
    }
  }

  /** Each pair the grid loop writes from row cy on is a segment of the
      net. */
  lemma {:induction false} GridFromValid(w: nat, h: nat, cy: nat)
    requires w >= 1 && cy < h
    ensures Segments(w, h, GridFrom(w, h, cy))
    decreases h - cy
  {
    RowSegmentsValid(w, h, cy);
    if cy < h - 1 {
      GridFromValid(w, h, cy + 1);
      ColumnSegmentsValid(w, h, cy);
      SegmentsConcat(w, h, RowSegments(w, cy), ColumnSegments(w, cy));
      SegmentsConcat(w, h, RowSegments(w, cy) + ColumnSegments(w, cy), GridFrom(w, h, cy + 1));
    }
  }

  // ---------------------------------------------------------------------
  // Building the control net.

  /** A slot of the control net: the point created at column x, row y, or
      an empty pointer. */
  datatype Slot = Created(x: nat, y: nat) | Empty

  /** The point slot (x, y) of an n-column net ends up holding. In cylinder
      mode column x >= n - 3 copies the slot of column x - (n - 3), which the
      column-by-column loop has already filled; with n == 3 that is the slot
      itself, still empty. */
  function Owner(n: nat, x: nat, y: nat, cylinder: bool): Slot
    decreases x
  {
    if cylinder && n >= 3 && x >= n - 3 then
      (if n == 3 then Empty else Owner(n, x - (n - 3), y, cylinder))
    else Created(x, y)
  }

  /** The net the template builds: slot y * points_x + x holds the owner of
      (x, y). Point positions are floating-point geometry. */
  function Net(patchesX: nat, patchesY: nat, cylinder: bool): (r: seq<Slot>)
  {
    var n := NetWidth(patchesX);
    var cells := Grid.RowMajor(n, NetHeight(patchesY));
    seq(|cells|, k requires 0 <= k < |cells| => Owner(n, cells[k].col, cells[k].row, cylinder))
  }

  /** Slot y * points_x + x of the net holds the owner of (x, y). */
  lemma NetAt(patchesX: nat, patchesY: nat, cylinder: bool, x: nat, y: nat)
    requires x < NetWidth(patchesX) && y < NetHeight(patchesY)
    ensures |Net(patchesX, patchesY, cylinder)| == NetHeight(patchesY) * NetWidth(patchesX)
    ensures y * NetWidth(patchesX) + x < |Net(patchesX, patchesY, cylinder)|
    ensures Net(patchesX, patchesY, cylinder)[y * NetWidth(patchesX) + x] == Owner(NetWidth(patchesX), x, y, cylinder)
  {
    var n := NetWidth(patchesX);
    var cells := Grid.RowMajor(n, NetHeight(patchesY));
    Grid.RowMajorAt(n, NetHeight(patchesY), y, x);
    var k := y * n + x;
    assert cells[k] == Grid.Cell(y, x);
    assert Net(patchesX, patchesY, cylinder)[k] == Owner(n, cells[k].col, cells[k].row, cylinder);
  }

  /** Slot (x, y) of the built net holds a fresh point, except that in
      cylinder mode the last three columns reuse the points of the first
      three, closing the cylinder; with no patch across there is nothing to
      reuse and the slots stay empty. */
  lemma NetLayout(patchesX: nat, patchesY: nat, cylinder: bool, x: nat, y: nat)
    requires x < NetWidth(patchesX) && y < NetHeight(patchesY)
    ensures |Net(patchesX, patchesY, cylinder)| == NetHeight(patchesY) * NetWidth(patchesX)
    ensures y * NetWidth(patchesX) + x < |Net(patchesX, patchesY, cylinder)|
    ensures !cylinder || x < patchesX ==> Net(patchesX, patchesY, cylinder)[y * NetWidth(patchesX) + x] == Created(x, y)
    ensures cylinder && patchesX >= 3 && x >= patchesX ==>
      Net(patchesX, patchesY, cylinder)[y * NetWidth(patchesX) + x] == Created(x - patchesX, y)
    ensures cylinder && patchesX == 0 ==> Net(patchesX, patchesY, cylinder)[y * NetWidth(patchesX) + x] == Empty
  {
    NetAt(patchesX, patchesY, cylinder, x, y);
    if cylinder && patchesX >= 3 && x >= patchesX {
      assert Owner(NetWidth(patchesX), x - patchesX, y, cylinder) == Created(x - patchesX, y);
    }
  }
}
