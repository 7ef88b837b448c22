/** The trimming domain of a surface: a width-by-height grid of bytes, one per
    parameter cell, all visible at first; trimming curves are rasterised into
    it with Bresenham's line algorithm. */
module Trimming {
  import opened Common
  import Grid

  newtype byte = x: int | 0 <= x < 256

  const Visible: byte := 255
  const CurveColor: byte := 128
  const Hidden: byte := 0

  /** The byte grid, row after row: cell (x, y) is stored at y * width + x. */
  datatype Domain = Domain(width: nat, height: nat, cells: seq<byte>)

  /** A cell position, in the signed 32-bit coordinates the rasteriser uses. */
  datatype Pixel = Pixel(x: int, y: int)

  /** The grid holds exactly width * height cells, and its sides fit the
      signed 32-bit coordinates and its size the unsigned 32-bit product. */
  predicate Valid(d: Domain) {
    && d.width < 0x8000_0000 && d.height < 0x8000_0000
    && d.width * d.height < WordModulus
    && |d.cells| == d.width * d.height
  }

  predicate Inside(d: Domain, p: Pixel) {
    0 <= p.x < d.width && 0 <= p.y < d.height
  }

  /** Position of cell p in the grid. */
  function Index(d: Domain, p: Pixel): int {
    p.y * d.width + p.x
  }

  lemma IndexInRange(d: Domain, p: Pixel)
    requires Valid(d) && Inside(d, p)
    ensures 0 <= Index(d, p) < |d.cells|
  {
    Grid.RowMajorLess(p.y, p.x, d.height, 0, d.width);
    assert d.height * d.width == d.width * d.height;
  }

  /** Cell p exists and holds color. */
  predicate Marked(d: Domain, p: Pixel, color: byte) {
    0 <= Index(d, p) < |d.cells| && d.cells[Index(d, p)] == color
  }

  /** `std::fill` over a freshly resized vector: n copies of v. */
  method Fill(n: nat, v: byte) returns (cells: seq<byte>)
    ensures |cells| == n
    ensures forall k :: 0 <= k < n ==> cells[k] == v
  {
    cells := [];
    while |cells| < n
      invariant |cells| <= n
      invariant forall k :: 0 <= k < |cells| ==> cells[k] == v
    {
      cells := cells + [v];
    }
  }

  /** The constructor with the texture initialisation: the grid is resized to
      the 32-bit product width * height and every cell set visible. */
  method Create(width: nat, height: nat) returns (d: Domain)
    requires width < WordModulus && height < WordModulus
    ensures d.width == width && d.height == height
    ensures |d.cells| == (width * height) % WordModulus
    ensures forall k :: 0 <= k < |d.cells| ==> d.cells[k] == Visible
    ensures width < 0x8000_0000 && height < 0x8000_0000 && width * height < WordModulus ==> Valid(d)
  {
    var size := width * height;
    var cells := Fill(size % WordModulus, Visible);
    d := Domain(width, height, cells);
    if size < WordModulus {
      assert size % WordModulus == size;
    }
  }

  function Abs(z: int): nat {
    if z < 0 then -z else z
  }

  function Max(a: int, b: int): int {
    if a < b then b else a
  }

  /** b is a, or one step from a toward target. */
  predicate Approaches(a: int, b: int, target: int) {
    b == a || (a < target && b == a + 1) || (target < a && b == a - 1)
  }

  /** One step of the rasteriser from p to q: a different 8-neighbour, moving
      toward end along each axis and never past it. */
  predicate Step(p: Pixel, q: Pixel, end: Pixel) {
    p != q && Approaches(p.x, q.x, end.x) && Approaches(p.y, q.y, end.y)
  }

  /** Some cell of the path lies at grid position k. */
  predicate Hit(d: Domain, path: seq<Pixel>, k: int) {
    |path| > 0 && (Index(d, path[|path| - 1]) == k || Hit(d, path[..|path| - 1], k))
  }

  /** a * k by repeated addition: the error term's bookkeeping, kept apart
      from nonlinear arithmetic. */
  function Mul(a: nat, k: int): int {
    if a == 0 then 0 else Mul(a - 1, k) + k
  }

  lemma {:induction false} MulIsProduct(a: nat, k: int)
    ensures Mul(a, k) == a * k
  {
    if a > 0 {
      MulIsProduct(a - 1, k);
      StepProduct(a - 1, k);
    }
  }

  lemma StepProduct(a: int, b: int)
    ensures (a + 1) * b == a * b + b
  {
  }

  /** The line's error term after i steps along the major axis and j along the
      minor one stays in [0, major); so the minor axis is never overshot, and
      it is reached exactly when the major one is. */
  lemma MinorBounded(major: int, minor: int, e0: int, e: int, i: nat, j: nat)
    requires major > 0 && minor >= 0 && 0 <= e0 < major && 0 <= e < major && i <= major
    requires e == e0 - Mul(i, minor) + Mul(j, major)
    ensures j <= minor
    ensures i == major ==> j == minor
  {
    MulIsProduct(i, minor);
    MulIsProduct(j, major);
    Grid.MulLe(i, major, minor);
    assert major * minor == minor * major;
    if j > minor {
      StepProduct(minor, major);
      Grid.MulLe(minor + 1, j, major);
    }
    if i == major && j < minor {
      StepProduct(j, major);
      Grid.MulLe(j + 1, minor, major);
    }
  }

  /** The quantities fixed before the loop: the distances, the step
      directions (-1 when the coordinate does not grow) and the initial error,
      half the longer distance, negative when y is the longer axis (C++
      division truncates toward zero). */
  datatype Line = Line(start: Pixel, end: Pixel, dx: int, dy: int, sx: int, sy: int, e0: int)

  /** The fixed quantities agree with the two ends, and the initial error
      lies in the range the loop keeps it in. */
  predicate Fixed(l: Line) {
    && l.dx == Abs(l.end.x - l.start.x) && l.dy == Abs(l.end.y - l.start.y)
    && (l.sx == 1 || l.sx == -1) && (l.sy == 1 || l.sy == -1)
    && (l.sx > 0 <==> l.start.x < l.end.x) && (l.sy > 0 <==> l.start.y < l.end.y)
    && (l.dx > l.dy ==> 0 <= l.e0 < l.dx)
    && (l.dx <= l.dy ==> (l.dy == 0 || -l.dy < l.e0 <= 0))
  }

  function Setup(start: Pixel, end: Pixel): (l: Line)
    ensures l.start == start && l.end == end
    ensures Fixed(l)
  {
    var dx: int := Abs(end.x - start.x);
    var dy: int := Abs(end.y - start.y);
    Line(start, end, dx, dy,
         if start.x < end.x then 1 else -1,
         if start.y < end.y then 1 else -1,
         TruncDiv(if dx > dy then dx else -dy, 2))
  }

  /** The loop's moving state: the current cell, the error term, and the
      number of steps taken so far along x (a) and along y (b). */
  datatype Cursor = Cursor(x: int, y: int, err: int, a: nat, b: nat)

  function At(c: Cursor): Pixel {
    Pixel(c.x, c.y)
  }

  /** One pass of the loop after the write: both tests read the error term
      as it was before either update. */
  function Advance(l: Line, c: Cursor): Cursor {
    var c1 := if c.err > -l.dx then c.(x := c.x + l.sx, err := c.err - l.dy, a := c.a + 1) else c;
    if c.err < l.dy then c1.(y := c1.y + l.sy, err := c1.err + l.dx, b := c1.b + 1) else c1
  }

  /** The cursor never passes the end on either axis, the error term tracks
      the distance to the ideal line, and it stays in [0, dx) when x is the
      longer axis or in (-dy, 0] otherwise. */
  predicate OnTrack(l: Line, c: Cursor) {
    && Fixed(l)
    && c.a <= l.dx && c.b <= l.dy
    && c.x == (if l.sx > 0 then l.start.x + c.a else l.start.x - c.a)
    && c.y == (if l.sy > 0 then l.start.y + c.b else l.start.y - c.b)
    && c.err == l.e0 - Mul(c.a, l.dy) + Mul(c.b, l.dx)
    && (l.dx > l.dy ==> 0 <= c.err < l.dx && (c.a == l.dx ==> c.b == l.dy))
    && (l.dx <= l.dy ==> (l.dy == 0 || -l.dy < c.err <= 0) && (c.b == l.dy ==> c.a == l.dx))
  }

  /** Steps taken along the longer axis: one per pass. */
  function Major(l: Line, c: Cursor): int {
    if l.dx > l.dy then c.a else c.b
  }

  function Begin(l: Line): Cursor {
    Cursor(l.start.x, l.start.y, l.e0, 0, 0)
  }

  lemma SetupOnTrack(start: Pixel, end: Pixel)
    ensures OnTrack(Setup(start, end), Begin(Setup(start, end)))
  {
  }

  /** The cursor stays between the two ends, hence inside the grid; it is at
      the end exactly when the longer axis is exhausted. */
  lemma TrackInside(d: Domain, l: Line, c: Cursor)
    requires OnTrack(l, c) && Inside(d, l.start) && Inside(d, l.end)
    ensures Inside(d, At(c))
    ensures At(c) == l.end <==> Major(l, c) == Max(l.dx, l.dy)
  {
  }

  /** One axis of a pass: a coordinate s + sign * i that moves by sign
      exactly when its step count grows stays of that form, and moves toward
      the end as long as the count stays within the distance. */
  lemma AxisStep(s: int, e: int, dist: int, sign: int, i: nat, i': nat, z: int, z': int)
    requires dist == Abs(e - s) && (sign == 1 || sign == -1) && (sign > 0 <==> s < e)
    requires i' <= dist && (i' == i || i' == i + 1)
    requires z == (if sign > 0 then s + i else s - i)
    requires z' == (if i' == i then z else z + sign)
    ensures z' == (if sign > 0 then s + i' else s - i')
    ensures Approaches(z, z', e)
  {
  }

  /** The error term stays in its range: in [0, dx) when x is the longer
      axis, in (-dy, 0] otherwise. */
  lemma ErrorStays(l: Line, c: Cursor)
    requires Fixed(l)
    requires l.dx > l.dy ==> 0 <= c.err < l.dx
    requires l.dx <= l.dy ==> 0 < l.dy && -l.dy < c.err <= 0
    ensures l.dx > l.dy ==> c.err > -l.dx && 0 <= Advance(l, c).err < l.dx
    ensures l.dx <= l.dy ==> c.err < l.dy && -l.dy < Advance(l, c).err <= 0
  {
  }

  /** A pass away from the end moves one step toward it along the longer axis
      and stays on track. */
  lemma AdvanceOnTrack(l: Line, c: Cursor)
    requires OnTrack(l, c) && At(c) != l.end
    ensures OnTrack(l, Advance(l, c))
    ensures Major(l, Advance(l, c)) == Major(l, c) + 1
    ensures Step(At(c), At(Advance(l, c)), l.end)
  {
    var n := Advance(l, c);
    assert l.dx <= l.dy ==> 0 < l.dy;
    ErrorStays(l, c);
    assert n.err == l.e0 - Mul(n.a, l.dy) + Mul(n.b, l.dx);
    if l.dx > l.dy {
      MinorBounded(l.dx, l.dy, l.e0, n.err, n.a, n.b);
    } else {
      MinorBounded(l.dy, l.dx, -l.e0, -n.err, n.b, n.a);
    }
    AxisStep(l.start.x, l.end.x, l.dx, l.sx, c.a, n.a, c.x, n.x);
    AxisStep(l.start.y, l.end.y, l.dy, l.sy, c.b, n.b, c.y, n.y);
  }

  /** r is d with the cells of path painted in color. */
  predicate Drawn(d: Domain, r: Domain, path: seq<Pixel>, color: byte) {
    && r.width == d.width && r.height == d.height && Valid(r) && Valid(d)
    && (forall i :: 0 <= i < |path| ==> Inside(d, path[i]) && Marked(r, path[i], color))
    && (forall k :: 0 <= k < |d.cells| ==> r.cells[k] == if Hit(d, path, k) then color else d.cells[k])
  }

  /** The loop's write: `m_domain[y * width + x] = color`. */
  method Paint(d: Domain, r: Domain, path: seq<Pixel>, p: Pixel, color: byte) returns (r': Domain, path': seq<Pixel>)
    requires Drawn(d, r, path, color) && Inside(d, p)
    ensures path' == path + [p]
    ensures Drawn(d, r', path', color)
  {
    IndexInRange(d, p);
    r' := r.(cells := r.cells[Index(d, p) := color]);
    path' := path + [p];
    assert path'[..|path'| - 1] == path;
  }

  /** The state of the loop: the cursor, the grid and the cells written so far. */
  datatype Raster = Raster(c: Cursor, r: Domain, path: seq<Pixel>)

  /** The cells written so far lead from start, one step at a time, to p,
      the cell the cursor is on. */
  predicate Trail(l: Line, path: seq<Pixel>, p: Pixel) {
    && (|path| == 0 ==> p == l.start)
    && (|path| > 0 ==> path[0] == l.start && Step(path[|path| - 1], p, l.end))
    && (forall i :: 0 < i < |path| ==> Step(path[i - 1], path[i], l.end))
  }

  /** A trail that ends at the end cell, once that cell is written. */
  predicate Complete(l: Line, path: seq<Pixel>) {
    && |path| > 0 && path[0] == l.start && path[|path| - 1] == l.end
    && (forall i :: 0 < i < |path| ==> Step(path[i - 1], path[i], l.end))
  }

  lemma TrailExtends(l: Line, path: seq<Pixel>, p: Pixel, q: Pixel)
    requires Trail(l, path, p) && Step(p, q, l.end)
    ensures Trail(l, path + [p], q)
  {
    var path' := path + [p];
    forall i | 0 < i < |path'|
      ensures Step(path'[i - 1], path'[i], l.end)
    {
      if i < |path| {
        assert path'[i - 1] == path[i - 1] && path'[i] == path[i];
      }
    }
  }

  lemma TrailCompletes(l: Line, path: seq<Pixel>)
    requires Trail(l, path, l.end)
    ensures Complete(l, path + [l.end])
  {
    var path' := path + [l.end];
    forall i | 0 < i < |path'|
      ensures Step(path'[i - 1], path'[i], l.end)
    {
      if i < |path| {
        assert path'[i - 1] == path[i - 1] && path'[i] == path[i];
      }
    }
  }

  /** The loop invariant: on track, the written cells painted, one cell
      written per step along the longer axis, and a trail to the cursor. */
  predicate Drawing(d: Domain, l: Line, color: byte, s: Raster) {
    && OnTrack(l, s.c) && Drawn(d, s.r, s.path, color)
    && Inside(d, l.start) && Inside(d, l.end)
    && |s.path| == Major(l, s.c)
    && Trail(l, s.path, At(s.c))
  }

  /** What the line promises once drawn. */
  predicate Finished(d: Domain, l: Line, color: byte, s: Raster) {
    && Drawn(d, s.r, s.path, color)
    && |s.path| == Max(l.dx, l.dy) + 1
    && Complete(l, s.path)
  }

  /** One pass of the loop: write the cursor's cell, stop if it is the end,
      otherwise advance. */
  method Pass(d: Domain, l: Line, color: byte, s: Raster) returns (s': Raster, done: bool)
    requires Drawing(d, l, color, s)
    ensures done ==> Finished(d, l, color, s')
    ensures !done ==> Drawing(d, l, color, s') && Major(l, s'.c) == Major(l, s.c) + 1
    ensures Major(l, s'.c) <= Max(l.dx, l.dy)
  {
    TrackInside(d, l, s.c);
    var r, path := Paint(d, s.r, s.path, At(s.c), color);
    if s.c.x == l.end.x && s.c.y == l.end.y {
      TrailCompletes(l, s.path);
      return Raster(s.c, r, path), true;
    }
    AdvanceOnTrack(l, s.c);
    var c := Advance(l, s.c);
    TrailExtends(l, s.path, At(s.c), At(c));
    TrackInside(d, l, c);
    s' := Raster(c, r, path);
    done := false;
  }

  /** Bresenham's line from start to end in color. It writes start first,
      stops right after writing end, and writes one cell per step along the
      longer axis; every other cell keeps its value. The source checks no
      bounds, so both ends must be cells of the grid. */
  method DrawLine(d: Domain, start: Pixel, end: Pixel, color: byte) returns (r: Domain, path: seq<Pixel>)
    requires Valid(d) && Inside(d, start) && Inside(d, end)
    ensures r.width == d.width && r.height == d.height && Valid(r)
    ensures |path| == Max(Abs(end.x - start.x), Abs(end.y - start.y)) + 1
    ensures path[0] == start && path[|path| - 1] == end
    ensures forall i :: 0 <= i < |path| ==> Inside(d, path[i]) && Marked(r, path[i], color)
    ensures forall i :: 0 < i < |path| ==> Step(path[i - 1], path[i], end)
    ensures forall k :: 0 <= k < |d.cells| ==> r.cells[k] == if Hit(d, path, k) then color else d.cells[k]
  {
    var l := Setup(start, end);
    var s := Raster(Begin(l), d, []);
    SetupOnTrack(start, end);
    var done := false;
    while !done
      invariant !done ==> Drawing(d, l, color, s)
      invariant done ==> Finished(d, l, color, s)
      invariant Major(l, s.c) <= Max(l.dx, l.dy)
      decreases !done, Max(l.dx, l.dy) - Major(l, s.c)
    {
      s, done := Pass(d, l, color, s);
    }
    r, path := s.r, s.path;
  }

  /** A trimming-curve point in the unit parameter square. */
  datatype UV = UV(u: real, v: real)

  /** A conversion to an unsigned integer: truncation toward zero. */
  function Truncate(t: real): (n: int)
    ensures t >= 0.0 ==> n as real <= t < n as real + 1.0
    ensures t < 0.0 ==> n as real - 1.0 < t <= n as real
  {
    if t >= 0.0 then t.Floor else -((-t).Floor)
  }

  /** The cell a curve point falls in: each coordinate scaled by the grid
      side and truncated. */
  function CellOf(d: Domain, p: UV): Pixel {
    Pixel(Truncate(p.u * d.width as real), Truncate(p.v * d.height as real))
  }

  /** A point on the far edge of the unit square, coordinate 1.0, maps to
      column `width`, one past the last: the scaling does not clamp. */
  lemma FarEdgeFallsOutside(d: Domain, v: real)
    requires d.width > 0 && 0.0 <= v < 1.0
    ensures CellOf(d, UV(1.0, v)).x == d.width
    ensures !Inside(d, CellOf(d, UV(1.0, v)))
  {
  }

  /** The number of passes of the curve loop as written: the bound
      `size() - 1` is an unsigned subtraction, which wraps for an empty list. */
  function PairsAsWritten(n: nat): (r: int)
    requires n < SizeModulus
    ensures 0 <= r < SizeModulus
    ensures (r + 1) % SizeModulus == n
  {
    (n + SizeModulus - 1) % SizeModulus
  }

  /** With no points the loop as written still runs, and its first pass reads
      points 0 and 1 of an empty list. */
  lemma EmptyCurveRunsPastEnd()
    ensures PairsAsWritten(0) == SizeModulus - 1
    ensures PairsAsWritten(0) > 0 && Pairs(0) == 0
  {
  }

  /** The intended number of passes: one per pair of consecutive points;
      the last pass, r - 1, reads point r, which exists. */
  function Pairs(n: nat): (r: nat)
    ensures r > 0 ==> r < n
    ensures n > 0 ==> r + 1 == n
  {
    if n == 0 then 0 else n - 1
  }

  /** The two counts agree on every non-empty list. */
  lemma PairsAsWrittenAgrees(n: nat)
    requires 0 < n < SizeModulus
    ensures PairsAsWritten(n) == Pairs(n)
  {
  }

  datatype TrimError = OutsideDomain(point: nat)

  /** Every point of the curve falls in a cell of the grid. */
  predicate AllInside(d: Domain, points: seq<UV>) {
    forall j :: 0 <= j < |points| ==> Inside(d, CellOf(d, points[j]))
  }

  /** A line as the rasteriser draws it from a to b: it starts at a, ends at
      b, holds one cell per unit of the longer axis, and every cell is a
      neighbour of the one before, toward b. */
  predicate LineFrom(path: seq<Pixel>, a: Pixel, b: Pixel) {
    && |path| == Max(Abs(b.x - a.x), Abs(b.y - a.y)) + 1
    && path[0] == a && path[|path| - 1] == b
    && forall i :: 0 < i < |path| ==> Step(path[i - 1], path[i], b)
  }

  /** Some line has a cell at grid position k. */
  predicate HitAny(d: Domain, lines: seq<seq<Pixel>>, k: int) {
    exists i :: 0 <= i < |lines| && Hit(d, lines[i], k)
  }

  /** Every cell of every line holds color. */
  predicate AllMarked(d: Domain, lines: seq<seq<Pixel>>, color: byte) {
    forall i, j :: 0 <= i < |lines| && 0 <= j < |lines[i]| ==> Marked(d, lines[i][j], color)
  }

  /** Whether a line hits a position depends on the grid's width only. */
  lemma {:induction false} HitSameWidth(d: Domain, e: Domain, path: seq<Pixel>, k: int)
    requires d.width == e.width
    ensures Hit(d, path, k) == Hit(e, path, k)
    decreases |path|
  {
    if |path| > 0 {
      HitSameWidth(d, e, path[..|path| - 1], k);
    }
  }

  lemma HitAnyAppend(d: Domain, lines: seq<seq<Pixel>>, path: seq<Pixel>, k: int)
    ensures HitAny(d, lines + [path], k) <==> HitAny(d, lines, k) || Hit(d, path, k)
  {
    var all := lines + [path];
    if HitAny(d, all, k) {
      var i :| 0 <= i < |all| && Hit(d, all[i], k);
      if i < |lines| {
        assert all[i] == lines[i];
      }
    }
    if HitAny(d, lines, k) {
      var i :| 0 <= i < |lines| && Hit(d, lines[i], k);
      assert all[i] == lines[i];
    }
    if Hit(d, path, k) {
      assert all[|lines|] == path;
    }
  }

  /** The rasterised curve: the grid and the line drawn for each pair of
      consecutive points, in order. */
  datatype Trace = Trace(domain: Domain, lines: seq<seq<Pixel>>)

  /** The state after the first |lines| pairs have been drawn into cur. */
  predicate Traced(d: Domain, points: seq<UV>, cur: Domain, lines: seq<seq<Pixel>>) {
    && |lines| <= Pairs(|points|)
    && Valid(d) && Valid(cur) && cur.width == d.width && cur.height == d.height
    && (forall k :: 0 <= k < |d.cells| ==> cur.cells[k] == if HitAny(d, lines, k) then CurveColor else d.cells[k])
    && (forall i :: 0 <= i < |lines| ==> LineFrom(lines[i], CellOf(d, points[i]), CellOf(d, points[i + 1])))
    && AllMarked(cur, lines, CurveColor)
    && (forall j :: 0 <= j <= |lines| && 0 < |lines| ==> Inside(d, CellOf(d, points[j])) && Marked(cur, CellOf(d, points[j]), CurveColor))
  }

  /** Painting more cells in color keeps every cell that held it. */
  lemma MarksKept(prev: Domain, cur: Domain, path: seq<Pixel>, p: Pixel)
    requires Drawn(prev, cur, path, CurveColor) && Marked(prev, p, CurveColor)
    ensures Marked(cur, p, CurveColor)
  {
    assert prev.cells[Index(prev, p)] == CurveColor;
  }

  /** Adding a drawn line keeps the cell characterisation. */
  lemma CellsStep(d: Domain, cur: Domain, cur': Domain, lines: seq<seq<Pixel>>, path: seq<Pixel>)
    requires Valid(d) && Valid(cur) && cur.width == d.width && cur.height == d.height
    requires forall k :: 0 <= k < |d.cells| ==> cur.cells[k] == if HitAny(d, lines, k) then CurveColor else d.cells[k]
    requires Drawn(cur, cur', path, CurveColor)
    ensures forall k :: 0 <= k < |d.cells| ==> cur'.cells[k] == if HitAny(d, lines + [path], k) then CurveColor else d.cells[k]
  {
    forall k | 0 <= k < |d.cells|
      ensures cur'.cells[k] == if HitAny(d, lines + [path], k) then CurveColor else d.cells[k]
    {
      HitSameWidth(d, cur, path, k);
      HitAnyAppend(d, lines, path, k);
    }
  }

  /** Adding a drawn line keeps every earlier line coloured. */
  lemma MarksStep(cur: Domain, cur': Domain, lines: seq<seq<Pixel>>, path: seq<Pixel>)
    requires AllMarked(cur, lines, CurveColor) && Drawn(cur, cur', path, CurveColor)
    ensures AllMarked(cur', lines + [path], CurveColor)
  {
    var all := lines + [path];
    forall i, j | 0 <= i < |all| && 0 <= j < |all[i]|
      ensures Marked(cur', all[i][j], CurveColor)
    {
      if i < |lines| {
        assert all[i] == lines[i];
        MarksKept(cur, cur', path, lines[i][j]);
      }
    }
  }

  /** One pass of the curve loop: the line from point i to point i + 1. */
  method DrawPair(d: Domain, points: seq<UV>, cur: Domain, lines: seq<seq<Pixel>>) returns (cur': Domain, lines': seq<seq<Pixel>>)
    requires Valid(d) && Traced(d, points, cur, lines) && |lines| < Pairs(|points|)
    requires Inside(d, CellOf(d, points[|lines|])) && Inside(d, CellOf(d, points[|lines| + 1]))
    ensures Traced(d, points, cur', lines') && |lines'| == |lines| + 1
  {
    var i := |lines|;
    var p0, p1 := CellOf(d, points[i]), CellOf(d, points[i + 1]);
    var path;
    cur', path := DrawLine(cur, p0, p1, CurveColor);
    assert Drawn(cur, cur', path, CurveColor);
    assert LineFrom(path, p0, p1);
    lines' := lines + [path];
    CellsStep(d, cur, cur', lines, path);
    MarksStep(cur, cur', lines, path);
    forall j | 0 <= j <= i + 1
      ensures Inside(d, CellOf(d, points[j])) && Marked(cur', CellOf(d, points[j]), CurveColor)
    {
      if j < i || (j == i && 0 < i) {
        MarksKept(cur, cur', path, CellOf(d, points[j]));
      } else if j == i {
        assert path[0] == p0;
      } else {
        assert path[|path| - 1] == p1;
      }
    }
    assert forall i' :: 0 <= i' < i ==> lines'[i'] == lines[i'];
    assert lines'[i] == path;
  }

  /** Rasterises a trimming curve, as intended, where the code as written
      loops size() - 1 times, wrapping on an empty curve (see PairsAsWritten):
      one line in the curve colour from each point to the next. A point falling outside the grid (a coordinate of 1.0
      or beyond) is reported, since the source would write past its row or
      past the buffer. Line i runs from the cell of point i to the cell of
      point i + 1 and all its cells are coloured; a cell changes exactly when
      some line passes over it. */
  method TrimCurve(d: Domain, points: seq<UV>) returns (r: Result<Trace, TrimError>)
    requires Valid(d)
    ensures r.Success? <==> |points| <= 1 || AllInside(d, points)
    ensures r.Success? ==> Valid(r.value.domain) && r.value.domain.width == d.width && r.value.domain.height == d.height
    ensures r.Success? ==> |r.value.lines| == Pairs(|points|)
    ensures r.Success? ==> forall i :: 0 <= i < |r.value.lines| ==>
              LineFrom(r.value.lines[i], CellOf(d, points[i]), CellOf(d, points[i + 1]))
    ensures r.Success? ==> AllMarked(r.value.domain, r.value.lines, CurveColor)
    ensures r.Success? ==> forall k :: 0 <= k < |d.cells| ==>
              r.value.domain.cells[k] == if HitAny(d, r.value.lines, k) then CurveColor else d.cells[k]
    ensures r.Success? && |points| > 1 ==> forall j :: 0 <= j < |points| ==> Marked(r.value.domain, CellOf(d, points[j]), CurveColor)
    ensures r.Failure? ==> r.error.point < |points| && !Inside(d, CellOf(d, points[r.error.point]))
  {
    var cur := d;
    var lines: seq<seq<Pixel>> := [];
    while |lines| < Pairs(|points|)
      invariant Traced(d, points, cur, lines)
    {
      var i := |lines|;
      if !Inside(d, CellOf(d, points[i])) {
        return Failure(OutsideDomain(i));
      }
      if !Inside(d, CellOf(d, points[i + 1])) {
        return Failure(OutsideDomain(i + 1));
      }
      cur, lines := DrawPair(d, points, cur, lines);
    }
    r := Success(Trace(cur, lines));
  }
}
