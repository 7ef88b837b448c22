/** The Gregory patch's preparation of an adjacent Bézier patch: the 4x4
    control net is re-indexed so that its first column runs along the shared
    edge, and the re-indexed net is split in two along u by de Casteljau's
    algorithm at one half. */
module Gregory {
  import opened Common

  /** A position in the 4x4 control net. */
  datatype Offset = Offset(x: int, y: int)

  /** The offset `+` operator. */
  function Add(a: Offset, b: Offset): Offset {
    Offset(a.x + b.x, a.y + b.y)
  }

  /** The offset `-` operator. */
  function Sub(a: Offset, b: Offset): Offset {
    Offset(a.x - b.x, a.y - b.y)
  }

  /** The offset comparison operators, written out component by component. */
  predicate Equal(a: Offset, b: Offset) {
    a.x == b.x && a.y == b.y
  }

  predicate NotEqual(a: Offset, b: Offset) {
    a.x != b.x || a.y != b.y
  }

  lemma OffsetOperators(a: Offset, b: Offset)
    ensures Equal(a, b) <==> a == b
    ensures NotEqual(a, b) <==> !Equal(a, b)
    ensures Sub(Add(a, b), b) == a
    ensures Add(Sub(a, b), b) == a
    ensures Add(a, b) == Add(b, a)
  {
  }

  /** Which corner-to-corner edge of the patch is shared with the gap. */
  datatype Indexing = Indexing(start: Offset, end: Offset)

  /** The four boundary edges in clockwise direction. */
  const Clockwise: seq<Indexing> := [
    Indexing(Offset(0, 0), Offset(3, 0)), Indexing(Offset(3, 0), Offset(3, 3)),
    Indexing(Offset(3, 3), Offset(0, 3)), Indexing(Offset(0, 3), Offset(0, 0))
  ]

  /** The search over the clockwise table: the edge is listed there. */
  predicate IsClockwise(idx: Indexing) {
    idx == Clockwise[0] || idx == Clockwise[1] || idx == Clockwise[2] || idx == Clockwise[3]
  }

  /** The edge vector `end - start`. */
  function Span(idx: Indexing): Offset {
    Offset(idx.end.x - idx.start.x, idx.end.y - idx.start.y)
  }

  /** Both components divided by three, as the code's `/= 3` does. */
  function Third(o: Offset): Offset {
    Offset(TruncDiv(o.x, 3), TruncDiv(o.y, 3))
  }

  /** A quarter turn, one way for clockwise edges and the other way otherwise. */
  function Turn(o: Offset, clockwise: bool): Offset {
    if clockwise then Offset(-o.y, o.x) else Offset(o.y, -o.x)
  }

  /** The u step runs from start toward end, divided by three. */
  function UStep(idx: Indexing): Offset {
    Third(Span(idx))
  }

  /** The v step is the edge direction turned by a quarter, then divided by three. */
  function VStep(idx: Indexing): Offset {
    Third(Turn(Span(idx), IsClockwise(idx)))
  }

  predicate IsCorner(o: Offset) {
    (o.x == 0 || o.x == 3) && (o.y == 0 || o.y == 3)
  }

  /** A directed edge between two neighbouring corners: the eight indexings
      the re-indexing is meant for. */
  predicate ValidEdge(idx: Indexing) {
    IsCorner(idx.start) && IsCorner(idx.end) && ((idx.start.x == idx.end.x) != (idx.start.y == idx.end.y))
  }

  predicate InNet(o: Offset) {
    0 <= o.x < 4 && 0 <= o.y < 4
  }

  function Scale(k: int, o: Offset): Offset {
    Offset(k * o.x, k * o.y)
  }

  /** The offset reached from o by n additions of d, as the loops advance. */
  function Repeat(o: Offset, d: Offset, n: nat): Offset {
    if n == 0 then o
    else
      var p := Repeat(o, d, n - 1);
      Offset(p.x + d.x, p.y + d.y)
  }

  /** The offset reached from s by u steps du and then v steps dv. */
  function Walk(s: Offset, du: Offset, dv: Offset, u: nat, v: nat): Offset {
    Repeat(Repeat(s, du, u), dv, v)
  }

  /** n times a component of a unit step (1, -1 or 0). */
  function Times(n: int, c: int): int {
    if c == 1 then n else if c == -1 then -n else 0
  }

  /** The component of (dx, dy) along the unit step d. */
  function Along(d: Offset, dx: int, dy: int): int {
    Times(dx, d.x) + Times(dy, d.y)
  }

  /** The step counts of o relative to s, as an offset (u, v), by projection on du and dv. */
  function Coordinates(s: Offset, du: Offset, dv: Offset, o: Offset): Offset {
    var dx, dy := o.x - s.x, o.y - s.y;
    Offset(Along(du, dx, dy), Along(dv, dx, dy))
  }

  /** The net position the re-indexing reads for (u, v). */
  function Source(idx: Indexing, u: nat, v: nat): Offset {
    Walk(idx.start, UStep(idx), VStep(idx), u, v)
  }

  /** The position of net offset o in the re-indexed net, the inverse of Source. */
  function Target(idx: Indexing, o: Offset): Offset {
    Coordinates(idx.start, UStep(idx), VStep(idx), o)
  }

  lemma TruncDivExact(q: int)
    ensures TruncDiv(3 * q, 3) == q
  {
  }

  lemma TruncDivNegate(a: int)
    ensures TruncDiv(-a, 3) == -TruncDiv(a, 3)
  {
  }

  /** Turning and then dividing equals dividing and then turning. */
  lemma ThirdTurn(o: Offset, clockwise: bool)
    ensures Third(Turn(o, clockwise)) == Turn(Third(o), clockwise)
  {
    TruncDivNegate(o.x);
    TruncDivNegate(o.y);
  }

  lemma VStepTurnsUStep(idx: Indexing)
    ensures VStep(idx) == Turn(UStep(idx), IsClockwise(idx))
  {
    ThirdTurn(Span(idx), IsClockwise(idx));
  }

  /** The steps of an edge whose span is three times du. */
  lemma StepsOf(idx: Indexing, du: Offset, clockwise: bool)
    requires Span(idx) == Scale(3, du)
    requires IsClockwise(idx) == clockwise
    ensures UStep(idx) == du && VStep(idx) == Turn(du, clockwise)
  {
    VStepTurnsUStep(idx);
    TruncDivExact(du.x);
    TruncDivExact(du.y);
  }

  /** A unit step along one of the axes. */
  predicate Unit(o: Offset) {
    o == Offset(1, 0) || o == Offset(-1, 0) || o == Offset(0, 1) || o == Offset(0, -1)
  }

  /** du and dv are unit steps along the axes at right angles to each
      other, three u steps lead from s to e, and three v steps from s stay
      inside the net. */
  predicate Frame(s: Offset, e: Offset, du: Offset, dv: Offset) {
    && Unit(du) && Unit(dv) && (du.x == 0) != (dv.x == 0)
    && Offset(s.x + 3 * du.x, s.y + 3 * du.y) == e
    && InNet(Offset(s.x + 3 * dv.x, s.y + 3 * dv.y))
  }

  /** An edge whose span is three times du has steps du and dv, and these
      form a frame whenever the literal steps do. */
  lemma EdgeFrame(idx: Indexing, du: Offset, dv: Offset, clockwise: bool)
    requires Span(idx) == Scale(3, du) && IsClockwise(idx) == clockwise
    requires dv == Turn(du, clockwise) && Frame(idx.start, idx.end, du, dv)
    ensures Frame(idx.start, idx.end, UStep(idx), VStep(idx))
  {
    StepsOf(idx, du, clockwise);
  }

  /** For each of the eight edges, the directions are unit steps along the
      axes at right angles to each other, three u steps lead from start to
      end, and three v steps stay inside the net. */
  lemma ValidDirections(idx: Indexing)
    requires ValidEdge(idx)
    ensures Frame(idx.start, idx.end, UStep(idx), VStep(idx))
  {
    if idx == Indexing(Offset(0, 0), Offset(3, 0)) {
      assert Clockwise[0] == idx;
      EdgeFrame(idx, Offset(1, 0), Offset(0, 1), true);
    } else if idx == Indexing(Offset(3, 0), Offset(3, 3)) {
      assert Clockwise[1] == idx;
      EdgeFrame(idx, Offset(0, 1), Offset(-1, 0), true);
    } else if idx == Indexing(Offset(3, 3), Offset(0, 3)) {
      assert Clockwise[2] == idx;
      EdgeFrame(idx, Offset(-1, 0), Offset(0, -1), true);
    } else if idx == Indexing(Offset(0, 3), Offset(0, 0)) {
      assert Clockwise[3] == idx;
      EdgeFrame(idx, Offset(0, -1), Offset(1, 0), true);
    } else if idx == Indexing(Offset(3, 0), Offset(0, 0)) {
      assert idx !in Clockwise;
      EdgeFrame(idx, Offset(-1, 0), Offset(0, 1), false);
    } else if idx == Indexing(Offset(3, 3), Offset(3, 0)) {
      assert idx !in Clockwise;
      EdgeFrame(idx, Offset(0, -1), Offset(-1, 0), false);
    } else if idx == Indexing(Offset(0, 3), Offset(3, 3)) {
      assert idx !in Clockwise;
      EdgeFrame(idx, Offset(1, 0), Offset(0, -1), false);
    } else if idx == Indexing(Offset(0, 0), Offset(0, 3)) {
      assert idx !in Clockwise;
      EdgeFrame(idx, Offset(0, 1), Offset(1, 0), false);
    } else {
      assert false;
    }
  }

  /** n additions of a unit step d move by n times d. */
  lemma {:induction false} RepeatClosed(o: Offset, d: Offset, n: nat)
    requires Unit(d)
    ensures Repeat(o, d, n) == Offset(o.x + Times(n, d.x), o.y + Times(n, d.y))
  {
    if n > 0 {
      RepeatClosed(o, d, n - 1);
    }
  }

  lemma WalkClosed(s: Offset, du: Offset, dv: Offset, u: nat, v: nat)
    requires Unit(du) && Unit(dv)
    ensures Walk(s, du, dv, u, v)
      == Offset(s.x + Times(u, du.x) + Times(v, dv.x), s.y + Times(u, du.y) + Times(v, dv.y))
  {
    RepeatClosed(s, du, u);
    RepeatClosed(Repeat(s, du, u), dv, v);
  }

  /** Inside a frame whose ends lie in the net, every grid point of the
      4x4 square lies in the net. */
  lemma WalkInNet(s: Offset, e: Offset, du: Offset, dv: Offset, u: nat, v: nat)
    requires Frame(s, e, du, dv) && InNet(s) && InNet(e)
    requires u < 4 && v < 4
    ensures InNet(Walk(s, du, dv, u, v))
  {
    WalkClosed(s, du, dv, u, v);
  }

  /** The first column of a frame runs from s to e. */
  lemma WalkEnds(s: Offset, e: Offset, du: Offset, dv: Offset)
    requires Frame(s, e, du, dv)
    ensures Walk(s, du, dv, 0, 0) == s && Walk(s, du, dv, 3, 0) == e
  {
    WalkClosed(s, du, dv, 3, 0);
  }

  /** Projecting a walk recovers its step counts. */
  lemma CoordinatesOfWalk(s: Offset, e: Offset, du: Offset, dv: Offset, u: nat, v: nat)
    requires Frame(s, e, du, dv)
    ensures Coordinates(s, du, dv, Walk(s, du, dv, u, v)) == Offset(u, v)
  {
    WalkClosed(s, du, dv, u, v);
    if du.x == 0 {
      assert dv.y == 0 && (du.y == 1 || du.y == -1) && (dv.x == 1 || dv.x == -1);
    } else {
      assert du.y == 0 && dv.x == 0 && (du.x == 1 || du.x == -1) && (dv.y == 1 || dv.y == -1);
    }
  }

  /** Every net position has step counts in [0, 3]^2. */
  lemma CoordinatesInRange(s: Offset, e: Offset, du: Offset, dv: Offset, o: Offset)
    requires Frame(s, e, du, dv) && InNet(s) && InNet(e) && InNet(o)
    ensures 0 <= Coordinates(s, du, dv, o).x < 4 && 0 <= Coordinates(s, du, dv, o).y < 4
  {
  }

  /** Every net position is reached by walking its step counts. */
  lemma WalkOfCoordinates(s: Offset, e: Offset, du: Offset, dv: Offset, o: Offset, u: nat, v: nat)
    requires Frame(s, e, du, dv) && Offset(u, v) == Coordinates(s, du, dv, o)
    ensures Walk(s, du, dv, u, v) == o
  {
    WalkClosed(s, du, dv, u, v);
  }

  /** Every (u, v) in [0, 3]^2 reads inside the net. */
  lemma SourceInNet(idx: Indexing, u: nat, v: nat)
    requires ValidEdge(idx) && u < 4 && v < 4
    ensures InNet(Source(idx, u, v))
  {
    ValidDirections(idx);
    assert InNet(idx.start) && InNet(idx.end);
    WalkInNet(idx.start, idx.end, UStep(idx), VStep(idx), u, v);
  }

  /** Column v = 0 of the re-indexed net runs from the edge's start to its end. */
  lemma SourceEnds(idx: Indexing)
    requires ValidEdge(idx)
    ensures Source(idx, 0, 0) == idx.start && Source(idx, 3, 0) == idx.end
  {
    var du, dv := UStep(idx), VStep(idx);
    ValidDirections(idx);
    WalkEnds(idx.start, idx.end, du, dv);
  }

  /** Target undoes Source: distinct cells of the quarter surface read
      distinct net positions. */
  lemma TargetOfSource(idx: Indexing, u: nat, v: nat)
    requires ValidEdge(idx)
    ensures Target(idx, Source(idx, u, v)) == Offset(u, v)
  {
    ValidDirections(idx);
    CoordinatesOfWalk(idx.start, idx.end, UStep(idx), VStep(idx), u, v);
  }

  /** In a frame, every net position has step counts in [0, 3]^2 and is
      reached by walking them. */
  lemma FrameCovers(s: Offset, e: Offset, du: Offset, dv: Offset, o: Offset)
    requires Frame(s, e, du, dv) && InNet(s) && InNet(e) && InNet(o)
    ensures var c := Coordinates(s, du, dv, o);
      0 <= c.x < 4 && 0 <= c.y < 4 && Walk(s, du, dv, c.x, c.y) == o
  {
    CoordinatesInRange(s, e, du, dv, o);
    var c := Coordinates(s, du, dv, o);
    WalkOfCoordinates(s, e, du, dv, o, c.x, c.y);
  }

  /** Every net position is the Source of its Target, so the re-indexing
      reads every point of the net. */
  lemma SourceOfTarget(idx: Indexing, o: Offset)
    requires ValidEdge(idx) && InNet(o)
    ensures 0 <= Target(idx, o).x < 4 && 0 <= Target(idx, o).y < 4
    ensures Source(idx, Target(idx, o).x, Target(idx, o).y) == o
  {
    ValidDirections(idx);
    assert InNet(idx.start) && InNet(idx.end);
    FrameCovers(idx.start, idx.end, UStep(idx), VStep(idx), o);
  }

  /** Position of (x, y) in a 4x4 quarter surface, row by row. */
  function At(x: int, y: int): (i: int)
    ensures 0 <= x < 4 && 0 <= y < 4 ==> 0 <= i < 16
  {
    y * 4 + x
  }

  /** At numbers the sixteen cells one to one. */
  lemma AtBijective(x: int, y: int, x': int, y': int)
    requires 0 <= x < 4 && 0 <= y < 4 && 0 <= x' < 4 && 0 <= y' < 4
    ensures At(x, y) == At(x', y') <==> x == x' && y == y'
    ensures At(At(x, y) % 4, At(x, y) / 4) == At(x, y)
  {
  }

  /** A patch's control net, read as points[x][y]. */
  type Net = seq<seq<Vec3>>

  predicate IsNet(net: Net) {
    |net| == 4 && forall x :: 0 <= x < 4 ==> |net[x]| == 4
  }

  /** The search of the clockwise table, with its early exit, followed by
      the quarter turn and the division of both directions by three. */
  method Directions(idx: Indexing) returns (du: Offset, dv: Offset)
    ensures du == UStep(idx) && dv == VStep(idx)
  {
    var u := Offset(idx.end.x - idx.start.x, idx.end.y - idx.start.y);
    var clockwise := false;
    var i := 0;
    while i < |Clockwise|
      invariant 0 <= i <= |Clockwise|
      invariant forall j :: 0 <= j < i ==> Clockwise[j] != idx
    {
      if Clockwise[i].start == idx.start && Clockwise[i].end == idx.end {
        clockwise := true;
        break;
      }
      i := i + 1;
    }
    assert clockwise == IsClockwise(idx);
    var v := if clockwise then Offset(-u.y, u.x) else Offset(u.y, -u.x);
    du := Offset(TruncDiv(u.x, 3), TruncDiv(u.y, 3));
    dv := Offset(TruncDiv(v.x, 3), TruncDiv(v.y, 3));
  }

  /** The net point that cell (u, v) of the re-indexed surface reads. */
  function Cell(net: Net, idx: Indexing, u: nat, v: nat): Vec3
    requires IsNet(net) && ValidEdge(idx) && u < 4 && v < 4
  {
    SourceInNet(idx, u, v);
    var o := Source(idx, u, v);
    net[o.x][o.y]
  }

  /** The net point reached by walking, or the origin outside the net. */
  function Read(net: Net, s: Offset, du: Offset, dv: Offset, u: nat, v: nat): Vec3
    requires IsNet(net)
  {
    var o := Walk(s, du, dv, u, v);
    if InNet(o) then net[o.x][o.y] else Origin
  }

  /** Reading by walking from the edge's start is reading the cell. */
  lemma ReadIsCell(net: Net, idx: Indexing, u: nat, v: nat)
    requires IsNet(net) && ValidEdge(idx) && u < 4 && v < 4
    ensures Read(net, idx.start, UStep(idx), VStep(idx), u, v) == Cell(net, idx, u, v)
  {
    SourceInNet(idx, u, v);
  }

  /** The inner re-indexing loop: column u of the quarter surface is read
      along v, and the other columns are left as they were. */
  method Column(net: Net, s: Offset, e: Offset, du: Offset, dv: Offset, u: nat, uOffset: Offset, surface: seq<Vec3>)
    returns (r: seq<Vec3>)
    requires IsNet(net) && Frame(s, e, du, dv) && InNet(s) && InNet(e)
    requires u < 4 && |surface| == 16 && uOffset == Repeat(s, du, u)
    ensures |r| == 16
    ensures forall a, b :: 0 <= a < 4 && a != u && 0 <= b < 4 ==> r[At(a, b)] == surface[At(a, b)]
    ensures forall b: nat :: b < 4 ==> r[At(u, b)] == Read(net, s, du, dv, u, b)
  {
    r := surface;
    var vOffset := uOffset;
    var v: nat := 0;
    while v < 4
      invariant v <= 4 && |r| == 16
      invariant vOffset == Repeat(uOffset, dv, v)
      invariant forall a, b :: 0 <= a < 4 && a != u && 0 <= b < 4 ==> r[At(a, b)] == surface[At(a, b)]
      invariant forall b: nat :: b < v ==> r[At(u, b)] == Read(net, s, du, dv, u, b)
    {
      WalkInNet(s, e, du, dv, u, v);
      assert Read(net, s, du, dv, u, v) == net[vOffset.x][vOffset.y];
      forall a, b | 0 <= a < 4 && 0 <= b < 4 && (a, b) != (u, v)
        ensures At(a, b) != At(u, v)
      {
        AtBijective(a, b, u, v);
      }
      r := r[At(u, v) := net[vOffset.x][vOffset.y]];
      vOffset := Offset(vOffset.x + dv.x, vOffset.y + dv.y);
      v := v + 1;
    }
  }

  /** The outer re-indexing loop over u, for a frame starting at s. */
  method Fill(net: Net, s: Offset, e: Offset, du: Offset, dv: Offset) returns (surface: seq<Vec3>)
    requires IsNet(net) && Frame(s, e, du, dv) && InNet(s) && InNet(e)
    ensures |surface| == 16
    ensures forall a: nat, b: nat :: a < 4 && b < 4 ==> surface[At(a, b)] == Read(net, s, du, dv, a, b)
  {
    surface := seq(16, _ => Origin);
    var uOffset := s;
    var u: nat := 0;
    while u < 4
      invariant u <= 4 && |surface| == 16
      invariant uOffset == Repeat(s, du, u)
      invariant forall a: nat, b: nat :: a < u && b < 4 ==> surface[At(a, b)] == Read(net, s, du, dv, a, b)
    {
      var next := Column(net, s, e, du, dv, u, uOffset, surface);
      forall a: nat, b: nat | a <= u && b < 4
        ensures next[At(a, b)] == Read(net, s, du, dv, a, b)
      {
        if a < u {
          assert next[At(a, b)] == surface[At(a, b)];
        }
      }
      surface := next;
      uOffset := Offset(uOffset.x + du.x, uOffset.y + du.y);
      u := u + 1;
    }
  }

  /** The re-indexing: cell (u, v) of the quarter surface receives the net
      point reached from the edge's start by u steps along the edge and v
      steps into the patch. */
  method Reindex(net: Net, idx: Indexing) returns (surface: seq<Vec3>)
    requires IsNet(net) && ValidEdge(idx)
    ensures |surface| == 16
    ensures forall u: nat, v: nat :: u < 4 && v < 4 ==> surface[At(u, v)] == Cell(net, idx, u, v)
  {
    var du, dv := Directions(idx);
    ValidDirections(idx);
    assert InNet(idx.start) && InNet(idx.end);
    surface := Fill(net, idx.start, idx.end, du, dv);
    forall u: nat, v: nat | u < 4 && v < 4
      ensures surface[At(u, v)] == Cell(net, idx, u, v)
    {
      ReadIsCell(net, idx, u, v);
    }
  }

  /** One coordinate of the cubic Bézier curve with control values p0..p3 at t. */
  function Bezier(p0: real, p1: real, p2: real, p3: real, t: real): real {
    var s := 1.0 - t;
    s * s * s * p0 + 3.0 * s * s * t * p1 + 3.0 * s * t * t * p2 + t * t * t * p3
  }

  /** The same cubic in the power basis a + b t + c t^2 + d t^3. */
  function Power(a: real, b: real, c: real, d: real, t: real): real {
    a + b * t + c * t * t + d * t * t * t
  }
  /** The Bernstein form expanded into the power basis. */
  lemma BezierPower(p0: real, p1: real, p2: real, p3: real, t: real)
    ensures Bezier(p0, p1, p2, p3, t) == Power(p0, 3.0 * (p1 - p0), 3.0 * (p0 - 2.0 * p1 + p2), p3 - 3.0 * p2 + 3.0 * p1 - p0, t)
  {
  }
  /** Substituting t/2: each coefficient is halved once more than the last. */
  lemma PowerScaled(a: real, b: real, c: real, d: real, t: real)
    ensures Power(a, b, c, d, t / 2.0) == Power(a, b / 2.0, c / 4.0, d / 8.0, t)
  {
    var h := t / 2.0;
    assert h * h == t * t / 4.0;
    assert h * h * h == t * t * t / 8.0;
  }
  /** Substituting (1 + t)/2. */
  lemma PowerShifted(a: real, b: real, c: real, d: real, t: real)
    ensures Power(a, b, c, d, (1.0 + t) / 2.0)
      == Power(a + b / 2.0 + c / 4.0 + d / 8.0, b / 2.0 + c / 2.0 + 3.0 * d / 8.0, c / 4.0 + 3.0 * d / 8.0, d / 8.0, t)
  {
    var h := (1.0 + t) / 2.0;
    var h2, h3 := (1.0 + 2.0 * t + t * t) / 4.0, (1.0 + 3.0 * t + 3.0 * t * t + t * t * t) / 8.0;
    assert h * h == h2;
    assert h * h * h == h3;
    assert c * h * h == c * h2;
    assert d * h * h * h == d * h3;
    assert Power(a, b, c, d, h) == a + b * h + c * h2 + d * h3;
  }
  /** de Casteljau at one half on scalars: the first half's control values
      trace the curve on [0, 1/2]. */
  lemma HalfLeft(p0: real, p1: real, p2: real, p3: real, t: real)
    ensures var m01, m12, m23 := 0.5 * (p0 + p1), 0.5 * (p1 + p2), 0.5 * (p2 + p3);
      var m012, m123 := 0.5 * (m01 + m12), 0.5 * (m12 + m23);
      var m := 0.5 * (m012 + m123);
      Bezier(p0, m01, m012, m, t) == Bezier(p0, p1, p2, p3, t / 2.0)
  {
    var m01, m12, m23 := 0.5 * (p0 + p1), 0.5 * (p1 + p2), 0.5 * (p2 + p3);
    var m012, m123 := 0.5 * (m01 + m12), 0.5 * (m12 + m23);
    var m := 0.5 * (m012 + m123);
    BezierPower(p0, m01, m012, m, t);
    BezierPower(p0, p1, p2, p3, t / 2.0);
    PowerScaled(p0, 3.0 * (p1 - p0), 3.0 * (p0 - 2.0 * p1 + p2), p3 - 3.0 * p2 + 3.0 * p1 - p0, t);
  }
  /** ... and the second half's trace it on [1/2, 1]. */
  lemma HalfRight(p0: real, p1: real, p2: real, p3: real, t: real)
    ensures var m01, m12, m23 := 0.5 * (p0 + p1), 0.5 * (p1 + p2), 0.5 * (p2 + p3);
      var m012, m123 := 0.5 * (m01 + m12), 0.5 * (m12 + m23);
      var m := 0.5 * (m012 + m123);
      Bezier(m, m123, m23, p3, t) == Bezier(p0, p1, p2, p3, (1.0 + t) / 2.0)
  {
    var m01, m12, m23 := 0.5 * (p0 + p1), 0.5 * (p1 + p2), 0.5 * (p2 + p3);
    var m012, m123 := 0.5 * (m01 + m12), 0.5 * (m12 + m23);
    var m := 0.5 * (m012 + m123);
    BezierPower(m, m123, m23, p3, t);
    BezierPower(p0, p1, p2, p3, (1.0 + t) / 2.0);
    PowerShifted(p0, 3.0 * (p1 - p0), 3.0 * (p0 - 2.0 * p1 + p2), p3 - 3.0 * p2 + 3.0 * p1 - p0, t);
  }

  /** The control points of the two halves of a split curve. */
  datatype Halves = Halves(first: seq<Vec3>, second: seq<Vec3>)

  /** de Casteljau's algorithm at t = 1/2 on one row b0..b3 of the quarter
      surface: the control points of the first and the second half. */
  function Halve(b: seq<Vec3>): (r: Halves)
    requires |b| == 4
    ensures |r.first| == 4 && |r.second| == 4
  {
    var b10, b11, b12 := Mid(b[0], b[1]), Mid(b[1], b[2]), Mid(b[2], b[3]);
    var b20, b21 := Mid(b10, b11), Mid(b11, b12);
    var b30 := Mid(b20, b21);
    Halves([b[0], b10, b20, b30], [b30, b21, b12, b[3]])
  }

  /** The halves share the curve's point at t = 1/2 and keep its end points. */
  lemma HalveJoins(b: seq<Vec3>, k: nat)
    requires |b| == 4 && k < 3
    ensures Halve(b).first[0] == b[0] && Halve(b).second[3] == b[3]
    ensures Halve(b).first[3] == Halve(b).second[0]
    ensures Halve(b).first[3].Coord(k) == Bezier(b[0].Coord(k), b[1].Coord(k), b[2].Coord(k), b[3].Coord(k), 0.5)
  {
  }

  lemma MidCoord(a: Vec3, b: Vec3, k: nat)
    requires k < 3
    ensures Mid(a, b).Coord(k) == 0.5 * (a.Coord(k) + b.Coord(k))
  {
  }

  /** Each half traces its part of the original curve: the first half at t
      is the curve at t/2 and the second half at t is the curve at (1 + t)/2. */
  lemma HalveSubdivides(b: seq<Vec3>, k: nat, t: real)
    requires |b| == 4 && k < 3
    ensures var h := Halve(b).first;
      Bezier(h[0].Coord(k), h[1].Coord(k), h[2].Coord(k), h[3].Coord(k), t)
      == Bezier(b[0].Coord(k), b[1].Coord(k), b[2].Coord(k), b[3].Coord(k), t / 2.0)
    ensures var h := Halve(b).second;
      Bezier(h[0].Coord(k), h[1].Coord(k), h[2].Coord(k), h[3].Coord(k), t)
      == Bezier(b[0].Coord(k), b[1].Coord(k), b[2].Coord(k), b[3].Coord(k), (1.0 + t) / 2.0)
  {
    var b10, b11, b12 := Mid(b[0], b[1]), Mid(b[1], b[2]), Mid(b[2], b[3]);
    var b20, b21 := Mid(b10, b11), Mid(b11, b12);
    MidCoord(b[0], b[1], k);
    MidCoord(b[1], b[2], k);
    MidCoord(b[2], b[3], k);
    MidCoord(b10, b11, k);
    MidCoord(b11, b12, k);
    MidCoord(b20, b21, k);
    HalfLeft(b[0].Coord(k), b[1].Coord(k), b[2].Coord(k), b[3].Coord(k), t);
    HalfRight(b[0].Coord(k), b[1].Coord(k), b[2].Coord(k), b[3].Coord(k), t);
  }

  /** The row of the quarter surface at height v. */
  function Row(surface: seq<Vec3>, v: int): (r: seq<Vec3>)
    requires |surface| == 16 && 0 <= v < 4
    ensures |r| == 4 && forall x :: 0 <= x < 4 ==> r[x] == surface[At(x, v)]
  {
    [surface[At(0, v)], surface[At(1, v)], surface[At(2, v)], surface[At(3, v)]]
  }

  /** Row v of the re-indexed net. */
  function NetRow(net: Net, idx: Indexing, v: int): (r: seq<Vec3>)
    requires IsNet(net) && ValidEdge(idx) && 0 <= v < 4
  {
    [Cell(net, idx, 0, v), Cell(net, idx, 1, v), Cell(net, idx, 2, v), Cell(net, idx, 3, v)]
  }

  /** Writes the four points of row v, leaving the other rows as they were. */
  method WriteRow(s: seq<Vec3>, v: int, row: seq<Vec3>) returns (r: seq<Vec3>)
    requires |s| == 16 && 0 <= v < 4 && |row| == 4
    ensures |r| == 16
    ensures forall x :: 0 <= x < 4 ==> r[At(x, v)] == row[x]
    ensures forall w, x :: 0 <= w < 4 && w != v && 0 <= x < 4 ==> r[At(x, w)] == s[At(x, w)]
  {
    r := s[At(0, v) := row[0]][At(1, v) := row[1]][At(2, v) := row[2]][At(3, v) := row[3]];
    forall w, x | 0 <= w < 4 && 0 <= x < 4 && w != v
      ensures r[At(x, w)] == s[At(x, w)]
    {
      AtBijective(x, w, 0, v);
      AtBijective(x, w, 1, v);
      AtBijective(x, w, 2, v);
      AtBijective(x, w, 3, v);
    }
  }

  /** The de Casteljau loop over the rows of a quarter surface. */
  method Split(surface: seq<Vec3>) returns (surface1: seq<Vec3>, surface2: seq<Vec3>)
    requires |surface| == 16
    ensures |surface1| == 16 && |surface2| == 16
    ensures forall v, x :: 0 <= v < 4 && 0 <= x < 4 ==>
      surface1[At(x, v)] == Halve(Row(surface, v)).first[x] && surface2[At(x, v)] == Halve(Row(surface, v)).second[x]
  {
    surface1 := seq(16, _ => Origin);
    surface2 := seq(16, _ => Origin);
    var v := 0;
    while v < 4
      invariant 0 <= v <= 4 && |surface1| == 16 && |surface2| == 16
      invariant forall w, x :: 0 <= w < v && 0 <= x < 4 ==>
        surface1[At(x, w)] == Halve(Row(surface, w)).first[x] && surface2[At(x, w)] == Halve(Row(surface, w)).second[x]
    {
      var h := Halve(Row(surface, v));
      surface1 := WriteRow(surface1, v, h.first);
      surface2 := WriteRow(surface2, v, h.second);
      v := v + 1;
    }
  }

  /** The adjacent patch prepared for the Gregory patch: re-indexed, then
      every row halved, giving the two quarter surfaces on either side of
      the shared edge's midpoint. */
  method AdjacentSurf(net: Net, idx: Indexing) returns (surface1: seq<Vec3>, surface2: seq<Vec3>)
    requires IsNet(net) && ValidEdge(idx)
    ensures |surface1| == 16 && |surface2| == 16
    ensures forall v, x :: 0 <= v < 4 && 0 <= x < 4 ==>
      surface1[At(x, v)] == Halve(NetRow(net, idx, v)).first[x] && surface2[At(x, v)] == Halve(NetRow(net, idx, v)).second[x]
  {
    var surface := Reindex(net, idx);
    surface1, surface2 := Split(surface);
    forall v | 0 <= v < 4
      ensures Row(surface, v) == NetRow(net, idx, v)
    {
    }
  }
}
