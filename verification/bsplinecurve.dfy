/** A C2 B-spline curve turned into cubic Bézier segments. The curve keeps
    references to its de Boor points, some of which may have expired (the
    point was deleted elsewhere). A rebuild runs a window over the live
    points and emits one Bézier segment per full window. */
module BSplineCurve {
  import opened Common
  import Basis

  /** A rebuilt curve: the de Boor windows of its segments and the four
      Bézier points built for each segment, segment by segment. */
  datatype Build = Build(segments: seq<seq<PointRef>>, bezierPoints: seq<Vec3>)

  /** The live references, in order. */
  function Live(points: seq<PointRef>): (r: seq<PointRef>)
    ensures |r| <= |points|
    ensures forall p :: p in r ==> p.live && p in points
  {
    if |points| == 0 then []
    else if points[0].live then [points[0]] + Live(points[1..])
    else Live(points[1..])
  }

  /** Reference definition: every run of four consecutive elements, in order. */
  function Slide(s: seq<PointRef>): seq<seq<PointRef>> {
    if |s| < 4 then [] else [s[..4]] + Slide(s[1..])
  }

  /** The window step exactly as the editor runs it: push a live point; then,
      whenever the window holds at least four points, trim it to four and
      emit it, even when the point just visited had expired. */
  function WindowsAsWritten(q: seq<PointRef>, rest: seq<PointRef>): (r: seq<seq<PointRef>>)
    requires |q| <= 4
    ensures forall k :: 0 <= k < |r| ==> |r[k]| == 4
    decreases |rest|
  {
    if |rest| == 0 then []
    else
      var q1 := if rest[0].live then q + [rest[0]] else q;
      if |q1| >= 4 then
        var q2 := if |q1| != 4 then q1[1..] else q1;
        [q2] + WindowsAsWritten(q2, rest[1..])
      else WindowsAsWritten(q1, rest[1..])
  }

  /** The rebuild's windows as written: four points each, and the same as the
      corrected rebuild's segments whenever no reference has expired. */
  function RebuildWindowsAsWritten(points: seq<PointRef>): (r: seq<seq<PointRef>>)
    ensures forall k :: 0 <= k < |r| ==> |r[k]| == 4
    ensures (forall j :: 0 <= j < |points| ==> points[j].live) ==> r == Rebuild(points).segments
  {
    if |points| < 4 then []
    else
      AsWrittenAgreesWhenLive([], points);
      WindowsAsWritten([], points)
  }

  /** Over live references only, the two window steps coincide. */
  lemma {:induction false} AsWrittenAgreesWhenLive(q: seq<PointRef>, rest: seq<PointRef>)
    requires |q| <= 4
    ensures (forall j :: 0 <= j < |rest| ==> rest[j].live) ==> WindowsAsWritten(q, rest) == Windows(q, rest)
    decreases |rest|
  {
    if |rest| > 0 && forall j :: 0 <= j < |rest| ==> rest[j].live {
      var q1 := q + [rest[0]];
      assert forall j :: 0 <= j < |rest[1..]| ==> rest[1..][j] == rest[j + 1];
      if |q1| >= 4 {
        AsWrittenAgreesWhenLive(if |q1| != 4 then q1[1..] else q1, rest[1..]);
      } else {
        AsWrittenAgreesWhenLive(q1, rest[1..]);
      }
    }
  }

  /** The window step with expired points skipped entirely. */
  function Windows(q: seq<PointRef>, rest: seq<PointRef>): seq<seq<PointRef>>
    requires |q| <= 4
    decreases |rest|
  {
    if |rest| == 0 then []
    else if !rest[0].live then Windows(q, rest[1..])
    else
      var q1 := q + [rest[0]];
      if |q1| >= 4 then
        var q2 := if |q1| != 4 then q1[1..] else q1;
        [q2] + Windows(q2, rest[1..])
      else Windows(q1, rest[1..])
  }

  /** The four Bézier points of each window, concatenated. */
  function BezierPoints(windows: seq<seq<PointRef>>): (r: seq<Vec3>)
    requires forall k :: 0 <= k < |windows| ==> |windows[k]| == 4
    ensures |r| == 4 * |windows|
    ensures forall k, j :: 0 <= k < |windows| && 0 <= j < 4 ==>
              r[4 * k + j] == Basis.ApplyPoints(Basis.BSplineToBezier, Positions(windows[k]))[j]
  {
    if |windows| == 0 then []
    else Basis.ApplyPoints(Basis.BSplineToBezier, Positions(windows[0])) + BezierPoints(windows[1..])
  }

  function Positions(w: seq<PointRef>): (r: seq<Vec3>)
    ensures |r| == |w|
  {
    seq(|w|, i requires 0 <= i < |w| => w[i].position)
  }

  lemma {:induction false} SlideLength(s: seq<PointRef>)
    ensures |Slide(s)| == if |s| < 4 then 0 else |s| - 3
    ensures forall k :: 0 <= k < |Slide(s)| ==> Slide(s)[k] == s[k..k + 4]
  {
    if |s| >= 4 {
      SlideLength(s[1..]);
      forall k | 1 <= k < |Slide(s)|
        ensures Slide(s)[k] == s[k..k + 4]
      {
        assert Slide(s)[k] == Slide(s[1..])[k - 1];
        assert s[1..][k - 1..k + 3] == s[k..k + 4];
      }
    }
  }

  /** A full window followed by more points starts the run of windows. */
  lemma SlideFull(q: seq<PointRef>, more: seq<PointRef>)
    requires |q| == 4
    ensures Slide(q + more) == [q] + Slide(q[1..] + more)
  {
    var s := q + more;
    assert s[..4] == q;
    assert s[1..] == q[1..] + more;
  }

  /** The corrected window over the remaining references continues the run
      of consecutive quadruples of the live points. */
  lemma {:induction false} WindowsSlide(q: seq<PointRef>, rest: seq<PointRef>)
    requires |q| <= 4
    ensures |q| < 4 ==> Windows(q, rest) == Slide(q + Live(rest))
    ensures |q| == 4 ==> Windows(q, rest) == Slide(q[1..] + Live(rest))
    decreases |rest|
  {
    if |rest| > 0 {
      var p, tail := rest[0], rest[1..];
      if !p.live {
        WindowsSlide(q, tail);
      } else {
        assert Live(rest) == [p] + Live(tail);
        var q1 := q + [p];
        if |q1| >= 4 {
          var q2 := if |q1| != 4 then q1[1..] else q1;
          WindowsSlide(q2, tail);
          assert (if |q| == 4 then q[1..] else q) + Live(rest) == q2 + Live(tail);
          SlideFull(q2, Live(tail));
        } else {
          WindowsSlide(q1, tail);
          assert q + Live(rest) == q1 + Live(tail);
        }
      }
    } else {
      assert Live(rest) == [];
      if |q| == 4 {
        assert |q[1..]| < 4;
      }
    }
  }

  /** Rebuilds the segment list from the stored references, as intended,
      where the code as written emits a full window again after an expired
      reference (see RebuildWindowsAsWritten). Fewer than four stored
      references (live or not) give no segments. */
  function Rebuild(points: seq<PointRef>): (b: Build)
    ensures |points| < 4 ==> b.segments == []
    ensures |b.segments| == if |Live(points)| < 4 then 0 else |Live(points)| - 3
    ensures forall k :: 0 <= k < |b.segments| ==> b.segments[k] == Live(points)[k..k + 4]
    ensures |b.bezierPoints| == 4 * |b.segments|
    ensures forall k, j :: 0 <= k < |b.segments| && 0 <= j < 4 ==>
              b.bezierPoints[4 * k + j] == Basis.ApplyPoints(Basis.BSplineToBezier, Positions(b.segments[k]))[j]
  {
    var windows := if |points| < 4 then [] else Windows([], points);
    WindowsSlide([], points);
    assert [] + Live(points) == Live(points);
    SlideLength(Live(points));
    Build(windows, BezierPoints(windows))
  }

  /** Four live points followed by one expired point: the window loop as
      written emits the same window twice, so the curve gets a second,
      identical segment, while the corrected loop emits one. */
  lemma ExpiredPointDuplicatesSegment(ps: seq<PointRef>)
    requires |ps| == 5 && ps[0].live && ps[1].live && ps[2].live && ps[3].live && !ps[4].live
    ensures |RebuildWindowsAsWritten(ps)| == 2
    ensures RebuildWindowsAsWritten(ps)[0] == RebuildWindowsAsWritten(ps)[1] == ps[..4]
    ensures |Rebuild(ps).segments| == 1
  {
    AsWrittenSteps(ps);
    LiveOfFive(ps);
  }

  lemma LiveOfFive(ps: seq<PointRef>)
    requires |ps| == 5 && ps[0].live && ps[1].live && ps[2].live && ps[3].live && !ps[4].live
    ensures |Live(ps)| == 4
  {
    assert Live(ps[4..]) == [];
    assert Live(ps[3..]) == [ps[3]];
    assert Live(ps[2..]) == ps[2..4];
    assert Live(ps[1..]) == ps[1..4];
  }

  lemma AsWrittenSteps(ps: seq<PointRef>)
    requires |ps| == 5 && ps[0].live && ps[1].live && ps[2].live && ps[3].live && !ps[4].live
    ensures WindowsAsWritten([], ps) == [ps[..4], ps[..4]]
  {
    assert WindowsAsWritten(ps[..4], ps[4..]) == [ps[..4]];
    assert ps[..3] + [ps[3]] == ps[..4] && ps[3..][1..] == ps[4..];
    assert WindowsAsWritten(ps[..3], ps[3..]) == [ps[..4], ps[..4]];
    assert ps[..2] + [ps[2]] == ps[..3] && ps[2..][1..] == ps[3..];
    assert WindowsAsWritten(ps[..2], ps[2..]) == [ps[..4], ps[..4]];
    assert ps[..1] + [ps[1]] == ps[..2] && ps[1..][1..] == ps[2..];
    assert WindowsAsWritten(ps[..1], ps[1..]) == [ps[..4], ps[..4]];
    assert [] + [ps[0]] == ps[..1];
  }
}
