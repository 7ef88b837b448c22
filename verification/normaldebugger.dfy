/** The differential-surface debugger: it draws, for a grid of res_u x res_v
    parameter samples of a surface, the segment from the surface point to
    the point one scaled normal away. Sample (iu, iv) owns the two slots
    2 * (iu * res_v + iv) and the one after it of the segment array. The
    debugger rebuilds when the surface signals a change and disposes itself
    when the surface's topology changes. Sampled positions and normals are
    floating-point geometry: a slot records which sample it holds. */
module NormalDebugger {
  import opened Common
  import Gui
  import Grid

  /** A slot of the segment array: unwritten, the surface point of a
      sample, or the tip of its normal drawn at the given scale. */
  datatype Slot = Unset | Base(at: Grid.Cell) | Tip(at: Grid.Cell, scale: real)

  /** A segment between two slots. */
  datatype Segment = Segment(a: nat, b: nat)

  /** The segment array: its points and its segments. */
  datatype Segments = Segments(points: seq<Slot>, segs: seq<Segment>)

  /** The array after the first k samples of `cells`: sample j wrote its
      base to slot 2j and its tip to slot 2j + 1 and added the segment
      between them; the later slots are untouched. */
  ghost predicate Written(s: Segments, cells: seq<Grid.Cell>, scale: real, k: nat) {
    && k <= |cells| && |s.points| == 2 * |cells| && |s.segs| == k
    && (forall j :: 0 <= j < k ==>
          && s.segs[j] == Segment(2 * j, 2 * j + 1)
          && s.points[2 * j] == Base(cells[j])
          && s.points[2 * j + 1] == Tip(cells[j], scale))
    && (forall i :: 2 * k <= i < |s.points| ==> s.points[i] == Unset)
  }

  /** Writes sample k: its two points and the segment joining them. */
  function AddSample(s: Segments, k: nat, c: Grid.Cell, scale: real): Segments
    requires 2 * k + 1 < |s.points|
  {
    Segments(s.points[2 * k := Base(c)][2 * k + 1 := Tip(c, scale)], s.segs + [Segment(2 * k, 2 * k + 1)])
  }

  /** Writing sample k extends the written prefix by one. */
  lemma AddSampleStep(s: Segments, cells: seq<Grid.Cell>, scale: real, k: nat)
    requires Written(s, cells, scale, k) && k < |cells|
    ensures Written(AddSample(s, k, cells[k], scale), cells, scale, k + 1)
  {
  }

  /** The inner loop: the samples of row iu, at slots 2 * (iu * res_v + iv). */
  method FillRow(s0: Segments, resU: nat, resV: nat, iu: nat, scale: real) returns (s: Segments)
    requires iu < resU && Written(s0, Grid.RowMajor(resV, resU), scale, iu * resV)
    ensures Written(s, Grid.RowMajor(resV, resU), scale, (iu + 1) * resV)
  {
    s := s0;
    var iv := 0;
    Grid.RowMajorLength(resV, resU);
    Grid.MulLe(iu + 1, resU, resV);
    while iv < resV
      invariant iv <= resV && Written(s, Grid.RowMajor(resV, resU), scale, iu * resV + iv)
    {
      var k := iu * resV + iv;
      Grid.RowMajorAt(resV, resU, iu, iv);
      AddSampleStep(s, Grid.RowMajor(resV, resU), scale, k);
      s := AddSample(s, k, Grid.Cell(iu, iv), scale);
      iv := iv + 1;
    }
    assert iu * resV + resV == (iu + 1) * resV;
  }

  /** The fresh array: every slot unwritten, no segment. */
  lemma NothingWritten(cells: seq<Grid.Cell>, scale: real)
    ensures Written(Segments(seq(2 * |cells|, _ => Unset), []), cells, scale, 0)
  {
  }

  /** Builds the segment array of a res_u x res_v sampling: 2 * res_u * res_v
      points, sample (iu, iv) in slots 2 * (iu * res_v + iv) and the next,
      one segment per sample, in loop order. */
  method BuildSegments(resU: nat, resV: nat, scale: real) returns (s: Segments)
    ensures Written(s, Grid.RowMajor(resV, resU), scale, resU * resV)
  {
    Grid.RowMajorLength(resV, resU);
    NothingWritten(Grid.RowMajor(resV, resU), scale);
    s := Segments(seq(2 * |Grid.RowMajor(resV, resU)|, _ => Unset), []);
    var iu := 0;
    while iu < resU
      invariant iu <= resU && Written(s, Grid.RowMajor(resV, resU), scale, iu * resV)
    {
      s := FillRow(s, resU, resV, iu, scale);
      iu := iu + 1;
    }
  }

  /** Sample (iu, iv) holds slots b = 2 * (iu * res_v + iv) and b + 1, two
      distinct slots of the array, joined by the segment (b, b + 1); no
      other sample uses them. */
  lemma SampleSlots(s: Segments, resU: nat, resV: nat, scale: real, iu: nat, iv: nat)
    requires Written(s, Grid.RowMajor(resV, resU), scale, resU * resV)
    requires iu < resU && iv < resV
    ensures var b := 2 * (iu * resV + iv);
      && b + 1 < |s.points| == 2 * resU * resV
      && s.points[b] == Base(Grid.Cell(iu, iv)) && s.points[b + 1] == Tip(Grid.Cell(iu, iv), scale)
      && Segment(b, b + 1) in s.segs
  {
    Grid.RowMajorAt(resV, resU, iu, iv);
    assert 2 * resU * resV == 2 * (resU * resV);
    assert s.segs[iu * resV + iv] == Segment(2 * (iu * resV + iv), 2 * (iu * resV + iv) + 1);
  }

  lemma SegmentsDisjoint(s: Segments, cells: seq<Grid.Cell>, scale: real, k: nat, j1: nat, j2: nat)
    requires Written(s, cells, scale, k) && j1 < k && j2 < k && j1 != j2
    ensures s.segs[j1].a != s.segs[j2].a && s.segs[j1].a != s.segs[j2].b && s.segs[j1].b != s.segs[j2].b
  {
  }

  // ---------------------------------------------------------------------
  // The debugger object.

  datatype Debugger = Debugger(resU: int, resV: int, scale: real, queued: bool, signalsSetup: bool,
                               listening: bool, disposed: bool, segments: Option<Segments>, surfaceId: nat)

  /** Rebuilds the segment array from the surface when it is still alive;
      with the surface gone the old array is kept, and if there is none the
      rebuild dereferences a null array. */
  function Rebuild(d: Debugger, surfaceLive: bool, built: Segments): (r: Result<Debugger, string>)
    ensures r.Failure? <==> !surfaceLive && d.segments.None?
    ensures r.Success? && surfaceLive ==> r.value == d.(segments := Some(built))
    ensures r.Success? && !surfaceLive ==> r.value == d
  {
    if surfaceLive then Success(d.(segments := Some(built)))
    else if d.segments.None? then Failure("null segment array")
    else Success(d)
  }

  /** A new debugger: 25 x 25 samples, unit scale, nothing queued, signals
      not yet wired, and the segment array built at once. `build` stands
      for BuildSegments: the array of a res_u x res_v sampling at a scale. */
  function New(surfaceLive: bool, surfaceId: nat, build: (nat, nat, real) -> Segments): (r: Result<Debugger, string>)
    ensures r.Failure? <==> !surfaceLive
    ensures r.Success? ==> && r.value.resU == 25 && r.value.resV == 25 && r.value.scale == 1.0
                           && !r.value.queued && !r.value.signalsSetup && !r.value.disposed
                           && r.value.segments == Some(build(25, 25, 1.0))
  {
    Rebuild(Debugger(25, 25, 1.0, false, false, false, false, None, surfaceId), surfaceLive, build(25, 25, 1.0))
  }

  /** The resolution setters store their value; they queue nothing. */
  function SetRes(d: Debugger, resU: int, resV: int): (r: Debugger)
    ensures r.resU == resU && r.resV == resV
    ensures r.(resU := d.resU, resV := d.resV) == d
  {
    d.(resU := resU, resV := resV)
  }

  /** A frame: the resolutions are clamped to [0, 64], the surface's signals
      are listened to once, and a queued rebuild runs, built from the
      clamped resolutions, and is dequeued. */
  function Integrate(d: Debugger, surfaceLive: bool, build: (nat, nat, real) -> Segments): (r: Result<Debugger, string>)
    ensures r.Failure? <==> d.queued && !surfaceLive && d.segments.None?
    ensures r.Success? ==> && 0 <= r.value.resU <= 64 && 0 <= r.value.resV <= 64
                           && !r.value.queued && r.value.signalsSetup
                           && r.value.disposed == d.disposed && r.value.scale == d.scale
    ensures r.Success? && 0 <= d.resU <= 64 && 0 <= d.resV <= 64 ==> r.value.resU == d.resU && r.value.resV == d.resV
    ensures r.Success? && !d.signalsSetup ==> r.value.listening == surfaceLive
    ensures r.Success? && d.queued && surfaceLive ==> r.value.segments == Some(build(r.value.resU, r.value.resV, d.scale))
    ensures r.Success? && !d.queued ==> r.value.segments == d.segments
  {
    var w := Listen(ClampRes(d), surfaceLive);
    if w.queued then
      match Rebuild(w, surfaceLive, build(w.resU, w.resV, w.scale))
      case Success(v) => Success(v.(queued := false))
      case Failure(e) => Failure(e)
    else Success(w)
  }

  /** Clamps both resolutions to [0, 64]. */
  function ClampRes(d: Debugger): (r: Debugger)
    ensures 0 <= r.resU <= 64 && 0 <= r.resV <= 64
    ensures 0 <= d.resU <= 64 ==> r.resU == d.resU
    ensures 0 <= d.resV <= 64 ==> r.resV == d.resV
    ensures r.(resU := d.resU, resV := d.resV) == d
  {
    d.(resU := Gui.Clamp(d.resU, 0, 64), resV := Gui.Clamp(d.resV, 0, 64))
  }

  /** Listens to the surface's signals the first time round; the surface
      may already be gone, and then nothing is listened to. */
  function Listen(d: Debugger, surfaceLive: bool): (r: Debugger)
    ensures r.signalsSetup
    ensures !d.signalsSetup ==> r.listening == surfaceLive
    ensures r.(signalsSetup := d.signalsSetup, listening := d.listening) == d
    ensures d.signalsSetup ==> r == d
  {
    if !d.signalsSetup then d.(listening := surfaceLive, signalsSetup := true) else d
  }

  /** What the settings panel did this frame. */
  datatype Input = Input(open: bool, resU: Option<int>, resV: Option<int>, scale: Option<real>)

  /** The settings panel: an edited resolution or scale queues a rebuild,
      and an edited scale is clamped to [0.1, 5]. */
  function Configure(d: Debugger, input: Input): (r: Debugger)
    ensures !input.open ==> r == d
    ensures input.open ==> (r.queued <==> d.queued || input.resU.Some? || input.resV.Some? || input.scale.Some?)
    ensures input.open && input.scale.Some? ==> 0.1 <= r.scale <= 5.0
    ensures input.open && input.scale.Some? && 0.1 <= input.scale.value <= 5.0 ==> r.scale == input.scale.value
    ensures input.open && input.scale.None? ==> r.scale == d.scale
    ensures r.disposed == d.disposed && r.segments == d.segments
  {
    if !input.open then d
    else
      var a := if input.resU.Some? then d.(resU := input.resU.value, queued := true) else d;
      var b := if input.resV.Some? then a.(resV := input.resV.value, queued := true) else a;
      if input.scale.Some? then b.(scale := Gui.ClampReal(input.scale.value, 0.1, 5.0), queued := true) else b
  }

  /** The signals a surface sends. */
  datatype Signal = Changed | Moved | Rotated | Scaled | Topology | Other

  /** A change of the surface's shape or placement queues a rebuild; a
      change of its topology disposes the debugger. */
  function OnSignal(d: Debugger, sig: Signal): (r: Debugger)
    ensures sig == Topology ==> r == d.(disposed := true)
    ensures sig in {Changed, Moved, Rotated, Scaled} ==> r == d.(queued := true)
    ensures sig == Other ==> r == d
  {
    match sig
    case Topology => d.(disposed := true)
    case Other => d
    case _ => d.(queued := true)
  }

  /** Deleting the watched surface disposes the debugger. */
  function OnObjectDeleted(d: Debugger, id: nat): (r: Debugger)
    ensures r.disposed <==> d.disposed || id == d.surfaceId
    ensures r.(disposed := d.disposed) == d
  {
    if id == d.surfaceId then d.(disposed := true) else d
  }

  /** A debugger that was built once never fails to rebuild: the array it
      falls back on exists; and a queued change reaches the array at the
      next frame. */
  lemma SignalReachesBuffer(d: Debugger, sig: Signal, surfaceLive: bool, build: (nat, nat, real) -> Segments)
    requires d.segments.Some? && sig in {Changed, Moved, Rotated, Scaled}
    ensures Integrate(OnSignal(d, sig), surfaceLive, build).Success?
    ensures var r := Integrate(OnSignal(d, sig), surfaceLive, build).value;
      !r.queued && (surfaceLive ==> r.segments == Some(build(r.resU, r.resV, r.scale)))
  {
  }

  /** An edit in the panel reaches the array at the next frame, built at
      the clamped resolution. */
  lemma EditReachesBuffer(d: Debugger, input: Input, build: (nat, nat, real) -> Segments)
    requires input.open && input.resU.Some? && d.segments.Some?
    ensures Integrate(Configure(d, input), true, build).Success?
    ensures var r := Integrate(Configure(d, input), true, build).value;
      && r.resU == Gui.Clamp(input.resU.value, 0, 64)
      && r.segments == Some(build(r.resU, r.resV, r.scale))
  {
  }
}
