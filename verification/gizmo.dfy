/** The translation gizmo: its mode, which axis arrow a mouse ray picks, and
    the index buffer of the arrow mesh (a tip vertex, three rings of `res`
    vertices and a bottom vertex). The ray/arrow distance tests are floating
    point and enter as three booleans. */
module Gizmo {

  datatype Mode = Translation | Rotation | Scale

  datatype Action = NoAction | TranslateX | TranslateY | TranslateZ

  datatype Gizmo = Gizmo(mode: Mode)

  /** A new gizmo starts in translation mode. */
  function Create(): (g: Gizmo)
    ensures g.mode == Translation
  {
    Gizmo(Translation)
  }

  /** `set_mode` as written: its body only evaluates the member, so the mode
      never changes. */
  function SetModeAsWritten(g: Gizmo, mode: Mode): (r: Gizmo)
    ensures r.mode == g.mode
  {
    g
  }

  /** `set_mode` as intended: store the requested mode. */
  function SetMode(g: Gizmo, mode: Mode): (r: Gizmo)
    ensures r.mode == mode
    ensures mode == g.mode ==> r == g
  {
    Gizmo(mode)
  }

  /** Asking for rotation mode leaves the gizmo in translation mode, where
      the intended setter switches it. */
  lemma SetModeIsIgnored()
    ensures SetModeAsWritten(Create(), Rotation).mode == Translation
    ensures SetMode(Create(), Rotation).mode == Rotation
  {
  }

  /** Only a translation gizmo reacts; x wins over y, and y over z. */
  function GetAction(g: Gizmo, hitX: bool, hitY: bool, hitZ: bool): (a: Action)
    ensures g.mode != Translation ==> a == NoAction
    ensures g.mode == Translation ==>
      && (a == TranslateX <==> hitX)
      && (a == TranslateY <==> !hitX && hitY)
      && (a == TranslateZ <==> !hitX && !hitY && hitZ)
      && (a == NoAction <==> !hitX && !hitY && !hitZ)
  {
    if g.mode == Translation then
      if hitX then TranslateX else if hitY then TranslateY else if hitZ then TranslateZ else NoAction
    else NoAction
  }

  /** The arrow's ring resolution. */
  const Res: nat := 20

  function NumVertices(res: nat): nat {
    3 * res + 2
  }

  /** First vertex of ring k (1, 2 or 3); vertex 0 is the tip. */
  function RingStart(res: nat, k: nat): nat
    requires 1 <= k <= 3
  {
    if k == 1 then 1 else if k == 2 then 1 + res else 1 + 2 * res
  }

  /** Triangle i of the tip cap: two neighbours on ring 1 and the tip. */
  function TipTriangle(res: nat, i: nat): seq<nat>
    requires res > 0
  {
    var b1 := RingStart(res, 1);
    [b1 + (i + 1) % res, b1 + i, 0]
  }

  /** Triangle i of the bottom cap: two neighbours on ring 3 and the bottom vertex. */
  function BottomTriangle(res: nat, i: nat): seq<nat>
    requires res > 0
  {
    var b3 := RingStart(res, 3);
    [b3 + (i + 1) % res, NumVertices(res) - 1, b3 + i]
  }

  /** Quad i between ring `lo` and the next ring `hi`, as two triangles. */
  function BandQuad(res: nat, hi: nat, lo: nat, i: nat): seq<nat>
    requires res > 0
  {
    var next := (i + 1) % res;
    [hi + i, lo + i, lo + next, hi + next, hi + i, lo + next]
  }

  /** The triangle i of a cap. */
  function CapTriangle(res: nat, tip: bool, i: nat): seq<nat>
    requires res > 0
  {
    if tip then TipTriangle(res, i) else BottomTriangle(res, i)
  }

  /** The first n triangles of a cap. */
  function Cap(res: nat, tip: bool, n: nat): (r: seq<nat>)
    requires res > 0
    ensures |r| == 3 * n
    ensures forall i, c :: 0 <= i < n && 0 <= c < 3 ==> r[3 * i + c] == CapTriangle(res, tip, i)[c]
  {
    if n == 0 then [] else Cap(res, tip, n - 1) + CapTriangle(res, tip, n - 1)
  }

  /** The first n quads of the band between two rings. */
  function Band(res: nat, hi: nat, lo: nat, n: nat): (r: seq<nat>)
    requires res > 0
    ensures |r| == 6 * n
    ensures forall i, c :: 0 <= i < n && 0 <= c < 6 ==> r[6 * i + c] == BandQuad(res, hi, lo, i)[c]
  {
    if n == 0 then [] else Band(res, hi, lo, n - 1) + BandQuad(res, hi, lo, n - 1)
  }

  /** Whether vertex v lies on the ring starting at b. */
  predicate OnRing(res: nat, b: nat, v: nat) {
    b <= v < b + res
  }

  /** Every entry of the first n cap triangles is the cap's apex or a vertex
      of its ring. */
  lemma CapVertices(res: nat, tip: bool, n: nat)
    requires 0 < res && n <= res
    ensures forall j :: 0 <= j < |Cap(res, tip, n)| ==>
      var v := Cap(res, tip, n)[j];
      if tip then v == 0 || OnRing(res, RingStart(res, 1), v)
      else v == NumVertices(res) - 1 || OnRing(res, RingStart(res, 3), v)
  {
    var r := Cap(res, tip, n);
    forall j | 0 <= j < |r|
      ensures if tip then r[j] == 0 || OnRing(res, RingStart(res, 1), r[j])
              else r[j] == NumVertices(res) - 1 || OnRing(res, RingStart(res, 3), r[j])
    {
      var i, c := j / 3, j % 3;
      assert j == 3 * i + c;
      assert r[j] == CapTriangle(res, tip, i)[c];
    }
  }

  /** Every entry of a band's quads lies on one of its two rings. */
  lemma BandVertices(res: nat, hi: nat, lo: nat, n: nat)
    requires 0 < res && n <= res
    ensures forall j :: 0 <= j < |Band(res, hi, lo, n)| ==>
      OnRing(res, hi, Band(res, hi, lo, n)[j]) || OnRing(res, lo, Band(res, hi, lo, n)[j])
  {
    var r := Band(res, hi, lo, n);
    forall j | 0 <= j < |r|
      ensures OnRing(res, hi, r[j]) || OnRing(res, lo, r[j])
    {
      var i, c := j / 6, j % 6;
      assert j == 6 * i + c;
      assert r[j] == BandQuad(res, hi, lo, i)[c];
    }
  }

  /** The arrow's index buffer: tip cap, band from ring 1 to ring 2, band
      from ring 2 to ring 3, bottom cap. */
  function ArrowIndices(res: nat): (r: seq<nat>)
    requires res > 0
    ensures |r| == 18 * res
    ensures forall j :: 0 <= j < |r| ==> r[j] < NumVertices(res)
  {
    var tip := Cap(res, true, res);
    var upper := Band(res, RingStart(res, 2), RingStart(res, 1), res);
    var lower := Band(res, RingStart(res, 3), RingStart(res, 2), res);
    var bottom := Cap(res, false, res);
    CapVertices(res, true, res);
    CapVertices(res, false, res);
    BandVertices(res, RingStart(res, 2), RingStart(res, 1), res);
    BandVertices(res, RingStart(res, 3), RingStart(res, 2), res);
    tip + upper + lower + bottom
  }

  /** The tip cap comes first and uses vertex 0 as every triangle's third
      corner; the bottom cap comes last and uses the last vertex as every
      triangle's middle corner. */
  lemma ArrowCaps(res: nat, i: nat)
    requires 0 < res && i < res
    ensures ArrowIndices(res)[3 * i + 2] == 0
    ensures ArrowIndices(res)[15 * res + 3 * i + 1] == NumVertices(res) - 1
  {
    var tip := Cap(res, true, res);
    var mid := Band(res, RingStart(res, 2), RingStart(res, 1), res) + Band(res, RingStart(res, 3), RingStart(res, 2), res);
    var bottom := Cap(res, false, res);
    assert ArrowIndices(res) == tip + mid + bottom;
    assert |tip| == 3 * res && |mid| == 12 * res;
    assert (tip + mid + bottom)[3 * i + 2] == tip[3 * i + 2] == CapTriangle(res, true, i)[2];
    assert (tip + mid + bottom)[15 * res + 3 * i + 1] == bottom[3 * i + 1] == CapTriangle(res, false, i)[1];
  }

  /** The arrow mesh the gizmo builds: 62 vertices (186 coordinates) and 360 indices. */
  lemma ArrowMeshSize()
    ensures NumVertices(Res) == 62 && 3 * NumVertices(Res) == 186
    ensures |ArrowIndices(Res)| == 360
  {
  }
}
