/** The surface builder template: the settings panel that shapes a new
    surface before it is added to the scene. It keeps the patch counts, the
    cylinder radius and the build mode, and a flag saying the preview must
    be rebuilt; every edit raises the flag and the next frame rebuilds the
    preview with the current mode and lowers it. */
module SurfaceTemplate {
  import opened Common
  import Gui

  /** The three shapes the builder can lay the control net out in. */
  datatype Mode = Default | Cylinder | Hat

  datatype Template = Template(patchesX: int, patchesY: int, radius: real, mode: Mode,
                               comboItem: int, rebuild: bool, added: bool)

  /** The patch counts arrive as 32-bit unsigned values and are stored in
      signed ints. */
  function ToSigned(u: nat): (r: int)
    requires u < WordModulus
    ensures -WordModulus / 2 <= r < WordModulus / 2
    ensures r % WordModulus == u
  {
    if u < WordModulus / 2 then u else u - WordModulus
  }

  /** A new template: the default shape, radius 2, nothing added yet, and a
      preview still to be built. */
  function New(patchesX: nat, patchesY: nat): (t: Template)
    requires patchesX < WordModulus && patchesY < WordModulus
    ensures t.mode == Default && t.rebuild && !t.added && t.radius == 2.0 && t.comboItem == 0
    ensures patchesX < WordModulus / 2 ==> t.patchesX == patchesX
    ensures patchesY < WordModulus / 2 ==> t.patchesY == patchesY
  {
    Template(ToSigned(patchesX), ToSigned(patchesY), 2.0, Default, 0, true, false)
  }

  // ---------------------------------------------------------------------
  // Setters: each stores its value and asks for a rebuild.

  function SetPatchesX(t: Template, v: int): (r: Template)
    ensures r.patchesX == v && r.rebuild
    ensures r.(patchesX := t.patchesX, rebuild := t.rebuild) == t
  {
    t.(patchesX := v, rebuild := true)
  }

  function SetPatchesY(t: Template, v: int): (r: Template)
    ensures r.patchesY == v && r.rebuild
    ensures r.(patchesY := t.patchesY, rebuild := t.rebuild) == t
  {
    t.(patchesY := v, rebuild := true)
  }

  function SetRadius(t: Template, v: real): (r: Template)
    ensures r.radius == v && r.rebuild
    ensures r.(radius := t.radius, rebuild := t.rebuild) == t
  {
    t.(radius := v, rebuild := true)
  }

  function SetBuildMode(t: Template, m: Mode): (r: Template)
    ensures r.mode == m && r.rebuild
    ensures r.(mode := t.mode, rebuild := t.rebuild) == t
  {
    t.(mode := m, rebuild := true)
  }

  /** Stores exactly the given flag, lowering it as well as raising it. */
  function SetRebuildNeeded(t: Template, b: bool): (r: Template)
    ensures r.rebuild == b
    ensures r.(rebuild := t.rebuild) == t
  {
    t.(rebuild := b)
  }

  // ---------------------------------------------------------------------
  // The frame update.

  /** The template after a frame, and the mode the preview was rebuilt
      with, if it was. */
  datatype Integrated = Integrated(t: Template, rebuilt: Option<Mode>)

  /** Rebuilds the preview with the current mode when a rebuild is pending,
      then lowers the flag. */
  function Integrate(t: Template): (r: Integrated)
    ensures r.rebuilt.Some? <==> t.rebuild
    ensures r.rebuilt.Some? ==> r.rebuilt.value == t.mode
    ensures !r.t.rebuild && r.t.(rebuild := t.rebuild) == t
  {
    if t.rebuild then Integrated(t.(rebuild := false), Some(t.mode)) else Integrated(t, None)
  }

  /** A frame after a frame rebuilds nothing. */
  lemma IntegrateSettles(t: Template)
    ensures Integrate(Integrate(t).t).rebuilt == None
    ensures Integrate(Integrate(t).t).t == Integrate(t).t
  {
  }

  /** Every setter's value reaches the next rebuild, built in the mode
      current at that frame; clearing the flag by hand cancels it. */
  lemma EditsReachTheBuilder(t: Template, px: int, py: int, radius: real, m: Mode)
    ensures Integrate(SetPatchesX(t, px)).rebuilt == Some(t.mode)
    ensures Integrate(SetPatchesY(t, py)).rebuilt == Some(t.mode)
    ensures Integrate(SetRadius(t, radius)).rebuilt == Some(t.mode)
    ensures Integrate(SetBuildMode(t, m)).rebuilt == Some(m)
    ensures Integrate(SetRebuildNeeded(t, false)).rebuilt == None
  {
  }

  // ---------------------------------------------------------------------
  // The settings panel.

  /** The shape the combo box's item stands for. */
  function ModeOf(item: int): (m: Mode)
    ensures m == Cylinder <==> item == 1
    ensures m == Hat <==> item == 2
  {
    if item == 1 then Cylinder else if item == 2 then Hat else Default
  }

  /** What the user did in the panel this frame: whether it was open, the
      combo item picked, the new patch counts and radius typed in, and
      whether "Create Surface" was pressed. */
  datatype Input = Input(open: bool, combo: Option<int>, patchesX: Option<int>, patchesY: Option<int>,
                         radius: Option<real>, create: bool)

  /** The panel without any edit. */
  const Idle: Input := Input(true, None, None, None, None, false)

  /** The template after the panel, and whether the surface is to be added
      to the scene. */
  datatype Configured = Configured(t: Template, addToScene: bool)

  function Edited<T>(current: T, edit: Option<T>): T {
    if edit.Some? then edit.value else current
  }

  /** The lower bound on patches across: a cylinder needs three. */
  function MinPatchesX(m: Mode): int {
    if m == Cylinder then 3 else 1
  }

  /** The combo box: a picked item selects its shape, asking for a rebuild
      only when the shape changes. */
  function PickShape(t: Template, combo: Option<int>): (r: Template)
    ensures r.mode == (if combo.Some? then ModeOf(combo.value) else t.mode)
    ensures r.comboItem == Edited(t.comboItem, combo)
    ensures r.rebuild <==> t.rebuild || r.mode != t.mode
    ensures r.(mode := t.mode, comboItem := t.comboItem, rebuild := t.rebuild) == t
  {
    if combo.Some? then
      var c := t.(comboItem := combo.value);
      if ModeOf(combo.value) != t.mode then c.(rebuild := true, mode := ModeOf(combo.value)) else c
    else t
  }

  /** The input fields: typed patch counts ask for a rebuild; the radius
      field exists in cylinder mode only. */
  function TypeValues(t: Template, input: Input): (r: Template)
    ensures r.patchesX == Edited(t.patchesX, input.patchesX)
    ensures r.patchesY == Edited(t.patchesY, input.patchesY)
    ensures r.radius == if t.mode == Cylinder then Edited(t.radius, input.radius) else t.radius
    ensures r.rebuild <==> t.rebuild || input.patchesX.Some? || input.patchesY.Some? || (t.mode == Cylinder && input.radius.Some?)
    ensures r.(patchesX := t.patchesX, patchesY := t.patchesY, radius := t.radius, rebuild := t.rebuild) == t
  {
    var t2 := if input.patchesX.Some? then t.(patchesX := input.patchesX.value, rebuild := true) else t;
    var t3 := if input.patchesY.Some? then t2.(patchesY := input.patchesY.value, rebuild := true) else t2;
    if t3.mode == Cylinder && input.radius.Some? then t3.(radius := input.radius.value, rebuild := true) else t3
  }

  /** The clamps that close the panel: they apply every frame, whether or
      not a value was edited, and raise no rebuild. */
  function ClampAll(t: Template): (r: Template)
    ensures MinPatchesX(t.mode) <= r.patchesX <= 15 && 1 <= r.patchesY <= 15 && 0.5 <= r.radius <= 4.0
    ensures MinPatchesX(t.mode) <= t.patchesX <= 15 ==> r.patchesX == t.patchesX
    ensures 1 <= t.patchesY <= 15 ==> r.patchesY == t.patchesY
    ensures 0.5 <= t.radius <= 4.0 ==> r.radius == t.radius
    ensures r.(patchesX := t.patchesX, patchesY := t.patchesY, radius := t.radius) == t
  {
    t.(patchesX := Gui.Clamp(t.patchesX, MinPatchesX(t.mode), 15),
       patchesY := Gui.Clamp(t.patchesY, 1, 15),
       radius := Gui.ClampReal(t.radius, 0.5, 4.0))
  }

  /** The whole panel, drawn only when its header is open. */
  function Configure(t: Template, input: Input): (r: Configured)
    ensures !input.open ==> r == Configured(t, false)
    ensures input.open ==> && r.t.mode == (if input.combo.Some? then ModeOf(input.combo.value) else t.mode)
                           && r.t.comboItem == Edited(t.comboItem, input.combo)
                           && r.addToScene == input.create
                           && r.t.added == t.added
    ensures input.open ==>
      (r.t.rebuild <==> t.rebuild || r.t.mode != t.mode || input.patchesX.Some? || input.patchesY.Some?
                        || (r.t.mode == Cylinder && input.radius.Some?))
    ensures input.open ==> && MinPatchesX(r.t.mode) <= r.t.patchesX <= 15
                           && 1 <= r.t.patchesY <= 15
                           && 0.5 <= r.t.radius <= 4.0
    ensures input.open ==>
      var px := Edited(t.patchesX, input.patchesX);
      MinPatchesX(r.t.mode) <= px <= 15 ==> r.t.patchesX == px
    ensures input.open ==>
      var py := Edited(t.patchesY, input.patchesY);
      1 <= py <= 15 ==> r.t.patchesY == py
  {
    if !input.open then Configured(t, false)
    else Configured(ClampAll(TypeValues(PickShape(t, input.combo), input)), input.create)
  }

  /** An open panel left alone settles at once: a second idle frame changes
      nothing, and an idle frame raises no rebuild of its own. */
  lemma IdlePanelIsStable(t: Template)
    ensures Configure(Configure(t, Idle).t, Idle).t == Configure(t, Idle).t
    ensures Configure(t, Idle).t.rebuild == t.rebuild
  {
    var c := Configure(t, Idle).t;
    Gui.ClampIdempotent(t.patchesX, MinPatchesX(t.mode), 15);
    Gui.ClampIdempotent(t.patchesY, 1, 15);
    Gui.ClampRealIdempotent(t.radius, 0.5, 4.0);
  }

  /** Picking the shape already in use asks for no rebuild. */
  lemma SameShapeNoRebuild(t: Template, item: int)
    requires !t.rebuild && ModeOf(item) == t.mode
    ensures !Configure(t, Idle.(combo := Some(item))).t.rebuild
  {
  }

  // ---------------------------------------------------------------------
  // Runs of operations.

  /** The operations the template offers. */
  datatype Op =
    | SetX(px: int) | SetY(py: int) | SetR(radius: real) | SetMode(m: Mode) | SetFlag(b: bool)
    | Panel(input: Input) | Frame

  function Step(t: Template, op: Op): Template {
    match op
    case SetX(v) => SetPatchesX(t, v)
    case SetY(v) => SetPatchesY(t, v)
    case SetR(v) => SetRadius(t, v)
    case SetMode(m) => SetBuildMode(t, m)
    case SetFlag(b) => SetRebuildNeeded(t, b)
    case Panel(input) => Configure(t, input).t
    case Frame => Integrate(t).t
  }

  function Run(t: Template, ops: seq<Op>): Template
    decreases |ops|
  {
    if |ops| == 0 then t else Run(Step(t, ops[0]), ops[1..])
  }

  /** Nothing the template does marks it added: the flag it is built with
      stays false, whatever runs. */
  lemma {:induction false} NeverAdded(t: Template, ops: seq<Op>)
    ensures Run(t, ops).added == t.added
    decreases |ops|
  {
    if |ops| > 0 {
      NeverAdded(Step(t, ops[0]), ops[1..]);
    }
  }

  /** Whatever runs, a frame leaves no rebuild pending. */
  lemma FrameClears(t: Template, ops: seq<Op>)
    ensures !Run(t, ops + [Frame]).rebuild
  {
    RunAppend(t, ops, Frame);
  }

  lemma {:induction false} RunAppend(t: Template, ops: seq<Op>, op: Op)
    ensures Run(t, ops + [op]) == Step(Run(t, ops), op)
    decreases |ops|
  {
    if |ops| == 0 {
      assert ops + [op] == [op];
    } else {
      assert (ops + [op])[1..] == ops[1..] + [op];
      RunAppend(Step(t, ops[0]), ops[1..], op);
    }
  }
}
