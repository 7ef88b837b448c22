/** The editor's transform tools. A tool is created for the current
    selection and remembers the selection's transform at that moment (its
    translation for the translation tool, its Euler angles for the rotation
    tool); it is disposable once finished, and on destruction it puts the
    remembered transform back unless the edit was applied. The selection's
    current transform is passed in and out of each event. */
module Tools {
  import opened Common

  /** Key and button codes of the windowing library. */
  const Release: int := 0
  const Press: int := 1
  const KeyEscape: int := 256
  const KeyR: int := 82
  const KeyS: int := 83
  const KeyT: int := 84
  const KeyX: int := 88
  const KeyY: int := 89
  const KeyZ: int := 90
  const MouseLeft: int := 0

  const KeyCancel: int := KeyEscape
  const KeyTranslate: int := KeyT
  const KeyRotate: int := KeyR

  /** The plain tool base and the two concrete tools. */
  datatype Kind = Base | Translation | Rotation

  datatype Axis = NoAxis | AxisX | AxisY | AxisZ

  /** A tool: the selected object (by id) and its transform when the tool was
      created, the axis lock, and whether the edit was applied. */
  datatype Tool = Tool(kind: Kind, disposable: bool, selection: Option<nat>, original: Vec3, axisLock: Axis, apply: bool)

  /** What an event handler returns: the tool afterwards, whether it consumed
      the event, and the selection's transform afterwards. */
  datatype Outcome = Outcome(tool: Tool, handled: bool, value: Vec3)

  /** A concrete tool over the current selection, holding `value`, the
      selection's current transform; with nothing selected it is disposable
      from the start. A bare base tool has no selection and is not
      disposable. */
  function Create(kind: Kind, selection: Option<nat>, value: Vec3): (t: Tool)
    ensures t.kind == kind && !t.apply && t.axisLock == NoAxis
    ensures kind == Base ==> !t.disposable && t.selection == None
    ensures kind != Base ==> t.selection == selection && (t.disposable <==> selection == None)
    ensures kind != Base && selection != None ==> t.original == value
  {
    if kind == Base then Tool(Base, false, None, value, NoAxis, false)
    else if selection == None then Tool(kind, true, None, value, NoAxis, false)
    else Tool(kind, false, selection, value, NoAxis, false)
  }

  function Dispose(t: Tool): Tool {
    t.(disposable := true)
  }

  /** The axis a key locks, if it is one of X, Y, Z. */
  function AxisOf(key: int): (a: Axis)
    ensures a == NoAxis <==> key != KeyX && key != KeyY && key != KeyZ
  {
    if key == KeyX then AxisX else if key == KeyY then AxisY else if key == KeyZ then AxisZ else NoAxis
  }

  /** A key event. The base tool disposes itself on release of Escape and
      never consumes the event. A concrete tool without a selection ignores
      the event; with one it consumes every event: releasing X, Y or Z puts
      the original transform back and locks that axis, releasing Escape
      disposes the tool. */
  function OnKeyEvent(t: Tool, key: int, action: int, value: Vec3): (o: Outcome)
    ensures t.kind == Base ==> !o.handled && o.value == value
    ensures t.kind == Base ==> (o.tool.disposable <==> t.disposable || (action == Release && key == KeyCancel))
    ensures t.kind != Base ==> (o.handled <==> t.selection != None)
    ensures t.kind != Base && t.selection != None && action == Release && AxisOf(key) != NoAxis ==>
      o.value == t.original && o.tool.axisLock == AxisOf(key)
    ensures t.kind != Base && t.selection != None && action == Release && key == KeyCancel ==> o.tool.disposable
    ensures !(t.kind != Base && t.selection != None && action == Release && AxisOf(key) != NoAxis) ==>
      o.value == value && o.tool.axisLock == t.axisLock
  {
    if t.kind == Base then
      Outcome(if action == Release && key == KeyCancel then Dispose(t) else t, false, value)
    else if t.selection == None then
      Outcome(t, false, value)
    else if action == Release && AxisOf(key) != NoAxis then
      Outcome(t.(axisLock := AxisOf(key)), true, t.original)
    else if action == Release && key == KeyCancel then
      Outcome(Dispose(t), true, value)
    else
      Outcome(t, true, value)
  }

  /** A mouse-button event. A concrete tool consumes every button event, and
      a left press with a selection applies the edit and finishes the tool;
      the base tool consumes none. */
  function OnMouseButton(t: Tool, button: int, action: int): (o: Outcome)
    ensures o.handled <==> t.kind != Base
    ensures o.tool.apply <==> t.apply || (t.kind != Base && action == Press && button == MouseLeft && t.selection != None)
    ensures o.tool.disposable <==> t.disposable || (t.kind != Base && action == Press && button == MouseLeft && t.selection != None)
  {
    if t.kind != Base && action == Press && button == MouseLeft && t.selection != None then
      Outcome(Dispose(t.(apply := true)), true, Origin)
    else
      Outcome(t, t.kind != Base, Origin)
  }

  /** A frame update. A concrete tool without a selection disposes itself
      and declines the update; with one it moves the selection to `moved`,
      the transform the mouse drag produces, and consumes the update. */
  function OnUpdate(t: Tool, value: Vec3, moved: Vec3): (o: Outcome)
    ensures o.handled <==> t.kind != Base && t.selection != None
    ensures o.tool.disposable <==> t.disposable || (t.kind != Base && t.selection == None)
    ensures o.value == if o.handled then moved else value
  {
    if t.kind == Base then Outcome(t, false, value)
    else if t.selection == None then Outcome(Dispose(t), false, value)
    else Outcome(t, true, moved)
  }

  /** The destructor: the selection's transform afterwards. The remembered
      transform is put back exactly when there is a selection and the edit
      was never applied. */
  function Destroy(t: Tool, value: Vec3): (r: Vec3)
    ensures t.kind != Base && t.selection != None && !t.apply ==> r == t.original
    ensures t.kind == Base || t.selection == None || t.apply ==> r == value
  {
    if t.kind != Base && t.selection != None && !t.apply then t.original else value
  }

  /** A tool's lasting identity: kind, selection and remembered transform. */
  predicate SameTarget(t: Tool, u: Tool) {
    t.kind == u.kind && t.selection == u.selection && t.original == u.original
  }

  /** The invariant every reachable tool keeps: an applied edit has finished
      the tool, a bare base tool has no selection, and a concrete tool without
      a selection is disposable. */
  predicate Consistent(t: Tool) {
    && (t.apply ==> t.disposable)
    && (t.kind == Base ==> t.selection == None && !t.apply)
    && (t.kind != Base && t.selection == None ==> t.disposable)
  }

  /** Events only ever finish a tool: no handler clears the disposable or
      applied flags, and none changes what the tool edits. Each keeps the
      tool consistent. */
  lemma EventsAreMonotone(t: Tool, key: int, button: int, action: int, value: Vec3, moved: Vec3)
    requires Consistent(t)
    ensures var k := OnKeyEvent(t, key, action, value).tool;
      && (t.disposable ==> k.disposable) && (t.apply ==> k.apply) && SameTarget(t, k) && Consistent(k)
    ensures var m := OnMouseButton(t, button, action).tool;
      && (t.disposable ==> m.disposable) && (t.apply ==> m.apply) && SameTarget(t, m) && Consistent(m)
    ensures var u := OnUpdate(t, value, moved).tool;
      && (t.disposable ==> u.disposable) && (t.apply ==> u.apply) && SameTarget(t, u) && Consistent(u)
  {
  }

  lemma CreateConsistent(kind: Kind, selection: Option<nat>, value: Vec3)
    ensures Consistent(Create(kind, selection, value))
  {
  }

  /** Cancelling a fresh tool and destroying it leaves the selection's
      transform as it was when the tool was created. */
  lemma CancelReverts(kind: Kind, id: nat, value: Vec3, dragged: Vec3)
    requires kind != Base
    ensures var t := Create(kind, Some(id), value);
      var o := OnKeyEvent(t, KeyCancel, Release, dragged);
      o.handled && o.tool.disposable && Destroy(o.tool, o.value) == value
  {
  }

  /** Clicking with a tool over a selection keeps the dragged transform
      through destruction. */
  lemma ClickApplies(kind: Kind, id: nat, value: Vec3, dragged: Vec3)
    requires kind != Base
    ensures var t := Create(kind, Some(id), value);
      var o := OnMouseButton(t, MouseLeft, Press);
      o.handled && o.tool.disposable && Destroy(o.tool, dragged) == dragged
  {
  }
}
