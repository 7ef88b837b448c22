/** The editor's scene bookkeeping: the list of named objects, the selected
    object, the active transform tool, and the way key presses, frames and
    clicks on the scene list act on them. Objects are identified by a number
    standing for their shared pointer; each object's pose (translation and
    Euler angles) is what the tools read and write. */
module Application {
  import opened Common
  import Tools

  /** An entry of the scene list. */
  datatype Entry = Entry(obj: nat, name: string, selected: bool)

  /** The transform of an object that the tools edit. */
  datatype Pose = Pose(translation: Vec3, rotation: Vec3)

  datatype App = App(objects: seq<Entry>, selected: Option<nat>, tool: Option<Tools.Tool>, poses: map<nat, Pose>)

  /** The result of offering an event to the active tool. */
  datatype Offer = Offer(app: App, handled: bool)

  /** The result of a frame: the application afterwards, and whether the
      mouse was left to the camera. */
  datatype Frame = Frame(app: App, mouse: bool)

  // ---------------------------------------------------------------------
  // Decimal numerals, as the standard library's to_string writes them.

  function Digit(d: nat): char
    requires d < 10
  {
    ('0' as int + d) as char
  }

  function DigitValue(c: char): nat {
    if '0' <= c <= '9' then c as int - '0' as int else 0
  }

  /** The decimal numeral of n, without leading zeros. */
  function Decimal(n: nat): (s: string)
    ensures |s| > 0
  {
    if n < 10 then [Digit(n)] else Decimal(n / 10) + [Digit(n % 10)]
  }

  /** The value of a decimal numeral. */
  function ParseDecimal(s: string): nat {
    if |s| == 0 then 0 else ParseDecimal(s[..|s| - 1]) * 10 + DigitValue(s[|s| - 1])
  }

  lemma {:induction false} DecimalRoundTrip(n: nat)
    ensures ParseDecimal(Decimal(n)) == n
  {
    if n >= 10 {
      DecimalRoundTrip(n / 10);
      var s := Decimal(n);
      assert s[..|s| - 1] == Decimal(n / 10);
    }
  }

  /** The name tried after `name` itself: `name_i`. */
  function Candidate(name: string, i: nat): string {
    name + "_" + Decimal(i)
  }

  /** Different suffixes give different names. */
  lemma CandidateInjective(name: string, i: nat, j: nat)
    requires Candidate(name, i) == Candidate(name, j)
    ensures i == j
  {
    assert Candidate(name, i)[|name| + 1..] == Decimal(i);
    assert Candidate(name, j)[|name| + 1..] == Decimal(j);
    DecimalRoundTrip(i);
    DecimalRoundTrip(j);
  }

  // ---------------------------------------------------------------------
  // Unique naming.

  function Names(objects: seq<Entry>): (r: seq<string>)
    ensures |r| == |objects| && forall k :: 0 <= k < |objects| ==> r[k] == objects[k].name
  {
    seq(|objects|, k requires 0 <= k < |objects| => objects[k].name)
  }

  /** The name a new object asking for `name` is stored under: `name` itself
      when no object has it, otherwise `name_i` for the least i whose name is
      free. */
  ghost predicate FirstFreeName(names: seq<string>, name: string, chosen: string) {
    && chosen !in names
    && (name !in names ==> chosen == name)
    && (name in names ==> exists i: nat :: chosen == Candidate(name, i) && forall j: nat :: j < i ==> Candidate(name, j) in names)
  }

  /** At most one name satisfies the rule: the choice is determined. */
  lemma FirstFreeNameUnique(names: seq<string>, name: string, c1: string, c2: string)
    requires FirstFreeName(names, name, c1) && FirstFreeName(names, name, c2)
    ensures c1 == c2
  {
    if name in names {
      var i1: nat :| c1 == Candidate(name, i1) && forall j: nat :: j < i1 ==> Candidate(name, j) in names;
      var i2: nat :| c2 == Candidate(name, i2) && forall j: nat :: j < i2 ==> Candidate(name, j) in names;
      if i1 < i2 {
        assert false;
      } else if i2 < i1 {
        assert false;
      }
    }
  }

  /** The first m candidates, as a set. */
  function Candidates(name: string, m: nat): set<string> {
    set j: nat | j < m :: Candidate(name, j)
  }

  lemma {:induction false} CandidatesSize(name: string, m: nat)
    ensures |Candidates(name, m)| == m
  {
    if m > 0 {
      CandidatesSize(name, m - 1);
      assert Candidates(name, m) == Candidates(name, m - 1) + {Candidate(name, m - 1)};
      if Candidate(name, m - 1) in Candidates(name, m - 1) {
        var j: nat :| j < m - 1 && Candidate(name, j) == Candidate(name, m - 1);
        CandidateInjective(name, j, m - 1);
        assert false;
      }
    }
  }

  lemma {:induction false} DistinctBound(names: seq<string>)
    ensures |set s | s in names| <= |names|
  {
    if |names| > 0 {
      var init := names[..|names| - 1];
      DistinctBound(init);
      assert (set s | s in names) == (set s | s in init) + {names[|names| - 1]};
    }
  }

  /** Pigeonhole: if the first m candidates are all taken, there are at least
      m names. */
  lemma TakenBound(names: seq<string>, name: string, m: nat)
    requires forall j: nat :: j < m ==> Candidate(name, j) in names
    ensures m <= |names|
  {
    CandidatesSize(name, m);
    DistinctBound(names);
    var all := set s | s in names;
    assert Candidates(name, m) <= all;
    assert |all| == |Candidates(name, m)| + |all - Candidates(name, m)|;
  }

  /** The do-while naming loop: try `name`, then `name_0`, `name_1`, ...
      until no stored name equals the candidate. */
  method ChooseName(names: seq<string>, name: string) returns (chosen: string)
    ensures FirstFreeName(names, name, chosen)
  {
    chosen := name;
    var i: nat := 0;
    var free := chosen !in names;
    while !free
      invariant free <==> chosen !in names
      invariant i == 0 ==> chosen == name
      invariant i > 0 ==> name in names && chosen == Candidate(name, i - 1)
      invariant forall j: nat :: j + 1 < i ==> Candidate(name, j) in names
      decreases |names| + 1 - i
    {
      assert forall j: nat :: j < i ==> Candidate(name, j) in names;
      TakenBound(names, name, i);
      chosen := Candidate(name, i);
      i := i + 1;
      free := chosen !in names;
    }
    if name in names {
      assert i > 0 && forall j: nat :: j < i - 1 ==> Candidate(name, j) in names;
    }
  }

  /** Adds an object under a unique name; it is appended unselected and
      every earlier entry is kept. */
  method AddObject(a: App, name: string, obj: nat) returns (r: App, chosen: string)
    ensures FirstFreeName(Names(a.objects), name, chosen)
    ensures r.objects == a.objects + [Entry(obj, chosen, false)]
    ensures r.selected == a.selected && r.tool == a.tool && r.poses == a.poses
  {
    chosen := ChooseName(Names(a.objects), name);
    r := a.(objects := a.objects + [Entry(obj, chosen, false)]);
  }

  /** No two entries share a name. */
  predicate UniqueNames(objects: seq<Entry>) {
    forall i, j :: 0 <= i < j < |objects| ==> objects[i].name != objects[j].name
  }

  /** Adding objects keeps names unique. */
  lemma AddKeepsNamesUnique(objects: seq<Entry>, name: string, chosen: string, obj: nat)
    requires UniqueNames(objects) && FirstFreeName(Names(objects), name, chosen)
    ensures UniqueNames(objects + [Entry(obj, chosen, false)])
  {
    var r := objects + [Entry(obj, chosen, false)];
    forall i, j | 0 <= i < j < |r|
      ensures r[i].name != r[j].name
    {
      if j == |objects| {
        assert Names(objects)[i] == r[i].name;
      }
    }
  }

  // ---------------------------------------------------------------------
  // Poses and the active tool.

  function PoseOf(a: App, id: nat): Pose {
    if id in a.poses then a.poses[id] else Pose(Origin, Origin)
  }

  /** The part of a pose a tool of the given kind edits. */
  function Read(kind: Tools.Kind, p: Pose): Vec3 {
    if kind == Tools.Rotation then p.rotation else p.translation
  }

  function Write(kind: Tools.Kind, p: Pose, v: Vec3): (q: Pose)
    ensures Read(kind, q) == v
    ensures kind == Tools.Rotation ==> q.translation == p.translation
    ensures kind != Tools.Rotation ==> q.rotation == p.rotation
  {
    if kind == Tools.Rotation then p.(rotation := v) else p.(translation := v)
  }

  /** The value the tool edits, read from its selection. */
  function Current(a: App, t: Tools.Tool): Vec3 {
    match t.selection
    case None => Origin
    case Some(id) => Read(t.kind, PoseOf(a, id))
  }

  /** Stores the value back into the tool's selection. Storing the value the
      object already holds changes nothing. */
  function Store(a: App, t: Tools.Tool, v: Vec3): (r: App)
    ensures r.objects == a.objects && r.selected == a.selected && r.tool == a.tool
    ensures t.selection.Some? && v != Current(a, t) ==> Current(r, t) == v
    ensures forall id :: id in a.poses && (t.selection != Some(id)) ==> id in r.poses && r.poses[id] == a.poses[id]
  {
    if v == Current(a, t) then a
    else
      match t.selection
      case None => a
      case Some(id) => a.(poses := a.poses[id := Write(t.kind, PoseOf(a, id), v)])
  }

  /** Releases the active tool; its destructor runs. */
  function DropTool(a: App): (r: App)
    ensures r.tool == None && r.objects == a.objects && r.selected == a.selected
  {
    match a.tool
    case None => a
    case Some(t) => Store(a, t, Tools.Destroy(t, Current(a, t))).(tool := None)
  }

  /** Makes a new tool of the given kind the active one: it is built over the
      current selection first, then the tool it replaces is released. */
  function Install(a: App, kind: Tools.Kind): (r: App)
    requires kind != Tools.Base
    ensures r.tool.Some? && r.tool.value.kind == kind && r.tool.value.selection == a.selected
    ensures !r.tool.value.apply && (r.tool.value.disposable <==> a.selected == None)
    ensures a.selected.Some? ==> r.tool.value.original == Read(kind, PoseOf(a, a.selected.value))
    ensures r.objects == a.objects && r.selected == a.selected
  {
    var value := match a.selected case None => Origin case Some(id) => Read(kind, PoseOf(a, id));
    DropTool(a).(tool := Some(Tools.Create(kind, a.selected, value)))
  }

  /** Clears the active tool (running its destructor), the selected object
      and every entry's selected flag. */
  function ResetSelection(a: App): (r: App)
    ensures r.tool == None && r.selected == None
    ensures |r.objects| == |a.objects|
    ensures forall k :: 0 <= k < |r.objects| ==>
      !r.objects[k].selected && r.objects[k].obj == a.objects[k].obj && r.objects[k].name == a.objects[k].name
  {
    var b := DropTool(a);
    b.(selected := None, objects := seq(|a.objects|, k requires 0 <= k < |a.objects| => a.objects[k].(selected := false)))
  }

  /** Offers a key event to the active tool. */
  function OfferKey(a: App, key: int, action: int): (o: Offer)
    ensures a.tool == None ==> o == Offer(a, false)
    ensures o.app.objects == a.objects && o.app.selected == a.selected
  {
    match a.tool
    case None => Offer(a, false)
    case Some(t) =>
      var out := Tools.OnKeyEvent(t, key, action, Current(a, t));
      Offer(Store(a, t, out.value).(tool := Some(out.tool)), out.handled)
  }

  /** A key event: the active tool sees it first and may consume it; an
      unconsumed release of T or R starts a translation or rotation tool, and
      an unconsumed release of Escape resets the selection. */
  function KeyEvent(a: App, key: int, action: int): (r: App)
    ensures |r.objects| == |a.objects|
    ensures forall k :: 0 <= k < |r.objects| ==> r.objects[k].obj == a.objects[k].obj && r.objects[k].name == a.objects[k].name
    ensures r.selected == a.selected || r.selected == None
    ensures var o := OfferKey(a, key, action);
      !o.handled && action == Tools.Release && key == Tools.KeyTranslate ==>
        r.tool.Some? && r.tool.value.kind == Tools.Translation && r.tool.value.selection == a.selected
    ensures var o := OfferKey(a, key, action);
      !o.handled && action == Tools.Release && key == Tools.KeyEscape ==> r.tool == None && r.selected == None
  {
    var o := OfferKey(a, key, action);
    if o.handled || action != Tools.Release then o.app
    else if key == Tools.KeyTranslate then Install(o.app, Tools.Translation)
    else if key == Tools.KeyRotate then Install(o.app, Tools.Rotation)
    else if key == Tools.KeyEscape then ResetSelection(o.app)
    else o.app
  }

  /** The start of a frame: a finished tool is released, then the remaining
      tool gets the update (`moved` is what its drag computes); the mouse
      goes to the camera unless a tool consumed the update. */
  function Integrate(a: App, moved: Vec3): (f: Frame)
    ensures f.app.objects == a.objects && f.app.selected == a.selected
    ensures f.app.tool.Some? ==> a.tool.Some? && !a.tool.value.disposable && f.app.tool.value.kind == a.tool.value.kind
  {
    var b := if a.tool.Some? && a.tool.value.disposable then DropTool(a) else a;
    match b.tool
    case None => Frame(b, true)
    case Some(t) =>
      var out := Tools.OnUpdate(t, Current(b, t), moved);
      Frame(Store(b, t, out.value).(tool := Some(out.tool)), !out.handled)
  }

  // ---------------------------------------------------------------------
  // The scene list.

  /** A click on entry k toggles its selected flag; every entry holding a
      different object is deselected and k's object becomes the selected
      object, unless the click deselected k, which leaves nothing selected. */
  function ListClick(a: App, k: nat): (r: App)
    requires k < |a.objects|
    ensures |r.objects| == |a.objects|
    ensures forall j :: 0 <= j < |r.objects| ==> r.objects[j].obj == a.objects[j].obj && r.objects[j].name == a.objects[j].name
    ensures r.objects[k].selected <==> !a.objects[k].selected
    ensures forall j :: 0 <= j < |r.objects| && r.objects[j].selected ==> r.objects[j].obj == a.objects[k].obj
    ensures r.selected == if a.objects[k].selected then None else Some(a.objects[k].obj)
    ensures r.tool == a.tool
  {
    var e := a.objects[k];
    var toggled := a.objects[k := e.(selected := !e.selected)];
    var cleared := seq(|toggled|, j requires 0 <= j < |toggled| =>
      if toggled[j].obj != e.obj then toggled[j].(selected := false) else toggled[j]);
    a.(objects := cleared, selected := if e.selected then None else Some(e.obj))
  }

  /** The selection discipline: the entries marked selected all hold the
      selected object, and none is marked when nothing is selected. */
  predicate Exclusive(a: App) {
    forall k :: 0 <= k < |a.objects| && a.objects[k].selected ==> a.selected == Some(a.objects[k].obj)
  }

  /** Each object appears in at most one entry. */
  predicate DistinctObjects(objects: seq<Entry>) {
    forall i, j :: 0 <= i < j < |objects| ==> objects[i].obj != objects[j].obj
  }

  /** A click leaves entry k the only selected entry, or none if it
      deselected k, and keeps names and objects. */
  lemma ClickIsExclusive(a: App, k: nat)
    requires k < |a.objects| && DistinctObjects(a.objects)
    ensures var r := ListClick(a, k);
      && |r.objects| == |a.objects|
      && (forall j :: 0 <= j < |r.objects| ==> r.objects[j].obj == a.objects[j].obj && r.objects[j].name == a.objects[j].name)
      && (forall j :: 0 <= j < |r.objects| && j != k ==> !r.objects[j].selected)
      && (r.objects[k].selected <==> !a.objects[k].selected)
      && (r.selected == if a.objects[k].selected then None else Some(a.objects[k].obj))
      && Exclusive(r)
  {
  }

  /** Adding an object and resetting keep the selection discipline. */
  lemma OperationsKeepExclusive(a: App, name: string, chosen: string, obj: nat)
    requires Exclusive(a)
    ensures Exclusive(a.(objects := a.objects + [Entry(obj, chosen, false)]))
    ensures Exclusive(ResetSelection(a))
  {
    var b := a.(objects := a.objects + [Entry(obj, chosen, false)]);
    forall k | 0 <= k < |b.objects| && b.objects[k].selected
      ensures b.selected == Some(b.objects[k].obj)
    {
      assert k < |a.objects| && a.objects[k] == b.objects[k];
    }
  }

  // ---------------------------------------------------------------------
  // Properties of event dispatch.

  /** A key the active tool consumes changes nothing else: the scene list
      and the selected object stay, and the result is the tool's. */
  lemma ConsumedKeyStaysWithTool(a: App, key: int, action: int)
    requires OfferKey(a, key, action).handled
    ensures KeyEvent(a, key, action) == OfferKey(a, key, action).app
    ensures KeyEvent(a, key, action).objects == a.objects && KeyEvent(a, key, action).selected == a.selected
  {
  }

  /** With no active tool, a release of T, R or Escape starts a translation
      tool, starts a rotation tool, or resets the selection; every other key
      or action changes nothing. */
  lemma KeyDispatch(a: App, key: int, action: int)
    requires a.tool == None
    ensures var r := KeyEvent(a, key, action);
      && (action == Tools.Release && key == Tools.KeyTranslate ==>
            r.tool.Some? && r.tool.value.kind == Tools.Translation && r.tool.value.selection == a.selected)
      && (action == Tools.Release && key == Tools.KeyRotate ==>
            r.tool.Some? && r.tool.value.kind == Tools.Rotation && r.tool.value.selection == a.selected)
      && (action == Tools.Release && key == Tools.KeyEscape ==> r == ResetSelection(a))
      && (action != Tools.Release || (key != Tools.KeyTranslate && key != Tools.KeyRotate && key != Tools.KeyEscape) ==> r == a)
  {
  }

  /** A frame releases a finished tool before anything else, and a frame
      without a tool hands the mouse to the camera. */
  lemma FrameDropsFinishedTool(a: App, moved: Vec3)
    ensures a.tool.Some? && a.tool.value.disposable ==> Integrate(a, moved) == Frame(DropTool(a), true)
    ensures a.tool == None ==> Integrate(a, moved) == Frame(a, true)
  {
  }

  /** Starting a translation on a selected object, dragging it, cancelling
      with Escape and letting a frame pass puts the object back where it
      was. */
  lemma CancelledEditRestores(a: App, id: nat, moved: Vec3)
    requires a.tool == None && a.selected == Some(id) && id in a.poses
    ensures var started := KeyEvent(a, Tools.KeyTranslate, Tools.Release);
      var dragged := Integrate(started, moved).app;
      var cancelled := KeyEvent(dragged, Tools.KeyEscape, Tools.Release);
      var after := Integrate(cancelled, moved).app;
      && after.tool == None && id in after.poses && after.poses[id] == a.poses[id]
  {
    var started := KeyEvent(a, Tools.KeyTranslate, Tools.Release);
    var t := started.tool.value;
    assert t.selection == Some(id) && t.original == a.poses[id].translation && !t.disposable;
    var dragged := Integrate(started, moved).app;
    assert dragged.tool.value.selection == Some(id) && dragged.tool.value.original == t.original;
    var cancelled := KeyEvent(dragged, Tools.KeyEscape, Tools.Release);
    assert cancelled.tool.Some? && cancelled.tool.value.disposable && !cancelled.tool.value.apply;
    assert cancelled.tool.value.original == t.original && cancelled.tool.value.selection == Some(id);
    assert PoseOf(cancelled, id).rotation == a.poses[id].rotation;
  }

  /** Starting a translation, dragging and clicking keeps the dragged
      position once the tool is released. */
  lemma ClickedEditSticks(a: App, id: nat, moved: Vec3)
    requires a.tool == None && a.selected == Some(id) && id in a.poses
    ensures var started := KeyEvent(a, Tools.KeyTranslate, Tools.Release);
      var dragged := Integrate(started, moved).app;
      var clicked := dragged.(tool := Some(Tools.OnMouseButton(dragged.tool.value, Tools.MouseLeft, Tools.Press).tool));
      var after := Integrate(clicked, moved).app;
      && after.tool == None && PoseOf(after, id).translation == moved && PoseOf(after, id).rotation == a.poses[id].rotation
  {
    var started := KeyEvent(a, Tools.KeyTranslate, Tools.Release);
    var dragged := Integrate(started, moved).app;
    assert dragged.tool.Some? && dragged.tool.value.selection == Some(id);
    assert PoseOf(dragged, id).translation == moved;
  }
}
