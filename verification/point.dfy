/** Control points and the families that own them. A family (a curve or a
    surface built on the point) says whether it lets the point be deleted and
    whether it lets it be merged with another point; the point keeps its
    families as weak references, so a family may have expired. The point's
    deletable and mergeable flags summarise its live families. Colours and
    the billboard tint are also modelled; positions and hit tests are not. */
module Point {

  /** The family base class: its id, whether it is still alive, and the two
      permissions it grants its points. */
  datatype Family = Family(id: nat, live: bool, destroyAllowed: bool, mergeAllowed: bool)

  function NewFamily(id: nat, destroyAllowed: bool, mergeAllowed: bool): (f: Family)
    ensures f.id == id && f.live && f.destroyAllowed == destroyAllowed && f.mergeAllowed == mergeAllowed
  {
    Family(id, true, destroyAllowed, mergeAllowed)
  }

  function SetDestroyAllowed(f: Family, value: bool): (r: Family)
    ensures r.destroyAllowed == value && r.mergeAllowed == f.mergeAllowed && r.id == f.id && r.live == f.live
  {
    f.(destroyAllowed := value)
  }

  function SetMergeAllowed(f: Family, value: bool): (r: Family)
    ensures r.mergeAllowed == value && r.destroyAllowed == f.destroyAllowed && r.id == f.id && r.live == f.live
  {
    f.(mergeAllowed := value)
  }

  /** Each permission reads back as constructed until its own setter
      overwrites it; the other setter leaves it alone. */
  lemma PermissionsPersist(id: nat, d: bool, m: bool, d2: bool, m2: bool)
    ensures SetMergeAllowed(NewFamily(id, d, m), m2).destroyAllowed == d
    ensures SetDestroyAllowed(NewFamily(id, d, m), d2).mergeAllowed == m
    ensures SetDestroyAllowed(SetMergeAllowed(NewFamily(id, d, m), m2), d2) == Family(id, true, d2, m2)
  {
  }

  /** An RGBA colour. */
  datatype Color = Color(r: real, g: real, b: real, a: real)

  datatype Point = Point(parents: seq<Family>, deletable: bool, mergeable: bool,
                         selected: bool, color: Color, selectColor: Color, tint: Color)

  /** The tint a fresh billboard starts with. */
  const White := Color(1.0, 1.0, 1.0, 1.0)

  /** A new point: no families, mergeable, unselected, holding the default
      colours; its billboard keeps its own initial white tint until the
      first colour or selection change. */
  function NewPoint(defaultColor: Color, defaultSelect: Color): (p: Point)
    ensures p.parents == [] && p.deletable && p.mergeable && !p.selected
    ensures p.color == defaultColor && p.selectColor == defaultSelect
    ensures p.tint == White
    ensures defaultColor == White ==> TintMatches(p)
  {
    Point([], true, true, false, defaultColor, defaultSelect, White)
  }

  // ---------------------------------------------------------------------
  // Permissions.

  /** No live family forbids deleting the point. */
  predicate AllowDestroy(parents: seq<Family>) {
    forall k :: 0 <= k < |parents| && parents[k].live ==> parents[k].destroyAllowed
  }

  /** No live family forbids merging the point. */
  predicate AllowMerge(parents: seq<Family>) {
    forall k :: 0 <= k < |parents| && parents[k].live ==> parents[k].mergeAllowed
  }

  /** The permission discipline: a point a live family protects is never
      deletable, nor mergeable if a live family forbids merging. */
  predicate Guarded(p: Point) {
    (p.deletable ==> AllowDestroy(p.parents)) && (p.mergeable ==> AllowMerge(p.parents))
  }

  /** Attaches a family. A family that forbids deletion or merging clears the
      matching flag; neither flag is ever raised here. */
  function AddParent(p: Point, f: Family): (r: Point)
    ensures r.parents == p.parents + [f]
    ensures r.deletable <==> p.deletable && f.destroyAllowed
    ensures r.mergeable <==> p.mergeable && f.mergeAllowed
    ensures r.selected == p.selected && r.color == p.color && r.selectColor == p.selectColor && r.tint == p.tint
  {
    var d := if !f.destroyAllowed then p.(deletable := false) else p;
    var m := if !f.mergeAllowed then d.(mergeable := false) else d;
    m.(parents := p.parents + [f])
  }

  /** A pair of permission flags. */
  datatype Permissions = Permissions(destroy: bool, merge: bool)

  /** The flag recomputation as the source writes it: both flags start true
      and each live family is ORed in, so both always end true. */
  function CheckDeletableAsWritten(p: Point): (r: Point)
    ensures r.deletable && r.mergeable
    ensures r.parents == p.parents
  {
    var flags := OrAll(p.parents, Permissions(true, true));
    p.(deletable := flags.destroy, mergeable := flags.merge)
  }

  /** Walks the families ORing each live one's permissions into `acc`: a
      flag that starts true stays true. */
  function OrAll(parents: seq<Family>, acc: Permissions): (r: Permissions)
    ensures acc.destroy ==> r.destroy
    ensures acc.merge ==> r.merge
    decreases |parents|
  {
    if |parents| == 0 then acc
    else if parents[0].live then OrAll(parents[1..], Permissions(acc.destroy || parents[0].destroyAllowed, acc.merge || parents[0].mergeAllowed))
    else OrAll(parents[1..], acc)
  }

  /** A point that keeps one family forbidding deletion is declared deletable
      once some other family lets it go. */
  lemma ProtectedPointBecomesDeletable()
    ensures var keeper := Family(1, true, false, false);
      var p := Point([keeper], false, false, false, Color(0.0, 0.0, 0.0, 1.0), Color(1.0, 1.0, 1.0, 1.0), Color(0.0, 0.0, 0.0, 1.0));
      var r := ClearParentAsWritten(p, 2);
      && r.parents == [keeper] && r.deletable && !AllowDestroy(r.parents)
      && !Guarded(r) && Guarded(ClearParent(p, 2))
  {
  }

  /** The recomputation as intended: a flag is true exactly when no live
      family forbids it. */
  function CheckDeletable(p: Point): (r: Point)
    ensures r.deletable <==> AllowDestroy(p.parents)
    ensures r.mergeable <==> AllowMerge(p.parents)
    ensures r.parents == p.parents && r.selected == p.selected && r.color == p.color && r.selectColor == p.selectColor && r.tint == p.tint
  {
    var flags := AndAll(p.parents);
    p.(deletable := flags.destroy, mergeable := flags.merge)
  }

  /** The conjunction of the live families' permissions, walked in order. */
  function AndAll(parents: seq<Family>): (r: Permissions)
    ensures r.destroy <==> AllowDestroy(parents)
    ensures r.merge <==> AllowMerge(parents)
    decreases |parents|
  {
    if |parents| == 0 then Permissions(true, true)
    else
      var rest := AndAll(parents[1..]);
      assert forall k :: 1 <= k < |parents| ==> parents[k] == parents[1..][k - 1];
      if parents[0].live then Permissions(parents[0].destroyAllowed && rest.destroy, parents[0].mergeAllowed && rest.merge)
      else rest
  }

  /** The families that survive a detach of `familyId`: live ones with
      another id, in order. */
  function Detach(parents: seq<Family>, familyId: nat): (r: seq<Family>)
    ensures forall f :: f in r <==> f in parents && f.live && f.id != familyId
    ensures |r| <= |parents|
    decreases |parents|
  {
    if |parents| == 0 then []
    else if !parents[0].live || parents[0].id == familyId then Detach(parents[1..], familyId)
    else [parents[0]] + Detach(parents[1..], familyId)
  }

  /** Detaching keeps the kept families in their order: it distributes over
      concatenation. */
  lemma {:induction false} DetachConcat(a: seq<Family>, b: seq<Family>, familyId: nat)
    ensures Detach(a + b, familyId) == Detach(a, familyId) + Detach(b, familyId)
  {
    if |a| > 0 {
      assert (a + b)[1..] == a[1..] + b;
      DetachConcat(a[1..], b, familyId);
    } else {
      assert a + b == b;
    }
  }

  /** The detach as written: the families are dropped as intended, but the
      flags are recomputed as written, so both end true. */
  function ClearParentAsWritten(p: Point, familyId: nat): (r: Point)
    ensures r.parents == Detach(p.parents, familyId)
    ensures r.deletable && r.mergeable
  {
    CheckDeletableAsWritten(p.(parents := Detach(p.parents, familyId)))
  }

  /** Detaches a family, as intended, where the code as written ORs the
      permissions so both flags stay true (see ClearParentAsWritten): expired
      families and the one with the given id are dropped, the others kept in
      order, and the flags recomputed. */
  function ClearParent(p: Point, familyId: nat): (r: Point)
    ensures r.parents == Detach(p.parents, familyId)
    ensures forall k :: 0 <= k < |r.parents| ==> r.parents[k].live && r.parents[k].id != familyId
    ensures r.deletable <==> AllowDestroy(r.parents)
    ensures r.mergeable <==> AllowMerge(r.parents)
    ensures Guarded(r)
  {
    CheckDeletable(p.(parents := Detach(p.parents, familyId)))
  }

  /** Attaching keeps the discipline; so does detaching, whatever the state
      before. */
  lemma AddParentGuarded(p: Point, f: Family)
    requires Guarded(p)
    ensures Guarded(AddParent(p, f))
  {
    var r := AddParent(p, f);
    if r.deletable {
      forall k | 0 <= k < |r.parents| && r.parents[k].live
        ensures r.parents[k].destroyAllowed
      {
        if k < |p.parents| {
          assert r.parents[k] == p.parents[k];
        }
      }
    }
    if r.mergeable {
      forall k | 0 <= k < |r.parents| && r.parents[k].live
        ensures r.parents[k].mergeAllowed
      {
        if k < |p.parents| {
          assert r.parents[k] == p.parents[k];
        }
      }
    }
  }

  /** The outcome of a merge: the point afterwards and the ids of the live
      families told to replace it, in order. */
  datatype Merged = Merged(point: Point, notified: seq<nat>)

  function LiveIds(parents: seq<Family>): (r: seq<nat>)
    ensures |r| <= |parents|
    ensures forall id :: id in r <==> exists k :: 0 <= k < |parents| && parents[k].live && parents[k].id == id
    decreases |parents|
  {
    if |parents| == 0 then []
    else
      var rest := LiveIds(parents[1..]);
      assert forall k :: 1 <= k < |parents| ==> parents[k] == parents[1..][k - 1];
      if parents[0].live then [parents[0].id] + rest else rest
  }

  /** Merges the point into another: every live family is told, in order,
      and forgotten, and the point, now free, is deletable and mergeable. */
  function Merge(p: Point): (m: Merged)
    ensures m.point.parents == [] && m.point.deletable && m.point.mergeable && Guarded(m.point)
    ensures m.notified == LiveIds(p.parents)
    ensures m.point.selected == p.selected && m.point.color == p.color && m.point.tint == p.tint
  {
    Merged(p.(parents := [], deletable := true, mergeable := true), LiveIds(p.parents))
  }

  // ---------------------------------------------------------------------
  // Colours.

  /** The billboard shows the selection colour when the point is selected
      and its own colour otherwise. */
  predicate TintMatches(p: Point) {
    p.tint == if p.selected then p.selectColor else p.color
  }

  /** Stores the colour; the tint follows only when the point is unselected. */
  function SetColor(p: Point, c: Color): (r: Point)
    ensures r.color == c && r.selectColor == p.selectColor && r.selected == p.selected
    ensures r.tint == if p.selected then p.tint else c
  {
    p.(color := c, tint := if !p.selected then c else p.tint)
  }

  /** Stores the selection colour; the tint follows only when selected. */
  function SetSelectColor(p: Point, c: Color): (r: Point)
    ensures r.selectColor == c && r.color == p.color && r.selected == p.selected
    ensures r.tint == if p.selected then c else p.tint
  {
    p.(selectColor := c, tint := if p.selected then c else p.tint)
  }

  /** A selection change retints the billboard. */
  function OnSelection(p: Point, s: bool): (r: Point)
    ensures r.selected == s && TintMatches(r)
    ensures r.color == p.color && r.selectColor == p.selectColor && r.parents == p.parents
  {
    p.(selected := s, tint := if s then p.selectColor else p.color)
  }

  /** The colour setters keep the billboard showing the right colour. */
  lemma ColorsKeepTint(p: Point, c: Color)
    requires TintMatches(p)
    ensures TintMatches(SetColor(p, c)) && TintMatches(SetSelectColor(p, c))
  {
  }
}
