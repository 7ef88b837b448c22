/** The scene serializer: objects handed to it are sorted into a list of
    points and a list of other geometry, each in insertion order, and an
    object-to-id cache is kept. Each geometry object is written by the
    serializer its class chooses, which decides the keys of its JSON object.
    JSON values are modelled as maps from keys to values; their text form
    is not modelled. */
module Serializer {
  import opened Common

  /** A JSON value as the serializers produce them. */
  datatype Value = Int(i: int) | Real(r: real) | Text(s: string) | Xyz(v: Vec3) | Samples(x: int, y: int)

  /** A JSON object. */
  type Json = map<string, Value>

  /** The class-specific part of a scene object the serializers read. */
  datatype Shape = PointShape | CubeShape | TorusShape(divU: int, divV: int, inner: real, outer: real) | OtherShape

  /** Which serializer an object's class hands out. */
  datatype Writer = EmptyWriter | GenericWriter | CubeWriter | TorusWriter

  /** A scene object: its identity (the pointer the cache is keyed by), its
      class, name, which transforms it supports, and its transform. */
  datatype Object = Object(handle: nat, shape: Shape, writer: Writer, name: string,
                           movable: bool, rotatable: bool, scalable: bool,
                           translation: Vec3, angles: Vec3, scale: Vec3)

  /** An entry of either list: the id the object is saved under. */
  datatype Node = Node(id: int, obj: Object)

  datatype State = State(points: seq<Node>, geometry: seq<Node>, cache: map<nat, int>)

  const Empty: State := State([], [], map[])

  // ---------------------------------------------------------------------
  // Collecting objects.

  /** The outcome of adding an object: the new state and the reported
      success. */
  datatype Added = Added(state: State, ok: bool)

  /** Adds an object: points go to the points list and everything else to
      the geometry list, at the end; the cache maps the object to the id,
      replacing an earlier entry. Adding never fails. */
  function AddObject(s: State, id: int, o: Object): (r: Added)
    ensures r.ok
    ensures o.shape == PointShape ==> r.state.points == s.points + [Node(id, o)] && r.state.geometry == s.geometry
    ensures o.shape != PointShape ==> r.state.geometry == s.geometry + [Node(id, o)] && r.state.points == s.points
    ensures o.handle in r.state.cache && r.state.cache[o.handle] == id
    ensures r.state.cache.Keys == s.cache.Keys + {o.handle}
    ensures forall h :: h in s.cache && h != o.handle ==> r.state.cache[h] == s.cache[h]
  {
    var node := Node(id, o);
    var lists := if o.shape == PointShape then s.(points := s.points + [node]) else s.(geometry := s.geometry + [node]);
    Added(lists.(cache := s.cache[o.handle := id]), true)
  }

  /** Forgets everything collected. */
  function Reset(s: State): (r: State)
    ensures r.points == [] && r.geometry == [] && |r.cache| == 0
  {
    Empty
  }

  // ---------------------------------------------------------------------
  // Object serializers.

  /** The common part: id, the placeholder type "undefined" and the name,
      then the position, rotation and scale each only if the object
      supports that transform. */
  function SerializeBase(id: int, o: Object): (j: Json)
    ensures "id" in j && j["id"] == Int(id)
    ensures "objectType" in j && j["objectType"] == Text("undefined")
    ensures "name" in j && j["name"] == Text(o.name)
    ensures "position" in j <==> o.movable
    ensures "rotation" in j <==> o.rotatable
    ensures "scale" in j <==> o.scalable
    ensures o.movable ==> j["position"] == Xyz(o.translation)
    ensures o.rotatable ==> j["rotation"] == Xyz(o.angles)
    ensures o.scalable ==> j["scale"] == Xyz(o.scale)
    ensures j.Keys <= {"id", "objectType", "name", "position", "rotation", "scale"}
  {
    var j0 := map["id" := Int(id), "objectType" := Text("undefined"), "name" := Text(o.name)];
    var j1 := if o.movable then j0["position" := Xyz(o.translation)] else j0;
    var j2 := if o.rotatable then j1["rotation" := Xyz(o.angles)] else j1;
    if o.scalable then j2["scale" := Xyz(o.scale)] else j2
  }

  /** The serializer for objects that are not saved: id, type "unknown" and
      name only. */
  function SerializeEmpty(id: int, o: Object): (j: Json)
    ensures j.Keys == {"id", "objectType", "name"}
    ensures j["id"] == Int(id) && j["objectType"] == Text("unknown") && j["name"] == Text(o.name)
  {
    map["id" := Int(id), "objectType" := Text("unknown"), "name" := Text(o.name)]
  }

  /** The cube: the common part with its type set. */
  function SerializeCube(id: int, o: Object): (j: Json)
    ensures "objectType" in j && j["objectType"] == Text("ext.eter.cube")
  {
    SerializeBase(id, o)["objectType" := Text("ext.eter.cube")]
  }

  /** The torus: the common part plus its sample counts and radii, typed
      "torus"; an object that is not a torus gets the common part only. */
  function SerializeTorus(id: int, o: Object): (j: Json)
    ensures o.shape.TorusShape? ==>
      && {"objectType", "samples", "smallRadius", "largeRadius"} <= j.Keys
      && j["objectType"] == Text("torus")
      && j["samples"] == Samples(o.shape.divU, o.shape.divV)
      && j["smallRadius"] == Real(o.shape.inner)
      && j["largeRadius"] == Real(o.shape.outer)
    ensures !o.shape.TorusShape? ==> j == SerializeBase(id, o)
  {
    var j := SerializeBase(id, o);
    if o.shape.TorusShape? then
      j["samples" := Samples(o.shape.divU, o.shape.divV)]
       ["smallRadius" := Real(o.shape.inner)]
       ["largeRadius" := Real(o.shape.outer)]
       ["objectType" := Text("torus")]
    else j
  }

  /** Dispatches to the object's serializer; whichever it is, the object's
      id and name are written. */
  function Serialize(id: int, o: Object): (j: Json)
    ensures "id" in j && j["id"] == Int(id)
    ensures "name" in j && j["name"] == Text(o.name)
    ensures "objectType" in j
    ensures o.writer == EmptyWriter <==> j["objectType"] == Text("unknown")
  {
    match o.writer
    case EmptyWriter => SerializeEmpty(id, o)
    case GenericWriter => SerializeBase(id, o)
    case CubeWriter => SerializeCube(id, o)
    case TorusWriter => SerializeTorus(id, o)
  }

  /** The cube serializer keeps the common part's keys and values but the
      type. */
  lemma CubeRetagsBase(id: int, o: Object)
    ensures SerializeCube(id, o).Keys == SerializeBase(id, o).Keys
    ensures forall k :: k in SerializeBase(id, o) && k != "objectType" ==> SerializeCube(id, o)[k] == SerializeBase(id, o)[k]
  {
  }

  /** The torus serializer adds exactly its three entries to the common
      part and keeps the rest but the type. */
  lemma TorusExtendsBase(id: int, o: Object)
    requires o.shape.TorusShape?
    ensures SerializeTorus(id, o).Keys == SerializeBase(id, o).Keys + {"samples", "smallRadius", "largeRadius"}
    ensures forall k :: k in SerializeBase(id, o) && k != "objectType" ==> SerializeTorus(id, o)[k] == SerializeBase(id, o)[k]
  {
  }

  // ---------------------------------------------------------------------
  // The scene document.

  /** A JSON value used as an array: a default-constructed value is null,
      and the first `push_back` turns it into an array. */
  datatype JsonArray = Null | Array(items: seq<Json>)

  /** The elements a value used as an array holds; null holds none. */
  function Entries(a: JsonArray): seq<Json>
  {
    match a
    case Null => []
    case Array(items) => items
  }

  /** `push_back`: the value becomes an array, with the element appended. */
  function PushBack(a: JsonArray, x: Json): (r: JsonArray)
    ensures r.Array? && |Entries(r)| == |Entries(a)| + 1
    ensures Entries(r)[..|Entries(a)|] == Entries(a) && Entries(r)[|Entries(a)|] == x
  {
    Array(Entries(a) + [x])
  }

  /** Pushes the elements one after another, as the loops of the document
      builder do: nothing pushed leaves the value as it was, and otherwise it
      is an array of the old elements followed by the new ones. */
  function PushAll(a: JsonArray, xs: seq<Json>): (r: JsonArray)
    ensures xs == [] ==> r == a
    ensures xs != [] ==> r == Array(Entries(a) + xs)
    decreases |xs|
  {
    if xs == [] then a
    else
      var b := PushBack(a, xs[0]);
      assert Entries(b) + xs[1..] == Entries(a) + xs;
      PushAll(b, xs[1..])
  }

  /** The saved scene: the "points" value and the "geometry" value. */
  datatype Scene = Scene(points: JsonArray, geometry: JsonArray)

  /** A point entry: its id and position. */
  function PointEntry(n: Node): (j: Json)
    ensures j.Keys == {"id", "position"} && j["id"] == Int(n.id) && j["position"] == Xyz(n.obj.translation)
  {
    map["id" := Int(n.id), "position" := Xyz(n.obj.translation)]
  }

  function PointEntries(nodes: seq<Node>): (r: seq<Json>)
    ensures |r| == |nodes| && forall k :: 0 <= k < |nodes| ==> r[k] == PointEntry(nodes[k])
  {
    seq(|nodes|, k requires 0 <= k < |nodes| => PointEntry(nodes[k]))
  }

  function GeometryEntries(nodes: seq<Node>): (r: seq<Json>)
    ensures |r| == |nodes| && forall k :: 0 <= k < |nodes| ==> r[k] == Serialize(nodes[k].id, nodes[k].obj)
  {
    seq(|nodes|, k requires 0 <= k < |nodes| => Serialize(nodes[k].id, nodes[k].obj))
  }

  /** The document: every collected point and then every geometry object,
      each list in the order the objects were added. Each value starts null
      and is only pushed to, so an empty list is written as null rather than
      as an empty array. */
  function GetData(s: State): (r: Scene)
    ensures r.points == Null <==> s.points == []
    ensures r.geometry == Null <==> s.geometry == []
    ensures |Entries(r.points)| == |s.points| && |Entries(r.geometry)| == |s.geometry|
    ensures forall k :: 0 <= k < |s.points| ==> Entries(r.points)[k] == PointEntry(s.points[k])
    ensures forall k :: 0 <= k < |s.geometry| ==> Entries(r.geometry)[k] == Serialize(s.geometry[k].id, s.geometry[k].obj)
  {
    Scene(PushAll(Null, PointEntries(s.points)), PushAll(Null, GeometryEntries(s.geometry)))
  }

  /** An added object shows up last in its array of the next document, and
      the other array is unchanged. */
  lemma AddedObjectIsSaved(s: State, id: int, o: Object)
    ensures var d, d2 := GetData(s), GetData(AddObject(s, id, o).state);
      if o.shape == PointShape then
        d2.points == Array(Entries(d.points) + [PointEntry(Node(id, o))]) && d2.geometry == d.geometry
      else
        d2.geometry == Array(Entries(d.geometry) + [Serialize(id, o)]) && d2.points == d.points
  {
  }

  /** After a reset both values of the document are null, whatever came
      before. */
  lemma ResetEmptiesDocument(s: State)
    ensures GetData(Reset(s)) == Scene(Null, Null)
  {
  }

  /** Each object lands in exactly one of the two lists. */
  lemma {:induction false} AddAllPartitions(s: State, ids: seq<int>, objs: seq<Object>)
    requires |ids| == |objs|
    ensures var r := AddAll(s, ids, objs);
      |r.points| + |r.geometry| == |s.points| + |s.geometry| + |objs|
    decreases |objs|
  {
    if |objs| > 0 {
      AddAllPartitions(AddObject(s, ids[0], objs[0]).state, ids[1..], objs[1..]);
    }
  }

  /** Adds the objects in order, under the matching ids. */
  function AddAll(s: State, ids: seq<int>, objs: seq<Object>): State
    requires |ids| == |objs|
    decreases |objs|
  {
    if |objs| == 0 then s else AddAll(AddObject(s, ids[0], objs[0]).state, ids[1..], objs[1..])
  }
}
