/** The gap-filling controller's corner graph. Every selected Bézier patch
    contributes its four corners as vertices and its four boundary sides as
    edges; three corners that are pairwise joined, where some corner has
    degree below four, bound a triangular gap between three patches. */
module GapFilling {

  /** A corner triple, normalised by the constructor so that u <= v <= w. */
  datatype Triangle = Triangle(u: int, v: int, w: int)

  /** t lists exactly the three values a, b, c in some order. */
  predicate IsArrangement(t: Triangle, a: int, b: int, c: int) {
    || t == Triangle(a, b, c) || t == Triangle(a, c, b)
    || t == Triangle(b, a, c) || t == Triangle(b, c, a)
    || t == Triangle(c, a, b) || t == Triangle(c, b, a)
  }

  predicate Ordered(t: Triangle) {
    t.u <= t.v <= t.w
  }

  /** The constructor's three compare-and-swap steps: (u, w), then (u, v), then (v, w). */
  function MakeTriangle(a: int, b: int, c: int): (t: Triangle)
    ensures Ordered(t)
    ensures IsArrangement(t, a, b, c)
  {
    var (u1, w1) := if a > c then (c, a) else (a, c);
    var (u2, v2) := if u1 > b then (b, u1) else (u1, b);
    var (v3, w3) := if v2 > w1 then (w1, v2) else (v2, w1);
    Triangle(u2, v3, w3)
  }

  /** An ordered arrangement of three values is unique, so the constructor
      gives the same triangle for every order of its arguments. */
  lemma OrderedArrangementUnique(s: Triangle, t: Triangle, a: int, b: int, c: int)
    requires Ordered(s) && IsArrangement(s, a, b, c)
    requires Ordered(t) && IsArrangement(t, a, b, c)
    ensures s == t
  {
  }

  lemma MakeTriangleIgnoresOrder(a: int, b: int, c: int)
    ensures MakeTriangle(a, b, c) == MakeTriangle(b, a, c) == MakeTriangle(a, c, b)
    ensures MakeTriangle(a, b, c) == MakeTriangle(b, c, a) == MakeTriangle(c, a, b) == MakeTriangle(c, b, a)
  {
    var t := MakeTriangle(a, b, c);
    OrderedArrangementUnique(t, MakeTriangle(b, a, c), a, b, c);
    OrderedArrangementUnique(t, MakeTriangle(a, c, b), a, b, c);
    OrderedArrangementUnique(t, MakeTriangle(b, c, a), a, b, c);
    OrderedArrangementUnique(t, MakeTriangle(c, a, b), a, b, c);
    OrderedArrangementUnique(t, MakeTriangle(c, b, a), a, b, c);
  }

  /** The ordering the triangle set is kept in. */
  predicate Less(a: Triangle, t: Triangle) {
    a.u < t.u || (a.u == t.u && (a.v < t.v || (a.v == t.v && a.w < t.w)))
  }

  /** Less is a strict total order, so the set's equivalence is equality. */
  lemma LessIsStrictTotalOrder(a: Triangle, b: Triangle, c: Triangle)
    ensures !Less(a, a)
    ensures Less(a, b) ==> !Less(b, a)
    ensures Less(a, b) && Less(b, c) ==> Less(a, c)
    ensures a != b <==> Less(a, b) || Less(b, a)
  {
  }

  predicate StrictlySorted(s: seq<Triangle>) {
    forall i, j :: 0 <= i < j < |s| ==> Less(s[i], s[j])
  }

  /** Insertion into the ordered triangle set: the result holds the old
      elements and t. */
  function Insert(s: seq<Triangle>, t: Triangle): (r: seq<Triangle>)
    ensures forall x :: x in r <==> x in s || x == t
  {
    if |s| == 0 then [t]
    else if Less(t, s[0]) then [t] + s
    else if t == s[0] then s
    else
      var rest := Insert(s[1..], t);
      assert forall x :: x in s <==> x == s[0] || x in s[1..];
      [s[0]] + rest
  }

  lemma TailSorted(s: seq<Triangle>)
    requires StrictlySorted(s) && |s| > 0
    ensures StrictlySorted(s[1..])
  {
    forall i, j | 0 <= i < j < |s[1..]| ensures Less(s[1..][i], s[1..][j]) {
      assert s[1..][i] == s[i + 1] && s[1..][j] == s[j + 1];
    }
  }

  lemma ConsSorted(a: Triangle, r: seq<Triangle>)
    requires StrictlySorted(r) && forall i :: 0 <= i < |r| ==> Less(a, r[i])
    ensures StrictlySorted([a] + r)
  {
    forall i, j | 0 <= i < j < |[a] + r| ensures Less(([a] + r)[i], ([a] + r)[j]) {
      assert ([a] + r)[j] == r[j - 1];
      if i > 0 {
        assert ([a] + r)[i] == r[i - 1];
      }
    }
  }

  /** A triangle below the first element of an ordered set is below all of them. */
  lemma BelowAll(t: Triangle, s: seq<Triangle>)
    requires StrictlySorted(s) && |s| > 0 && Less(t, s[0])
    ensures forall i :: 0 <= i < |s| ==> Less(t, s[i])
    ensures t !in s
  {
    forall i | 0 <= i < |s| ensures Less(t, s[i]) {
      if i > 0 {
        LessIsStrictTotalOrder(t, s[0], s[i]);
      }
    }
    forall i | 0 <= i < |s| ensures s[i] != t {
      LessIsStrictTotalOrder(t, s[i], t);
    }
  }

  /** Insertion keeps the set ordered, and nothing happens when an equal
      triangle is already present. */
  lemma {:induction false} InsertSorted(s: seq<Triangle>, t: Triangle)
    requires StrictlySorted(s)
    ensures StrictlySorted(Insert(s, t))
    ensures t in s ==> Insert(s, t) == s
    ensures t !in s ==> |Insert(s, t)| == |s| + 1
  {
    if |s| == 0 {
    } else if Less(t, s[0]) {
      BelowAll(t, s);
      ConsSorted(t, s);
    } else if t == s[0] {
    } else {
      var rest := Insert(s[1..], t);
      TailSorted(s);
      InsertSorted(s[1..], t);
      InsertAbove(s, t);
      ConsSorted(s[0], rest);
      assert Insert(s, t) == [s[0]] + rest;
      if t in s {
        assert t in s[1..];
      }
    }
  }

  /** Every element of the tail's insertion result lies above the head. */
  lemma InsertAbove(s: seq<Triangle>, t: Triangle)
    requires StrictlySorted(s) && |s| > 0 && !Less(t, s[0]) && t != s[0]
    ensures forall i :: 0 <= i < |Insert(s[1..], t)| ==> Less(s[0], Insert(s[1..], t)[i])
  {
    var rest := Insert(s[1..], t);
    LessIsStrictTotalOrder(s[0], t, t);
    forall i | 0 <= i < |rest| ensures Less(s[0], rest[i]) {
      assert rest[i] in rest;
      if rest[i] != t {
        var k :| 0 <= k < |s[1..]| && s[1..][k] == rest[i];
        assert s[1..][k] == s[k + 1];
      }
    }
  }

  predicate Distinct(s: seq<nat>) {
    forall i, j :: 0 <= i < j < |s| ==> s[i] != s[j]
  }

  /** `vertex_map`: the corner id listed at position k of the vertex array
      gets index k. The array is filled from a hash set, whose order is not
      determined, so the order is a parameter. */
  function VertexMap(order: seq<nat>): (m: map<nat, nat>)
    requires Distinct(order)
    ensures m.Keys == set id | id in order
    ensures forall k :: 0 <= k < |order| ==> order[k] in m && m[order[k]] == k
  {
    if |order| == 0 then map[]
    else
      var last := |order| - 1;
      assert Distinct(order[..last]);
      var m := VertexMap(order[..last]);
      assert forall id :: id in order <==> id in order[..last] || id == order[last];
      m[order[last] := last]
  }

  /** The map sends distinct ids to distinct indices below the vertex count,
      and the vertex array inverts it. */
  lemma VertexMapBijective(order: seq<nat>)
    requires Distinct(order)
    ensures forall a, b :: a in VertexMap(order) && b in VertexMap(order) && a != b ==>
              VertexMap(order)[a] != VertexMap(order)[b]
    ensures forall a :: a in VertexMap(order) ==>
              VertexMap(order)[a] < |order| && order[VertexMap(order)[a]] == a
  {
    var m := VertexMap(order);
    forall a | a in m ensures m[a] < |order| && order[m[a]] == a {
      var k :| 0 <= k < |order| && order[k] == a;
    }
  }

  /** One ordered pair of corners: a listed edge in the orientation it was
      added, or the key of one matrix cell. */
  datatype Pair = Pair(first: nat, second: nat)

  /** The corner graph. The n-by-n matrix of {patch_id, is_edge} cells is
      kept as the map from an ordered pair (v, u), standing for the flat cell
      v*n+u, to its patch id; the map holds exactly the cells whose is_edge
      flag is set, every other cell keeps its value-initialised {0, false}.
      Then the degree array and the edge list in insertion order. */
  datatype Graph = Graph(n: nat, edges: map<Pair, nat>, degree: seq<int>, edgeList: seq<Pair>)

  /** One degree slot per corner. */
  predicate Shaped(g: Graph) {
    |g.degree| == g.n
  }

  /** Every marked cell lies inside the n-by-n matrix. */
  predicate InRange(g: Graph) {
    forall e {:trigger e in g.edges} :: e in g.edges ==> e.first < g.n && e.second < g.n
  }

  /** The is_edge flag of cell (a, b). */
  predicate IsEdge(g: Graph, a: nat, b: nat) {
    Pair(a, b) in g.edges
  }

  /** The patch_id of cell (a, b). */
  function PatchAt(g: Graph, a: nat, b: nat): (p: nat)
    ensures IsEdge(g, a, b) ==> p == g.edges[Pair(a, b)]
    ensures !IsEdge(g, a, b) ==> p == 0
  {
    if Pair(a, b) in g.edges then g.edges[Pair(a, b)] else 0
  }

  /** Cells (a, b) and (b, a) agree. */
  predicate Symmetric(g: Graph) {
    forall e {:trigger e in g.edges} :: e in g.edges ==> Pair(e.second, e.first) in g.edges && g.edges[Pair(e.second, e.first)] == g.edges[e]
  }

  function Sum(s: seq<int>): int {
    if |s| == 0 then 0 else s[0] + Sum(s[1..])
  }

  predicate SamePair(a: nat, b: nat, u: nat, v: nat) {
    (a == v && b == u) || (a == u && b == v)
  }

  /** The pair {a, b} appears in the edge list, in either orientation. */
  predicate Listed(es: seq<Pair>, a: nat, b: nat) {
    |es| > 0 && (SamePair(a, b, es[|es| - 1].first, es[|es| - 1].second) || Listed(es[..|es| - 1], a, b))
  }

  lemma {:induction false} ListedAt(es: seq<Pair>, a: nat, b: nat)
    requires Listed(es, a, b)
    ensures exists j :: 0 <= j < |es| && SamePair(a, b, es[j].first, es[j].second)
  {
    var last := |es| - 1;
    if !SamePair(a, b, es[last].first, es[last].second) {
      ListedAt(es[..last], a, b);
      var j :| 0 <= j < last && SamePair(a, b, es[..last][j].first, es[..last][j].second);
      assert es[..last][j] == es[j];
    }
  }

  /** The invariants the construction keeps: the matrix is symmetric, the
      edge list holds exactly the marked pairs (in one orientation or the
      other) and the degrees add up to twice the number of listed edges. */
  predicate WellFormed(g: Graph) {
    && Shaped(g)
    && InRange(g)
    && Symmetric(g)
    && (forall j :: 0 <= j < |g.edgeList| ==> g.edgeList[j] in g.edges)
    && (forall e {:trigger e in g.edges} :: e in g.edges ==> Listed(g.edgeList, e.first, e.second))
    && Sum(g.degree) == 2 * |g.edgeList|
  }

  function Zeros(n: nat): (s: seq<int>)
    ensures |s| == n && Sum(s) == 0
  {
    if n == 0 then [] else [0] + Zeros(n - 1)
  }

  /** The graph before any patch is added: value-initialised cells and zero degrees. */
  function EmptyGraph(n: nat): (g: Graph)
    ensures WellFormed(g) && g.n == n && g.edgeList == []
    ensures forall a, b :: !IsEdge(g, a, b)
  {
    Graph(n, map[], Zeros(n), [])
  }

  lemma {:induction false} SumIncrement(s: seq<int>, i: nat)
    requires i < |s|
    ensures Sum(s[i := s[i] + 1]) == Sum(s) + 1
  {
    if i == 0 {
      assert s[i := s[i] + 1][1..] == s[1..];
    } else {
      assert s[i := s[i] + 1][1..] == s[1..][i - 1 := s[i] + 1];
      SumIncrement(s[1..], i - 1);
    }
  }

  /** The graph after a new pair has been joined: both cells set to
      {p, true}, both degrees raised, (u, v) appended to the list. */
  function Joined(g: Graph, v: nat, u: nat, p: nat): (r: Graph)
    requires Shaped(g) && v < g.n && u < g.n
    ensures Shaped(r) && r.n == g.n
  {
    var d1 := g.degree[v := g.degree[v] + 1];
    Graph(g.n, g.edges[Pair(v, u) := p][Pair(u, v) := p], d1[u := d1[u] + 1], g.edgeList + [Pair(u, v)])
  }

  lemma JoinedDegrees(g: Graph, v: nat, u: nat, p: nat)
    requires WellFormed(g) && v < g.n && u < g.n
    ensures Sum(Joined(g, v, u, p).degree) == 2 * |Joined(g, v, u, p).edgeList|
  {
    var d1 := g.degree[v := g.degree[v] + 1];
    SumIncrement(g.degree, v);
    SumIncrement(d1, u);
  }

  lemma JoinedListed(g: Graph, v: nat, u: nat, p: nat)
    requires WellFormed(g) && v < g.n && u < g.n
    ensures forall j :: 0 <= j < |Joined(g, v, u, p).edgeList| ==> Joined(g, v, u, p).edgeList[j] in Joined(g, v, u, p).edges
  {
    var r := Joined(g, v, u, p);
    forall j | 0 <= j < |r.edgeList| ensures r.edgeList[j] in r.edges {
      if j < |g.edgeList| {
        assert r.edgeList[j] == g.edgeList[j];
      }
    }
  }

  lemma JoinedComplete(g: Graph, v: nat, u: nat, p: nat)
    requires WellFormed(g) && v < g.n && u < g.n
    ensures forall e {:trigger e in Joined(g, v, u, p).edges} :: e in Joined(g, v, u, p).edges ==> Listed(Joined(g, v, u, p).edgeList, e.first, e.second)
  {
    var r := Joined(g, v, u, p);
    assert r.edgeList[..|g.edgeList|] == g.edgeList;
    forall e | e in r.edges ensures Listed(r.edgeList, e.first, e.second) {
      if !SamePair(e.first, e.second, u, v) {
        assert e in g.edges;
      }
    }
  }

  lemma JoinedWellFormed(g: Graph, v: nat, u: nat, p: nat)
    requires WellFormed(g) && v < g.n && u < g.n && !IsEdge(g, v, u)
    ensures WellFormed(Joined(g, v, u, p))
  {
    JoinedDegrees(g, v, u, p);
    JoinedListed(g, v, u, p);
    JoinedComplete(g, v, u, p);
  }

  /** `set_edge`: a pair already joined is left alone; otherwise both
      endpoints gain one degree, both cells are tagged with the patch and the
      pair is appended to the edge list. */
  function SetEdge(g: Graph, v: nat, u: nat, p: nat): (r: Graph)
    requires Shaped(g) && v < g.n && u < g.n
    ensures Shaped(r) && r.n == g.n
    ensures IsEdge(r, v, u)
    ensures IsEdge(g, v, u) ==> r == g
    ensures !IsEdge(g, v, u) ==> PatchAt(r, v, u) == p && PatchAt(r, u, v) == p && r.edgeList == g.edgeList + [Pair(u, v)]
  {
    if Pair(v, u) in g.edges then g else Joined(g, v, u, p)
  }

  /** What `set_edge` does to the matrix, the degrees and the list. */
  lemma SetEdgeSpec(g: Graph, v: nat, u: nat, p: nat)
    requires Shaped(g) && v < g.n && u < g.n
    ensures IsEdge(SetEdge(g, v, u, p), v, u)
    ensures IsEdge(g, v, u) ==> SetEdge(g, v, u, p) == g
    ensures !IsEdge(g, v, u) ==>
      var r := SetEdge(g, v, u, p);
      && r.edgeList == g.edgeList + [Pair(u, v)]
      && IsEdge(r, u, v) && PatchAt(r, v, u) == p && PatchAt(r, u, v) == p
      && (forall x :: 0 <= x < g.n ==>
            r.degree[x] == g.degree[x] + (if x == v then 1 else 0) + (if x == u then 1 else 0))
    ensures forall a, b :: !SamePair(a, b, u, v) ==>
      && (IsEdge(SetEdge(g, v, u, p), a, b) <==> IsEdge(g, a, b))
      && PatchAt(SetEdge(g, v, u, p), a, b) == PatchAt(g, a, b)
  {
  }

  /** `set_edge` keeps the graph's invariants. */
  lemma SetEdgeWellFormed(g: Graph, v: nat, u: nat, p: nat)
    requires WellFormed(g) && v < g.n && u < g.n
    ensures WellFormed(SetEdge(g, v, u, p))
  {
    if !IsEdge(g, v, u) {
      JoinedWellFormed(g, v, u, p);
    }
  }

  /** `set_edge` keeps the matrix symmetric. */
  lemma SetEdgeSymmetric(g: Graph, v: nat, u: nat, p: nat)
    requires Shaped(g) && Symmetric(g) && v < g.n && u < g.n
    ensures Symmetric(SetEdge(g, v, u, p))
  {
  }

  /** Adding the pair in the other orientation afterwards changes nothing. */
  lemma SetEdgeSymmetricIdempotent(g: Graph, v: nat, u: nat, p: nat, q: nat)
    requires WellFormed(g) && v < g.n && u < g.n
    ensures SetEdge(SetEdge(g, v, u, p), u, v, q) == SetEdge(g, v, u, p)
    ensures SetEdge(SetEdge(g, v, u, p), v, u, q) == SetEdge(g, v, u, p)
  {
  }

  /** The four corner indices of one patch: points [0][0], [0][3], [3][0], [3][3]. */
  datatype Quad = Quad(p00: nat, p03: nat, p30: nat, p33: nat)

  predicate QuadIn(q: Quad, n: nat) {
    q.p00 < n && q.p03 < n && q.p30 < n && q.p33 < n
  }

  /** {a, b} is one of the patch's four boundary sides. */
  predicate Side(q: Quad, a: nat, b: nat) {
    SamePair(a, b, q.p00, q.p03) || SamePair(a, b, q.p03, q.p33)
    || SamePair(a, b, q.p33, q.p30) || SamePair(a, b, q.p30, q.p00)
  }

  /** Every earlier edge is still an edge with the same patch id. */
  predicate Keeps(g: Graph, r: Graph) {
    forall e {:trigger e in g.edges} :: e in g.edges ==> e in r.edges && r.edges[e] == g.edges[e]
  }

  /** Every new edge is a side of q tagged with pid. */
  predicate Extends(g: Graph, r: Graph, q: Quad, pid: nat) {
    forall e {:trigger e in r.edges} :: e in r.edges && e !in g.edges ==> Side(q, e.first, e.second) && r.edges[e] == pid
  }

  lemma SetEdgeKeeps(g: Graph, v: nat, u: nat, p: nat)
    requires Shaped(g) && Symmetric(g) && v < g.n && u < g.n
    ensures Keeps(g, SetEdge(g, v, u, p))
  {
  }

  lemma ExtendsStep(g: Graph, v: nat, u: nat, q: Quad, pid: nat)
    requires Shaped(g) && v < g.n && u < g.n && Side(q, v, u)
    ensures Extends(g, SetEdge(g, v, u, pid), q, pid)
  {
  }

  lemma KeepsChain(g: Graph, h: Graph, r: Graph)
    requires Keeps(g, h) && Keeps(h, r)
    ensures Keeps(g, r)
  {
  }

  lemma ExtendsChain(g: Graph, h: Graph, r: Graph, q: Quad, pid: nat)
    requires Keeps(h, r) && Extends(g, h, q, pid) && Extends(h, r, q, pid)
    ensures Extends(g, r, q, pid)
  {
  }

  /** Side i of a patch, in the order the corner loop joins them:
      p00-p03, p03-p33, p33-p30, p30-p00. */
  function SideOf(q: Quad, i: nat): (s: Pair)
    requires i < 4
    ensures Side(q, s.first, s.second)
  {
    if i == 0 then Pair(q.p00, q.p03)
    else if i == 1 then Pair(q.p03, q.p33)
    else if i == 2 then Pair(q.p33, q.p30)
    else Pair(q.p30, q.p00)
  }

  /** Sides i, ..., 3 of a patch joined in turn. */
  function AddSides(g: Graph, q: Quad, pid: nat, i: nat): (r: Graph)
    requires Shaped(g) && QuadIn(q, g.n) && i <= 4
    ensures Shaped(r) && r.n == g.n
    decreases 4 - i
  {
    if i == 4 then g
    else
      var s := SideOf(q, i);
      AddSides(SetEdge(g, s.first, s.second, pid), q, pid, i + 1)
  }

  /** One patch of the corner loop: its four sides joined and tagged with the patch. */
  function AddPatch(g: Graph, q: Quad, pid: nat): (r: Graph)
    requires Shaped(g) && QuadIn(q, g.n)
    ensures Shaped(r) && r.n == g.n
  {
    AddSides(g, q, pid, 0)
  }

  lemma {:induction false} AddSidesWellFormed(g: Graph, q: Quad, pid: nat, i: nat)
    requires WellFormed(g) && QuadIn(q, g.n) && i <= 4
    ensures WellFormed(AddSides(g, q, pid, i))
    decreases 4 - i
  {
    if i < 4 {
      var s := SideOf(q, i);
      SetEdgeWellFormed(g, s.first, s.second, pid);
      AddSidesWellFormed(SetEdge(g, s.first, s.second, pid), q, pid, i + 1);
    }
  }

  /** Adding a patch keeps the graph's invariants. */
  lemma AddPatchWellFormed(g: Graph, q: Quad, pid: nat)
    requires WellFormed(g) && QuadIn(q, g.n)
    ensures WellFormed(AddPatch(g, q, pid))
  {
    AddSidesWellFormed(g, q, pid, 0);
  }

  predicate SidesAreEdges(g: Graph, q: Quad) {
    IsEdge(g, q.p00, q.p03) && IsEdge(g, q.p03, q.p33) && IsEdge(g, q.p33, q.p30) && IsEdge(g, q.p30, q.p00)
  }

  lemma {:induction false} AddSidesKeeps(g: Graph, q: Quad, pid: nat, i: nat)
    requires Shaped(g) && Symmetric(g) && QuadIn(q, g.n) && i <= 4
    ensures Keeps(g, AddSides(g, q, pid, i))
    decreases 4 - i
  {
    if i < 4 {
      var s := SideOf(q, i);
      var h := SetEdge(g, s.first, s.second, pid);
      SetEdgeSymmetric(g, s.first, s.second, pid);
      SetEdgeKeeps(g, s.first, s.second, pid);
      AddSidesKeeps(h, q, pid, i + 1);
      KeepsChain(g, h, AddSides(h, q, pid, i + 1));
    }
  }

  lemma {:induction false} AddSidesExtends(g: Graph, q: Quad, pid: nat, i: nat)
    requires Shaped(g) && Symmetric(g) && QuadIn(q, g.n) && i <= 4
    ensures Extends(g, AddSides(g, q, pid, i), q, pid)
    decreases 4 - i
  {
    if i < 4 {
      var s := SideOf(q, i);
      var h := SetEdge(g, s.first, s.second, pid);
      SetEdgeSymmetric(g, s.first, s.second, pid);
      ExtendsStep(g, s.first, s.second, q, pid);
      AddSidesExtends(h, q, pid, i + 1);
      AddSidesKeeps(h, q, pid, i + 1);
      ExtendsChain(g, h, AddSides(h, q, pid, i + 1), q, pid);
    }
  }

  /** Side j is an edge once sides i, ..., 3 have been joined, for i <= j. */
  lemma {:induction false} AddSidesJoins(g: Graph, q: Quad, pid: nat, i: nat, j: nat)
    requires Shaped(g) && Symmetric(g) && QuadIn(q, g.n) && i <= j < 4
    ensures IsEdge(AddSides(g, q, pid, i), SideOf(q, j).first, SideOf(q, j).second)
    decreases 4 - i
  {
    var s := SideOf(q, i);
    var h := SetEdge(g, s.first, s.second, pid);
    SetEdgeSymmetric(g, s.first, s.second, pid);
    if j == i {
      AddSidesKeeps(h, q, pid, i + 1);
    } else {
      AddSidesJoins(h, q, pid, i + 1, j);
    }
  }

  /** After a patch is added its four sides are edges. */
  lemma AddPatchSides(g: Graph, q: Quad, pid: nat)
    requires Shaped(g) && Symmetric(g) && QuadIn(q, g.n)
    ensures SidesAreEdges(AddPatch(g, q, pid), q)
  {
    AddSidesJoins(g, q, pid, 0, 0);
    AddSidesJoins(g, q, pid, 0, 1);
    AddSidesJoins(g, q, pid, 0, 2);
    AddSidesJoins(g, q, pid, 0, 3);
  }

  /** Adding a patch keeps the patch id of every earlier edge. */
  lemma AddPatchKeeps(g: Graph, q: Quad, pid: nat)
    requires Shaped(g) && Symmetric(g) && QuadIn(q, g.n)
    ensures Keeps(g, AddPatch(g, q, pid))
  {
    AddSidesKeeps(g, q, pid, 0);
  }

  /** Every edge a patch adds is one of its sides, tagged with the patch. */
  lemma AddPatchExtends(g: Graph, q: Quad, pid: nat)
    requires Shaped(g) && Symmetric(g) && QuadIn(q, g.n)
    ensures Extends(g, AddPatch(g, q, pid), q, pid)
  {
    AddSidesExtends(g, q, pid, 0);
  }

  /** Sides already joined stay joined when a patch is added. */
  lemma SidesKept(g: Graph, q: Quad, pid: nat, s: Quad)
    requires Shaped(g) && Symmetric(g) && QuadIn(q, g.n) && SidesAreEdges(g, s)
    ensures SidesAreEdges(AddPatch(g, q, pid), s)
  {
    AddPatchKeeps(g, q, pid);
  }

  /** Every edge is a side of the patch it is tagged with, one of the first m. */
  predicate TaggedBySide(g: Graph, quads: seq<Quad>, m: nat)
    requires m <= |quads|
  {
    forall e {:trigger e in g.edges} :: e in g.edges ==> g.edges[e] < m && Side(quads[g.edges[e]], e.first, e.second)
  }

  /** Tags stay sides when patch m extends the graph. */
  lemma TaggedExtended(g: Graph, r: Graph, quads: seq<Quad>, m: nat)
    requires m < |quads|
    requires TaggedBySide(g, quads, m) && Keeps(g, r) && Extends(g, r, quads[m], m)
    ensures TaggedBySide(r, quads, m + 1)
  {
  }

  /** One pass of the corner loop, patch m joined and tagged with m. It keeps
      the loop's invariants: the graph stays well formed, the sides of the
      patches added so far stay edges, and every edge stays tagged with a
      patch it bounds. */
  method InsertPatch(g: Graph, quads: seq<Quad>, m: nat) returns (r: Graph)
    requires m < |quads| && WellFormed(g) && QuadIn(quads[m], g.n)
    requires forall k {:trigger SidesAreEdges(g, quads[k])} :: 0 <= k < m ==> SidesAreEdges(g, quads[k])
    requires TaggedBySide(g, quads, m)
    ensures WellFormed(r) && r.n == g.n
    ensures forall k {:trigger SidesAreEdges(r, quads[k])} :: 0 <= k <= m ==> SidesAreEdges(r, quads[k])
    ensures TaggedBySide(r, quads, m + 1)
  {
    r := AddPatch(g, quads[m], m);
    AddPatchWellFormed(g, quads[m], m);
    AddPatchSides(g, quads[m], m);
    AddPatchKeeps(g, quads[m], m);
    AddPatchExtends(g, quads[m], m);
    forall k | 0 <= k < m
      ensures SidesAreEdges(r, quads[k])
    {
      SidesKept(g, quads[m], m, quads[k]);
    }
    TaggedExtended(g, r, quads, m);
  }

  /** The corner loop over all patches, patch k tagged with k: the graph keeps
      its invariants, every side of every patch is an edge, and every edge is
      tagged with a patch having it as a side. */
  method BuildGraph(n: nat, quads: seq<Quad>) returns (g: Graph)
    requires forall k :: 0 <= k < |quads| ==> QuadIn(quads[k], n)
    ensures WellFormed(g) && g.n == n
    ensures forall k {:trigger SidesAreEdges(g, quads[k])} :: 0 <= k < |quads| ==> SidesAreEdges(g, quads[k])
    ensures TaggedBySide(g, quads, |quads|)
  {
    g := EmptyGraph(n);
    var m := 0;
    while m < |quads|
      invariant m <= |quads| && WellFormed(g) && g.n == n
      invariant forall k {:trigger SidesAreEdges(g, quads[k])} :: 0 <= k < m ==> SidesAreEdges(g, quads[k])
      invariant TaggedBySide(g, quads, m)
    {
      g := InsertPatch(g, quads, m);
      m := m + 1;
    }
  }

  /** The test in the triangle loop for listed edge (u, v) and candidate w. */
  predicate Closes(g: Graph, u: nat, v: nat, w: nat)
    requires Shaped(g) && u < g.n && v < g.n && w < g.n
  {
    && w != u && w != v && u != v
    && IsEdge(g, v, w) && IsEdge(g, w, u)
    && (g.degree[v] < 4 || g.degree[u] < 4 || g.degree[w] < 4)
  }

  /** An ordered triple of pairwise joined corners, one of degree below four. */
  predicate IsGap(g: Graph, t: Triangle)
    requires Shaped(g)
  {
    && 0 <= t.u < t.v < t.w < g.n
    && IsEdge(g, t.u, t.v) && IsEdge(g, t.v, t.w) && IsEdge(g, t.u, t.w)
    && (g.degree[t.u] < 4 || g.degree[t.v] < 4 || g.degree[t.w] < 4)
  }

  lemma ClosesIsGap(g: Graph, u: nat, v: nat, w: nat)
    requires Shaped(g) && Symmetric(g) && u < g.n && v < g.n && w < g.n
    requires IsEdge(g, u, v) && Closes(g, u, v, w)
    ensures IsGap(g, MakeTriangle(u, v, w))
  {
  }

  /** One step of the inner loop: candidate w's triangle is inserted when it closes one. */
  function Visit(g: Graph, u: nat, v: nat, w: nat, acc: seq<Triangle>): (r: seq<Triangle>)
    requires Shaped(g) && u < g.n && v < g.n && w < g.n
    ensures forall x :: x in r <==> x in acc || (x == MakeTriangle(u, v, w) && Closes(g, u, v, w))
  {
    if Closes(g, u, v, w) then Insert(acc, MakeTriangle(u, v, w)) else acc
  }

  /** The inner loop over candidates w0, w0+1, ..., n-1 for one listed edge
      (u, v): each candidate that closes a gap is inserted into the set. */
  function ScanVertices(g: Graph, u: nat, v: nat, w0: nat, acc: seq<Triangle>): (r: seq<Triangle>)
    requires Shaped(g) && u < g.n && v < g.n && w0 <= g.n
    ensures forall x :: x in acc ==> x in r
    decreases g.n - w0
  {
    if w0 == g.n then acc
    else
      ScanVertices(g, u, v, w0 + 1, Visit(g, u, v, w0, acc))
  }

  lemma {:induction false} ScanVerticesSorted(g: Graph, u: nat, v: nat, w0: nat, acc: seq<Triangle>)
    requires Shaped(g) && u < g.n && v < g.n && w0 <= g.n && StrictlySorted(acc)
    ensures StrictlySorted(ScanVertices(g, u, v, w0, acc))
    decreases g.n - w0
  {
    if w0 < g.n {
      var next := Visit(g, u, v, w0, acc);
      if Closes(g, u, v, w0) {
        InsertSorted(acc, MakeTriangle(u, v, w0));
      }
      ScanVerticesSorted(g, u, v, w0 + 1, next);
    }
  }

  /** The inner loop only adds gaps. */
  lemma {:induction false} ScanVerticesAdds(g: Graph, u: nat, v: nat, w0: nat, acc: seq<Triangle>, x: Triangle)
    requires Shaped(g) && Symmetric(g) && u < g.n && v < g.n && IsEdge(g, u, v) && w0 <= g.n
    requires x in ScanVertices(g, u, v, w0, acc)
    ensures x in acc || IsGap(g, x)
    decreases g.n - w0
  {
    if w0 < g.n {
      var next := Visit(g, u, v, w0, acc);
      assert ScanVertices(g, u, v, w0, acc) == ScanVertices(g, u, v, w0 + 1, next);
      ScanVerticesAdds(g, u, v, w0 + 1, next, x);
      if x !in acc && x in next {
        ClosesIsGap(g, u, v, w0);
      }
    }
  }

  lemma ScanVerticesSound(g: Graph, u: nat, v: nat, w0: nat, acc: seq<Triangle>)
    requires Shaped(g) && Symmetric(g) && u < g.n && v < g.n && IsEdge(g, u, v) && w0 <= g.n
    ensures forall x :: x in ScanVertices(g, u, v, w0, acc) ==> x in acc || IsGap(g, x)
  {
    forall x | x in ScanVertices(g, u, v, w0, acc)
      ensures x in acc || IsGap(g, x)
    {
      ScanVerticesAdds(g, u, v, w0, acc, x);
    }
  }

  /** The inner loop inserts the triangle of a candidate w >= w0 that closes one. */
  lemma {:induction false} ScanVerticesFinds(g: Graph, u: nat, v: nat, w0: nat, acc: seq<Triangle>, w: nat)
    requires Shaped(g) && u < g.n && v < g.n && w0 <= w < g.n && Closes(g, u, v, w)
    ensures MakeTriangle(u, v, w) in ScanVertices(g, u, v, w0, acc)
    decreases g.n - w0
  {
    var next := Visit(g, u, v, w0, acc);
    assert ScanVertices(g, u, v, w0, acc) == ScanVertices(g, u, v, w0 + 1, next);
    if w == w0 {
      assert MakeTriangle(u, v, w0) in next;
    } else {
      ScanVerticesFinds(g, u, v, w0 + 1, next, w);
    }
  }

  /** The inner loop inserts the triangle of every candidate that closes one. */
  lemma ScanVerticesComplete(g: Graph, u: nat, v: nat, w0: nat, acc: seq<Triangle>)
    requires Shaped(g) && u < g.n && v < g.n && w0 <= g.n
    ensures forall w :: w0 <= w < g.n && Closes(g, u, v, w) ==> MakeTriangle(u, v, w) in ScanVertices(g, u, v, w0, acc)
  {
    forall w | w0 <= w < g.n && Closes(g, u, v, w)
      ensures MakeTriangle(u, v, w) in ScanVertices(g, u, v, w0, acc)
    {
      ScanVerticesFinds(g, u, v, w0, acc, w);
    }
  }

  /** Both ends of every listed edge are corners. */
  predicate ListInRange(g: Graph) {
    forall j :: 0 <= j < |g.edgeList| ==> g.edgeList[j].first < g.n && g.edgeList[j].second < g.n
  }

  /** Every listed edge is marked in the matrix. */
  predicate ListMarked(g: Graph) {
    forall j :: 0 <= j < |g.edgeList| ==> IsEdge(g, g.edgeList[j].first, g.edgeList[j].second)
  }

  lemma WellFormedList(g: Graph)
    requires WellFormed(g)
    ensures ListInRange(g) && ListMarked(g)
  {
    forall j | 0 <= j < |g.edgeList|
      ensures g.edgeList[j].first < g.n && g.edgeList[j].second < g.n
      ensures IsEdge(g, g.edgeList[j].first, g.edgeList[j].second)
    {
      assert g.edgeList[j] in g.edges;
    }
  }

  /** The outer loop over the listed edges k, k+1, ..., each scanned for
      closing candidates. */
  function ScanEdges(g: Graph, k: nat, acc: seq<Triangle>): (r: seq<Triangle>)
    requires Shaped(g) && ListInRange(g) && k <= |g.edgeList|
    ensures forall x :: x in acc ==> x in r
    decreases |g.edgeList| - k
  {
    if k == |g.edgeList| then acc
    else ScanEdges(g, k + 1, ScanVertices(g, g.edgeList[k].first, g.edgeList[k].second, 0, acc))
  }

  lemma {:induction false} ScanEdgesSorted(g: Graph, k: nat, acc: seq<Triangle>)
    requires Shaped(g) && ListInRange(g) && k <= |g.edgeList| && StrictlySorted(acc)
    ensures StrictlySorted(ScanEdges(g, k, acc))
    decreases |g.edgeList| - k
  {
    if k < |g.edgeList| {
      var e := g.edgeList[k];
      ScanVerticesSorted(g, e.first, e.second, 0, acc);
      ScanEdgesSorted(g, k + 1, ScanVertices(g, e.first, e.second, 0, acc));
    }
  }

  /** The outer loop only adds gaps. */
  lemma {:induction false} ScanEdgesSound(g: Graph, k: nat, acc: seq<Triangle>)
    requires Shaped(g) && Symmetric(g) && ListInRange(g) && ListMarked(g)
    requires k <= |g.edgeList|
    ensures forall x :: x in ScanEdges(g, k, acc) ==> x in acc || IsGap(g, x)
    decreases |g.edgeList| - k
  {
    if k < |g.edgeList| {
      var e := g.edgeList[k];
      ScanVerticesSound(g, e.first, e.second, 0, acc);
      ScanEdgesSound(g, k + 1, ScanVertices(g, e.first, e.second, 0, acc));
    }
  }

  /** The outer loop finds every triangle that closes on a listed edge k' >= k. */
  lemma {:induction false} ScanEdgesComplete(g: Graph, k: nat, acc: seq<Triangle>)
    requires Shaped(g) && ListInRange(g) && k <= |g.edgeList|
    ensures forall j, w :: k <= j < |g.edgeList| && 0 <= w < g.n && Closes(g, g.edgeList[j].first, g.edgeList[j].second, w) ==>
              MakeTriangle(g.edgeList[j].first, g.edgeList[j].second, w) in ScanEdges(g, k, acc)
    decreases |g.edgeList| - k
  {
    if k < |g.edgeList| {
      var e := g.edgeList[k];
      var next := ScanVertices(g, e.first, e.second, 0, acc);
      ScanVerticesComplete(g, e.first, e.second, 0, acc);
      ScanEdgesComplete(g, k + 1, next);
    }
  }

  /** The ordered triangle set: strictly ascending, hence without repetition. */
  function Triangles(g: Graph): (r: seq<Triangle>)
    requires WellFormed(g)
    ensures StrictlySorted(r)
  {
    WellFormedList(g);
    ScanEdgesSorted(g, 0, []);
    ScanEdges(g, 0, [])
  }

  /** Every triangle in the set is a gap. */
  lemma TrianglesSound(g: Graph)
    requires WellFormed(g)
    ensures forall t :: t in Triangles(g) ==> IsGap(g, t)
  {
    WellFormedList(g);
    ScanEdgesSound(g, 0, []);
  }

  /** Every gap is in the set. */
  lemma TrianglesComplete(g: Graph, t: Triangle)
    requires WellFormed(g) && IsGap(g, t)
    ensures t in Triangles(g)
  {
    WellFormedList(g);
    ScanEdgesComplete(g, 0, []);
    var a, b, c := t.u as nat, t.v as nat, t.w as nat;
    ListedAt(g.edgeList, a, b);
    var j :| 0 <= j < |g.edgeList| && SamePair(a, b, g.edgeList[j].first, g.edgeList[j].second);
    if g.edgeList[j] == Pair(a, b) {
      assert Closes(g, a, b, c);
      OrderedArrangementUnique(t, MakeTriangle(a, b, c), a, b, c);
    } else {
      assert Closes(g, b, a, c);
      OrderedArrangementUnique(t, MakeTriangle(b, a, c), a, b, c);
    }
  }

  /** The three patches around a gap. */
  datatype Gap = Gap(pid1: nat, pid2: nat, pid3: nat)

  /** The gap record as written: all three ids are read from cell (u, v). */
  function GapAsWritten(g: Graph, t: Triangle): (r: Gap)
    requires Shaped(g) && IsGap(g, t)
    ensures r.pid1 == r.pid2 == r.pid3
  {
    var p := PatchAt(g, t.u, t.v);
    Gap(p, p, p)
  }

  /** The gap record as intended: one id per side (u, v), (v, w), (w, u). */
  function GapOf(g: Graph, t: Triangle): (r: Gap)
    requires Shaped(g) && IsGap(g, t)
    ensures r.pid1 == GapAsWritten(g, t).pid1
    ensures r == GapAsWritten(g, t) <==> r.pid1 == r.pid2 == r.pid3
  {
    Gap(PatchAt(g, t.u, t.v), PatchAt(g, t.v, t.w), PatchAt(g, t.w, t.u))
  }

  /** The patches named by a gap have the triangle's sides as boundary sides. */
  predicate BoundedBy(quads: seq<Quad>, t: Triangle, gap: Gap) {
    && 0 <= t.u && 0 <= t.v && 0 <= t.w
    && gap.pid1 < |quads| && Side(quads[gap.pid1], t.u as nat, t.v as nat)
    && gap.pid2 < |quads| && Side(quads[gap.pid2], t.v as nat, t.w as nat)
    && gap.pid3 < |quads| && Side(quads[gap.pid3], t.w as nat, t.u as nat)
  }

  /** The four corner ids of one selected patch. */
  datatype Corners = Corners(c00: nat, c03: nat, c30: nat, c33: nat)

  predicate CornersListed(c: Corners, order: seq<nat>) {
    c.c00 in order && c.c03 in order && c.c30 in order && c.c33 in order
  }

  /** The vertex-map entry of a listed corner id. */
  function Lookup(order: seq<nat>, id: nat): (k: nat)
    requires Distinct(order) && id in order
    ensures k < |order| && order[k] == id
  {
    VertexMapBijective(order);
    VertexMap(order)[id]
  }

  /** One patch's corners translated through the vertex map; the vertex
      array sends each index back to its id. */
  function QuadOf(order: seq<nat>, c: Corners): (q: Quad)
    requires Distinct(order) && CornersListed(c, order)
    ensures QuadIn(q, |order|)
    ensures order[q.p00] == c.c00 && order[q.p03] == c.c03 && order[q.p30] == c.c30 && order[q.p33] == c.c33
  {
    Quad(Lookup(order, c.c00), Lookup(order, c.c03), Lookup(order, c.c30), Lookup(order, c.c33))
  }

  /** All patches' corners translated through the vertex map. */
  function Quads(corners: seq<Corners>, order: seq<nat>): (qs: seq<Quad>)
    requires Distinct(order) && forall k :: 0 <= k < |corners| ==> CornersListed(corners[k], order)
    ensures |qs| == |corners|
    ensures forall k :: 0 <= k < |qs| ==> QuadIn(qs[k], |order|) && qs[k] == QuadOf(order, corners[k])
  {
    seq(|corners|, k requires 0 <= k < |corners| => QuadOf(order, corners[k]))
  }

  /** The gaps in triangle order, as intended, where the code as written
      reads all three patch ids from the edge (u, v). */
  function Gaps(g: Graph): (r: seq<Gap>)
    requires WellFormed(g)
    ensures |r| == |Triangles(g)|
  {
    var tris := Triangles(g);
    TrianglesSound(g);
    assert forall i :: 0 <= i < |tris| ==> tris[i] in tris;
    seq(|tris|, i requires 0 <= i < |tris| => GapOf(g, tris[i]))
  }

  /** As intended, where the code as written reads all three patch ids from
      the edge (u, v): each gap names, per side of its triangle, a patch
      having that side. */
  lemma GapsBoundedBy(g: Graph, quads: seq<Quad>, i: nat)
    requires WellFormed(g) && TaggedBySide(g, quads, |quads|)
    requires i < |Triangles(g)|
    ensures BoundedBy(quads, Triangles(g)[i], Gaps(g)[i])
  {
    var t := Triangles(g)[i];
    assert t in Triangles(g);
    TrianglesSound(g);
    assert IsEdge(g, t.w, t.u);
  }

  /** The controller's constructor as intended: corner graph, ordered
      triangle set, one gap per triangle in ascending order, naming one patch
      per side. The record as written repeats the patch of side (u, v) three
      times (see GapAsWritten); the two agree on that first patch. `order` is
      the iteration order of the hash set of corner ids. */
  method Controller(corners: seq<Corners>, order: seq<nat>) returns (g: Graph, tris: seq<Triangle>, gaps: seq<Gap>)
    requires Distinct(order) && forall k :: 0 <= k < |corners| ==> CornersListed(corners[k], order)
    ensures WellFormed(g) && g.n == |order|
    ensures forall k {:trigger SidesAreEdges(g, Quads(corners, order)[k])} :: 0 <= k < |corners| ==> SidesAreEdges(g, Quads(corners, order)[k])
    ensures StrictlySorted(tris)
    ensures forall t :: t in tris <==> IsGap(g, t)
    ensures |gaps| == |tris|
    ensures forall i :: 0 <= i < |gaps| ==> BoundedBy(Quads(corners, order), tris[i], gaps[i])
    ensures forall i :: 0 <= i < |gaps| ==> gaps[i].pid1 == GapAsWritten(g, tris[i]).pid1
  {
    var quads := Quads(corners, order);
    g := BuildGraph(|order|, quads);
    tris := Triangles(g);
    gaps := Gaps(g);
    TrianglesSound(g);
    forall t | IsGap(g, t)
      ensures t in tris
    {
      TrianglesComplete(g, t);
    }
    forall i | 0 <= i < |gaps|
      ensures BoundedBy(quads, tris[i], gaps[i])
    {
      GapsBoundedBy(g, quads, i);
    }
  }

  /** Three patches, tagged 0, 1 and 2, closing the corners 0, 1, 2. */
  function ThreePatchHole(): Graph {
    SetEdge(SetEdge(SetEdge(EmptyGraph(3), 0, 1, 0), 1, 2, 1), 2, 0, 2)
  }

  /** On that graph the recorded gap names patch 0 three times, where the
      intended record names all three patches. */
  lemma GapRecordRepeatsOnePatch()
    ensures IsGap(ThreePatchHole(), Triangle(0, 1, 2))
    ensures GapAsWritten(ThreePatchHole(), Triangle(0, 1, 2)) == Gap(0, 0, 0)
    ensures GapOf(ThreePatchHole(), Triangle(0, 1, 2)) == Gap(0, 1, 2)
  {
    var g0 := EmptyGraph(3);
    var g1 := SetEdge(g0, 0, 1, 0);
    var g2 := SetEdge(g1, 1, 2, 1);
    var g3 := SetEdge(g2, 2, 0, 2);
    assert g1.degree == [1, 1, 0];
    assert g2.degree == [1, 2, 1];
    assert g3.degree == [2, 2, 2];
  }
}
