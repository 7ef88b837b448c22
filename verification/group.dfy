/** The group object: a list of scene objects edited together. Members are
    object ids; the selected and destroy flags live on the objects' scene-list
    wrappers, which the group shares with the scene list. The group's own
    transform, its origin and the matrix decomposition that pushes the group
    transform into each member are floating-point geometry and stay outside
    the model, except for the rule of when that push happens. */
module Group {
  import opened Common

  /** The flags of an object's scene-list wrapper. */
  datatype Flags = Flags(selected: bool, destroy: bool)

  datatype Group = Group(members: seq<nat>, flags: map<nat, Flags>)

  function FlagsOf(flags: map<nat, Flags>, id: nat): Flags {
    if id in flags then flags[id] else Flags(false, false)
  }

  // ---------------------------------------------------------------------
  // The erase loop.

  /** The erase loop as the source writes it: a matching element is erased,
      the iterator then points at the element that moved into its place, and
      the loop increment steps over that element without examining it. */
  function SweepAsWritten(xs: seq<nat>, drop: set<nat>): (r: seq<nat>)
    ensures |r| <= |xs|
  {
    if |xs| == 0 then []
    else if xs[0] in drop then (if |xs| == 1 then [] else [xs[1]] + SweepAsWritten(xs[2..], drop))
    else [xs[0]] + SweepAsWritten(xs[1..], drop)
  }

  /** Two unselected members: the loop erases the first and steps over the
      second, which stays in the group. Likewise an object added twice in a
      row survives one removal. */
  lemma SweepSkipsFollower()
    ensures SweepAsWritten([1, 2], {1, 2}) == [2] && Sweep([1, 2], {1, 2}) == []
    ensures SweepAsWritten([5, 5], {5}) == [5] && Sweep([5, 5], {5}) == []
  {
  }

  /** The loop as intended: every matching element is erased and the others
      keep their order. */
  function Sweep(xs: seq<nat>, drop: set<nat>): (r: seq<nat>)
    ensures forall m :: m in r <==> m in xs && m !in drop
  {
    if |xs| == 0 then []
    else if xs[0] in drop then Sweep(xs[1..], drop)
    else [xs[0]] + Sweep(xs[1..], drop)
  }

  /** Sweeping works element by element: it distributes over concatenation,
      keeps a surviving element and erases a matching one. Together these fix
      the result. */
  lemma {:induction false} SweepConcat(a: seq<nat>, b: seq<nat>, drop: set<nat>)
    ensures Sweep(a + b, drop) == Sweep(a, drop) + Sweep(b, drop)
  {
    if |a| > 0 {
      assert (a + b)[1..] == a[1..] + b;
      SweepConcat(a[1..], b, drop);
    } else {
      assert a + b == b;
    }
  }

  lemma SweepSingle(m: nat, drop: set<nat>)
    ensures Sweep([m], drop) == if m in drop then [] else [m]
  {
  }

  /** Each surviving value keeps its multiplicity. */
  lemma {:induction false} SweepCounts(xs: seq<nat>, drop: set<nat>, m: nat)
    ensures multiset(Sweep(xs, drop))[m] == if m in drop then 0 else multiset(xs)[m]
  {
    if |xs| > 0 {
      SweepCounts(xs[1..], drop, m);
      assert xs == [xs[0]] + xs[1..];
    }
  }

  /** When no matching element directly follows another matching element,
      the loop as written erases exactly what was intended. */
  lemma {:induction false} SweepAsWrittenAgrees(xs: seq<nat>, drop: set<nat>)
    requires forall i :: 0 < i < |xs| && xs[i - 1] in drop ==> xs[i] !in drop
    ensures SweepAsWritten(xs, drop) == Sweep(xs, drop)
  {
    if |xs| > 0 {
      if xs[0] in drop && |xs| > 1 {
        assert xs[1] !in drop;
        SweepAsWrittenAgrees(xs[2..], drop);
        assert xs[1..][1..] == xs[2..];
      } else if |xs| > 1 {
        SweepAsWrittenAgrees(xs[1..], drop);
      }
    }
  }

  // ---------------------------------------------------------------------
  // Group operations.

  /** Sets the selected flag of the given objects to false. */
  function Deselect(flags: map<nat, Flags>, ids: set<nat>): (r: map<nat, Flags>)
    ensures r.Keys == flags.Keys + ids
    ensures forall id :: id in ids ==> !r[id].selected
    ensures forall id :: id in ids && id in flags ==> r[id].destroy == flags[id].destroy
    ensures forall id :: id in flags && id !in ids ==> r[id] == flags[id]
  {
    map id | id in flags.Keys + ids ::
      if id in ids then (if id in flags then flags[id] else Flags(false, false)).(selected := false) else flags[id]
  }

  /** Adds an object at the end of the group. */
  function Add(g: Group, id: nat): (r: Group)
    ensures |r.members| == |g.members| + 1
    ensures r.members[..|g.members|] == g.members && r.members[|g.members|] == id
    ensures r.flags == g.flags
  {
    g.(members := g.members + [id])
  }

  /** Removes an object from the group and deselects it, as intended: every
      copy of it leaves (the erase loop as written skips the element after
      each erased one; see SweepAsWritten). An object that is not a member
      leaves the group as it was. */
  function Remove(g: Group, id: nat): (r: Group)
    ensures id !in r.members
    ensures forall m :: m != id ==> multiset(r.members)[m] == multiset(g.members)[m]
    ensures id !in g.members ==> r == g
    ensures id in g.members ==> id in r.flags && !r.flags[id].selected
    ensures forall m :: m in g.flags && m != id ==> m in r.flags && r.flags[m] == g.flags[m]
  {
    if id in g.members then
      SweepCountsAll(g.members, {id});
      Group(Sweep(g.members, {id}), Deselect(g.flags, {id}))
    else
      g
  }

  lemma SweepCountsAll(xs: seq<nat>, drop: set<nat>)
    ensures forall m :: multiset(Sweep(xs, drop))[m] == if m in drop then 0 else multiset(xs)[m]
  {
    forall m {
      SweepCounts(xs, drop, m);
    }
  }

  lemma {:induction false} SweepKeeps(xs: seq<nat>, drop: set<nat>)
    requires forall m :: m in xs ==> m !in drop
    ensures Sweep(xs, drop) == xs
  {
    if |xs| > 0 {
      assert xs[0] in xs;
      SweepKeeps(xs[1..], drop);
    }
  }

  /** Empties the group, deselecting every former member. */
  function Clear(g: Group): (r: Group)
    ensures r.members == []
    ensures forall m :: m in g.members ==> m in r.flags && !r.flags[m].selected
    ensures forall m :: m in g.flags && m !in g.members ==> m in r.flags && r.flags[m] == g.flags[m]
  {
    Group([], Deselect(g.flags, set m | m in g.members))
  }

  /** Marks every member for destruction without removing any. */
  function DestroyAll(g: Group): (r: Group)
    ensures r.members == g.members
    ensures forall m :: m in g.members ==> m in r.flags && r.flags[m].destroy
    ensures forall m :: m in g.members && m in g.flags ==> r.flags[m].selected == g.flags[m].selected
    ensures forall m :: m in g.flags && m !in g.members ==> m in r.flags && r.flags[m] == g.flags[m]
  {
    var ids := set m | m in g.members;
    g.(flags := map id | id in g.flags.Keys + ids ::
      if id in ids then (if id in g.flags then g.flags[id] else Flags(false, false)).(destroy := true) else g.flags[id])
  }

  /** The last member, which stays in the group; nothing for an empty group. */
  function Pop(g: Group): (r: Option<nat>)
    ensures r == None <==> |g.members| == 0
    ensures r.Some? ==> r.value == g.members[|g.members| - 1]
  {
    if |g.members| > 0 then Some(g.members[|g.members| - 1]) else None
  }

  /** The member count, cast to a 32-bit unsigned integer. */
  function Size(g: Group): (r: nat)
    ensures r < WordModulus
    ensures |g.members| < WordModulus ==> r == |g.members|
  {
    |g.members| % WordModulus
  }

  /** Adding then popping gives back the added object. */
  lemma AddThenPop(g: Group, id: nat)
    ensures Pop(Add(g, id)) == Some(id)
    ensures |g.members| + 1 < WordModulus ==> Size(Add(g, id)) == Size(g) + 1
  {
  }

  /** A member is dropped by the update when it was deselected or marked for
      destruction elsewhere. */
  predicate Doomed(flags: map<nat, Flags>, id: nat) {
    !FlagsOf(flags, id).selected || FlagsOf(flags, id).destroy
  }

  /** The per-frame update as intended: members that were deselected or
      marked for destruction leave the group (the erase loop as written skips
      the element after each erased one; see SweepAsWritten); flags do not
      change. */
  function Update(g: Group): (r: Group)
    ensures r.flags == g.flags
    ensures forall m :: m in r.members <==> m in g.members && !Doomed(g.flags, m)
    ensures forall m :: !Doomed(g.flags, m) ==> multiset(r.members)[m] == multiset(g.members)[m]
  {
    if |g.members| == 0 then g
    else
      var doomed := set m | m in g.members && Doomed(g.flags, m);
      SweepCountsAll(g.members, doomed);
      g.(members := Sweep(g.members, doomed))
  }

  /** The update keeps the survivors in their original order. */
  lemma UpdateKeepsOrder(g: Group, a: seq<nat>, b: seq<nat>)
    requires g.members == a + b
    ensures Update(g).members == Update(g.(members := a)).members + Update(g.(members := b)).members
  {
    var doomed := set m | m in g.members && Doomed(g.flags, m);
    SweepConcat(a, b, doomed);
    UpdatePart(g, a, doomed);
    UpdatePart(g, b, doomed);
  }

  lemma UpdatePart(g: Group, part: seq<nat>, doomed: set<nat>)
    requires doomed == set m | m in g.members && Doomed(g.flags, m)
    requires forall m :: m in part ==> m in g.members
    ensures Update(g.(members := part)).members == Sweep(part, doomed)
  {
    if |part| > 0 {
      var own := set m | m in part && Doomed(g.flags, m);
      assert Update(g.(members := part)).members == Sweep(part, own);
      SweepAgree(part, doomed, own);
    }
  }

  lemma {:induction false} SweepAgree(xs: seq<nat>, d1: set<nat>, d2: set<nat>)
    requires forall m :: m in xs ==> (m in d1 <==> m in d2)
    ensures Sweep(xs, d1) == Sweep(xs, d2)
  {
    if |xs| > 0 {
      assert xs[0] in xs;
      SweepAgree(xs[1..], d1, d2);
    }
  }

  /** Pushes the group transform into each member (`push` gives a member's
      transform afterwards). A group of at most one member is left alone. */
  function ApplyAll<T>(members: seq<nat>, poses: map<nat, T>, push: nat -> T): (r: map<nat, T>)
    ensures |members| <= 1 ==> r == poses
    ensures |members| > 1 ==> forall m :: m in members ==> m in r && r[m] == push(m)
    ensures forall m :: m in poses && m !in members ==> m in r && r[m] == poses[m]
  {
    if |members| <= 1 then poses
    else
      var ids := set m | m in members;
      map id | id in poses.Keys + ids :: if id in ids then push(id) else poses[id]
  }

  // ---------------------------------------------------------------------
  // The iterator over the members.

  datatype Cursor = Cursor(list: seq<nat>, pos: nat)

  predicate ValidCursor(c: Cursor) {
    c.pos <= |c.list|
  }

  /** A fresh iterator stands on the first member. */
  function Iterate(g: Group): (c: Cursor)
    ensures ValidCursor(c) && c.pos == 0 && c.list == g.members
  {
    Cursor(g.members, 0)
  }

  /** Whether the iterator stands on a member. */
  function Has(c: Cursor): (r: bool)
    requires ValidCursor(c)
    ensures r <==> c.pos < |c.list|
  {
    c.pos != |c.list|
  }

  /** Advances to the next member unless already at the end. */
  function Next(c: Cursor): (r: Cursor)
    requires ValidCursor(c)
    ensures ValidCursor(r) && r.list == c.list
    ensures r.pos == if c.pos < |c.list| then c.pos + 1 else c.pos
  {
    if c.pos != |c.list| then c.(pos := c.pos + 1) else c
  }

  function Get(c: Cursor): (r: Option<nat>)
    requires ValidCursor(c)
    ensures r.Some? <==> Has(c)
    ensures r.Some? ==> r.value == c.list[c.pos]
  {
    if c.pos != |c.list| then Some(c.list[c.pos]) else None
  }

  function Advance(c: Cursor, k: nat): (r: Cursor)
    requires ValidCursor(c)
    ensures ValidCursor(r)
    decreases k
  {
    if k == 0 then c else Advance(Next(c), k - 1)
  }

  /** k steps from the start reach member k, and never run past the end: the
      iterator visits the members in order, each once. */
  lemma {:induction false} AdvanceVisits(g: Group, k: nat)
    ensures var c := Advance(Iterate(g), k);
      c.list == g.members && c.pos == if k < |g.members| then k else |g.members|
    ensures k < |g.members| ==> Get(Advance(Iterate(g), k)) == Some(g.members[k])
    ensures k >= |g.members| ==> !Has(Advance(Iterate(g), k))
  {
    AdvanceFrom(Iterate(g), k);
  }

  lemma {:induction false} AdvanceFrom(c: Cursor, k: nat)
    requires ValidCursor(c)
    ensures Advance(c, k).list == c.list
    ensures Advance(c, k).pos == if c.pos + k < |c.list| then c.pos + k else |c.list|
    decreases k
  {
    if k > 0 {
      AdvanceFrom(Next(c), k - 1);
    }
  }
}
