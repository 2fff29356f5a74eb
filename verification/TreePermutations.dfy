/**
 The permutations of a tree of thresholds, on values: the breadth-first enumeration and the
 trees it is meant to list.
 */
module TreePermutations {
  import opened Common
  import opened Combinations

  datatype Tree = Tree(id: string, data: Bytes, threshold: nat, kids: seq<Tree>)

  /** A tree without thresholds, as permutations are. */
  datatype Shape = Shape(id: string, data: Bytes, kids: seq<Shape>)

  function ShapeOf(t: Tree): Shape {
    Shape(t.id, t.data, seq(|t.kids|, i requires 0 <= i < |t.kids| => ShapeOf(t.kids[i])))
  }

  function ShapesOf(ts: seq<Tree>): seq<Shape> {
    seq(|ts|, i requires 0 <= i < |ts| => ShapeOf(ts[i]))
  }

  // --------------------------------------------------------------------------- ids

  function Ids(t: Tree): set<string>
    decreases t, 1
  {
    {t.id} + IdsOfAll(t.kids)
  }

  function IdsOfAll(ts: seq<Tree>): set<string>
    decreases ts, 0
  {
    set i, x | 0 <= i < |ts| && x in Ids(ts[i]) :: x
  }

  predicate UniqueIds(t: Tree) {
    && (forall i | 0 <= i < |t.kids| :: t.id !in Ids(t.kids[i]))
    && (forall i, j | 0 <= i < j < |t.kids| :: Ids(t.kids[i]) !! Ids(t.kids[j]))
    && (forall i | 0 <= i < |t.kids| :: UniqueIds(t.kids[i]))
  }

  function ShapeIds(s: Shape): set<string> {
    {s.id} + set i, x | 0 <= i < |s.kids| && x in ShapeIds(s.kids[i]) :: x
  }

  predicate UniqueShape(s: Shape) {
    && (forall i | 0 <= i < |s.kids| :: s.id !in ShapeIds(s.kids[i]))
    && (forall i, j | 0 <= i < j < |s.kids| :: ShapeIds(s.kids[i]) !! ShapeIds(s.kids[j]))
    && (forall i | 0 <= i < |s.kids| :: UniqueShape(s.kids[i]))
  }

  lemma {:induction false} ShapeOfIds(t: Tree)
    ensures ShapeIds(ShapeOf(t)) == Ids(t)
  {
    forall i | 0 <= i < |t.kids| ensures ShapeIds(ShapeOf(t).kids[i]) == Ids(t.kids[i]) {
      ShapeOfIds(t.kids[i]);
    }
  }

  predicate InTree(v: Tree, t: Tree) {
    v == t || exists i | 0 <= i < |t.kids| :: InTree(v, t.kids[i])
  }

  lemma {:induction false} InTreeIds(v: Tree, t: Tree)
    requires InTree(v, t)
    ensures Ids(v) <= Ids(t)
    decreases t
  {
    if v != t {
      var i :| 0 <= i < |t.kids| && InTree(v, t.kids[i]);
      InTreeIds(v, t.kids[i]);
    }
  }

  lemma {:induction false} InTreeUnique(v: Tree, t: Tree)
    requires InTree(v, t) && UniqueIds(t)
    ensures UniqueIds(v)
    decreases t
  {
    if v != t {
      var i :| 0 <= i < |t.kids| && InTree(v, t.kids[i]);
      InTreeUnique(v, t.kids[i]);
    }
  }

  lemma SameIdSameVertex(v: Tree, t: Tree)
    requires InTree(v, t) && UniqueIds(t) && v.id == t.id
    ensures v == t
  {
    if v != t {
      var i :| 0 <= i < |t.kids| && InTree(v, t.kids[i]);
      InTreeIds(v, t.kids[i]);
    }
  }

  // --------------------------------------------------------------------- replacing

  /** The kids of the vertex with the given id exchanged; other vertices are copied. */
  function Replace(s: Shape, id: string, kids: seq<Shape>): Shape {
    if s.id == id then s.(kids := kids)
    else s.(kids := seq(|s.kids|, i requires 0 <= i < |s.kids| => Replace(s.kids[i], id, kids)))
  }

  /** The kids of the first vertex with the given id. */
  function KidsAt(s: Shape, id: string): seq<Shape>
    decreases s, 1
  {
    if s.id == id then s.kids else KidsAtFirst(s.kids, id)
  }

  function KidsAtFirst(ss: seq<Shape>, id: string): seq<Shape>
    decreases ss, 0
  {
    if ss == [] then []
    else if id in ShapeIds(ss[0]) then KidsAt(ss[0], id)
    else KidsAtFirst(ss[1..], id)
  }

  lemma {:induction false} KidsAtFirstAt(ss: seq<Shape>, id: string, k: nat)
    requires k < |ss| && id in ShapeIds(ss[k])
    requires forall j | 0 <= j < k :: id !in ShapeIds(ss[j])
    ensures KidsAtFirst(ss, id) == KidsAt(ss[k], id)
    decreases k
  {
    if k > 0 {
      assert id !in ShapeIds(ss[0]);
      KidsAtFirstAt(ss[1..], id, k - 1);
    }
  }

  lemma {:induction false} ReplaceAbsent(s: Shape, id: string, kids: seq<Shape>)
    requires id !in ShapeIds(s)
    ensures Replace(s, id, kids) == s
  {
    forall i | 0 <= i < |s.kids| ensures Replace(s.kids[i], id, kids) == s.kids[i] {
      ReplaceAbsent(s.kids[i], id, kids);
    }
    assert Replace(s, id, kids).kids == s.kids;
  }

  lemma {:induction false} ReplaceTwice(s: Shape, id: string, c: seq<Shape>, d: seq<Shape>)
    ensures Replace(Replace(s, id, c), id, d) == Replace(s, id, d)
  {
    if s.id != id {
      var once := Replace(s, id, c);
      forall i | 0 <= i < |s.kids| ensures Replace(once.kids[i], id, d) == Replace(s.kids[i], id, d) {
        ReplaceTwice(s.kids[i], id, c, d);
      }
      assert Replace(once, id, d).kids == Replace(s, id, d).kids;
    }
  }

  lemma {:induction false} ReplaceKeepsVertex(s: Shape, id: string, kids: seq<Shape>)
    ensures id in ShapeIds(Replace(s, id, kids)) <==> id in ShapeIds(s)
  {
    if s.id != id {
      var r := Replace(s, id, kids);
      forall i | 0 <= i < |s.kids| ensures id in ShapeIds(r.kids[i]) <==> id in ShapeIds(s.kids[i]) {
        ReplaceKeepsVertex(s.kids[i], id, kids);
      }
      if id in ShapeIds(s) {
        var i :| 0 <= i < |s.kids| && id in ShapeIds(s.kids[i]);
        assert id in ShapeIds(r.kids[i]);
      }
    }
  }

  /** What was put in place of a vertex's kids is found there. */
  lemma {:induction false} KidsAfterReplace(s: Shape, id: string, kids: seq<Shape>)
    requires id in ShapeIds(s)
    ensures KidsAt(Replace(s, id, kids), id) == kids
  {
    if s.id != id {
      var r := Replace(s, id, kids);
      var k := FirstWith(s.kids, id);
      forall j | 0 <= j <= k ensures id in ShapeIds(r.kids[j]) <==> id in ShapeIds(s.kids[j]) {
        ReplaceKeepsVertex(s.kids[j], id, kids);
      }
      KidsAfterReplace(s.kids[k], id, kids);
      KidsAtFirstAt(r.kids, id, k);
    }
  }

  lemma FirstWith(ss: seq<Shape>, id: string) returns (k: nat)
    requires exists i | 0 <= i < |ss| :: id in ShapeIds(ss[i])
    ensures k < |ss| && id in ShapeIds(ss[k]) && forall j | 0 <= j < k :: id !in ShapeIds(ss[j])
  {
    k := 0;
    while id !in ShapeIds(ss[k])
      invariant k < |ss|
      invariant forall j | 0 <= j < k :: id !in ShapeIds(ss[j])
      decreases |ss| - k
    {
      k := k + 1;
    }
  }

  /** Putting a vertex's own kids in their own place changes nothing. */
  lemma {:induction false} ReplaceBySame(s: Shape, id: string)
    requires UniqueShape(s) && id in ShapeIds(s)
    ensures Replace(s, id, KidsAt(s, id)) == s
  {
    if s.id != id {
      var k := FirstWith(s.kids, id);
      KidsAtFirstAt(s.kids, id, k);
      var kids := KidsAt(s, id);
      forall j | 0 <= j < |s.kids| ensures Replace(s.kids[j], id, kids) == s.kids[j] {
        if j == k {
          ReplaceBySame(s.kids[k], id);
        } else {
          if j > k { assert ShapeIds(s.kids[k]) !! ShapeIds(s.kids[j]); }
          ReplaceAbsent(s.kids[j], id, kids);
        }
      }
      assert Replace(s, id, kids).kids == s.kids;
    }
  }

  // --------------------------------------------------------------- what is listed

  /** `s` is `t` with `threshold` of the kids, in order, at every vertex that is kept. */
  ghost predicate Picked(t: Tree, s: Shape) {
    && s.id == t.id && s.data == t.data
    && if t.kids == [] then s.kids == []
       else exists sel: Indices ::
              && IsChoice(|t.kids|, t.threshold, sel) && |s.kids| == |sel|
              && forall j | 0 <= j < |sel| :: Picked(t.kids[sel[j]], s.kids[j])
  }

  /** Picked at the vertices of `done` only; a vertex outside it still has its whole subtree. */
  ghost predicate Partial(done: set<string>, t: Tree, s: Shape)
    decreases t, 1
  {
    if t.id !in done || t.kids == [] then s == ShapeOf(t)
    else s.id == t.id && s.data == t.data && exists sel: Indices :: PartialBy(done, t, s, sel)
  }

  ghost predicate PartialBy(done: set<string>, t: Tree, s: Shape, sel: Indices)
    decreases t, 0
  {
    && IsChoice(|t.kids|, t.threshold, sel) && |s.kids| == |sel|
    && forall j | 0 <= j < |sel| :: Partial(done, t.kids[sel[j]], s.kids[j])
  }

  lemma PartialSelection(done: set<string>, t: Tree, s: Shape) returns (sel: Indices)
    requires Partial(done, t, s) && t.id in done && t.kids != []
    ensures PartialBy(done, t, s, sel)
  {
    sel :| PartialBy(done, t, s, sel);
  }

  /** A vertex is done only if the vertices above it are. */
  ghost predicate UpClosed(done: set<string>, t: Tree) {
    && (t.id !in done ==> Ids(t) !! done)
    && forall i | 0 <= i < |t.kids| :: UpClosed(done, t.kids[i])
  }

  lemma {:induction false} PartialIds(done: set<string>, t: Tree, s: Shape)
    requires Partial(done, t, s) && UniqueIds(t)
    ensures ShapeIds(s) <= Ids(t) && UniqueShape(s)
    decreases t
  {
    ShapeOfIds(t);
    if t.id !in done || t.kids == [] {
      ShapeOfUnique(t);
    } else {
      var sel :| PartialBy(done, t, s, sel);
      forall j | 0 <= j < |sel| ensures ShapeIds(s.kids[j]) <= Ids(t.kids[sel[j]]) && UniqueShape(s.kids[j]) {
        PartialIds(done, t.kids[sel[j]], s.kids[j]);
      }
      forall i, j | 0 <= i < j < |s.kids| ensures ShapeIds(s.kids[i]) !! ShapeIds(s.kids[j]) {
        assert Ids(t.kids[sel[i]]) !! Ids(t.kids[sel[j]]);
      }
    }
  }

  lemma {:induction false} ShapeOfUnique(t: Tree)
    requires UniqueIds(t)
    ensures UniqueShape(ShapeOf(t))
  {
    var s := ShapeOf(t);
    forall i | 0 <= i < |t.kids| ensures ShapeIds(s.kids[i]) == Ids(t.kids[i]) && UniqueShape(s.kids[i]) {
      ShapeOfIds(t.kids[i]);
      ShapeOfUnique(t.kids[i]);
    }
  }

  /** With nothing done there is just the tree itself; with everything done, the picked trees. */
  lemma PartialNone(t: Tree, s: Shape)
    ensures Partial({}, t, s) <==> s == ShapeOf(t)
  {
  }

  lemma {:induction false} PartialIsPicked(done: set<string>, t: Tree, s: Shape)
    requires Ids(t) <= done && Partial(done, t, s)
    ensures Picked(t, s)
    decreases t
  {
    if t.kids != [] {
      assert t.id in Ids(t);
      var sel :| PartialBy(done, t, s, sel);
      forall j | 0 <= j < |sel| ensures Picked(t.kids[sel[j]], s.kids[j]) {
        PartialIsPicked(done, t.kids[sel[j]], s.kids[j]);
      }
    }
  }

  lemma {:induction false} PickedIsPartial(done: set<string>, t: Tree, s: Shape)
    requires Ids(t) <= done && Picked(t, s)
    ensures Partial(done, t, s)
    decreases t
  {
    if t.kids != [] {
      var sel: Indices :| IsChoice(|t.kids|, t.threshold, sel) && |s.kids| == |sel|
                          && forall j | 0 <= j < |sel| :: Picked(t.kids[sel[j]], s.kids[j]);
      forall j | 0 <= j < |sel| ensures Partial(done, t.kids[sel[j]], s.kids[j]) {
        PickedIsPartial(done, t.kids[sel[j]], s.kids[j]);
      }
      assert PartialBy(done, t, s, sel);
    }
  }
}
