/** The breadth-first enumeration of permutations lists every picked tree exactly once. */
module TreeEnumeration {
  import opened Common
  import opened Combinations
  import opened TreePermutations

  // ------------------------------------------------------------------ the algorithm

  function Select(kids: seq<Tree>, sel: Indices): (r: seq<Shape>)
    requires forall j | 0 <= j < |sel| :: sel[j] < |kids|
    ensures |r| == |sel|
  {
    seq(|sel|, j requires 0 <= j < |sel| => ShapeOf(kids[sel[j]]))
  }

  /** The ways to pick `threshold` of the kids of a vertex. */
  function Choices(v: Tree): (r: seq<seq<Shape>>)
    ensures |r| == |ChooseKOutOfN(|v.kids|, v.threshold)|
  {
    var cs := ChooseKOutOfN(|v.kids|, v.threshold);
    ChooseKOutOfNIsExact(|v.kids|, v.threshold);
    assert forall i | 0 <= i < |cs| :: cs[i] in cs;
    seq(|cs|, i requires 0 <= i < |cs| => Select(v.kids, cs[i]))
  }

  /** The permutations that have, or lack, a vertex with the given id. */
  function Having(perms: seq<Shape>, id: string, present: bool): seq<Shape> {
    if perms == [] then []
    else (if (id in ShapeIds(perms[0])) == present then [perms[0]] else []) + Having(perms[1..], id, present)
  }

  function ExpandOne(perm: Shape, id: string, choices: seq<seq<Shape>>): seq<Shape> {
    seq(|choices|, i requires 0 <= i < |choices| => Replace(perm, id, choices[i]))
  }

  function Expand(perms: seq<Shape>, id: string, choices: seq<seq<Shape>>): seq<Shape> {
    if perms == [] then [] else ExpandOne(perms[0], id, choices) + Expand(perms[1..], id, choices)
  }

  /** One turn of the enumeration: the permutations with `v` are multiplied by its choices. */
  function Step(perms: seq<Shape>, v: Tree): seq<Shape> {
    if v.kids == [] then perms
    else Having(perms, v.id, false) + Expand(Having(perms, v.id, true), v.id, Choices(v))
  }

  function Size(t: Tree): nat
    decreases t, 1
  {
    1 + SizeOfAll(t.kids)
  }

  function SizeOfAll(ts: seq<Tree>): nat
    decreases ts, 0
  {
    if ts == [] then 0 else Size(ts[0]) + SizeOfAll(ts[1..])
  }

  lemma {:induction false} SizeOfConcat(ts: seq<Tree>, us: seq<Tree>)
    ensures SizeOfAll(ts + us) == SizeOfAll(ts) + SizeOfAll(us)
  {
    if ts == [] {
      assert ts + us == us;
    } else {
      SizeOfConcat(ts[1..], us);
      assert (ts + us)[1..] == ts[1..] + us;
    }
  }

  /** The enumeration over the vertices that a breadth-first queue yields. */
  function PermuteFrom(queue: seq<Tree>, perms: seq<Shape>): seq<Shape>
    decreases SizeOfAll(queue)
  {
    if queue == [] then perms
    else
      SizeOfConcat(queue[1..], queue[0].kids);
      assert SizeOfAll(queue) == 1 + SizeOfAll(queue[0].kids) + SizeOfAll(queue[1..]);
      PermuteFrom(queue[1..] + queue[0].kids, Step(perms, queue[0]))
  }

  function Permute(t: Tree): seq<Shape> {
    PermuteFrom([t], [ShapeOf(t)])
  }

  // --------------------------------------------------- one vertex becomes done

  /** If `v` is in `t` at all, it is the vertex with its id. */
  predicate Owns(t: Tree, v: Tree) {
    v.id in Ids(t) ==> InTree(v, t)
  }

  lemma OwnsKid(t: Tree, v: Tree, i: nat)
    requires UniqueIds(t) && Owns(t, v) && i < |t.kids|
    ensures Owns(t.kids[i], v)
  {
    hide Ids, InTree, UniqueIds;
    if v.id in Ids(t.kids[i]) {
      IdsOfKid(t, i);
      var j := KidHolding(t, v);
      InTreeIds(v, t.kids[j]);
      OwnId(v);
      if i != j { KidsHaveOwnIds(t, i, j); }
    }
  }

  lemma IdsOfKid(t: Tree, i: nat)
    requires i < |t.kids|
    ensures Ids(t.kids[i]) <= Ids(t)
    ensures UniqueIds(t) ==> t.id !in Ids(t.kids[i])
  {
  }

  lemma KidHolding(t: Tree, v: Tree) returns (j: nat)
    requires InTree(v, t) && v != t
    ensures j < |t.kids| && InTree(v, t.kids[j])
  {
    hide Ids;
    j :| 0 <= j < |t.kids| && InTree(v, t.kids[j]);
  }

  lemma KidsHaveOwnIds(t: Tree, i: nat, j: nat)
    requires UniqueIds(t) && i < |t.kids| && j < |t.kids| && i != j
    ensures Ids(t.kids[i]) !! Ids(t.kids[j])
  {
    hide Ids;
    assert i < j || j < i;
  }

  /** The setting in which `v` is about to be done. */
  ghost predicate Turn(done: set<string>, t: Tree, v: Tree) {
    && UniqueIds(t) && Owns(t, v) && v.kids != [] && v.id !in done
    && UpClosed(done, t) && UpClosed(done + {v.id}, t)
  }

  lemma TurnOfKid(done: set<string>, t: Tree, v: Tree, i: nat)
    requires Turn(done, t, v) && i < |t.kids|
    ensures Turn(done, t.kids[i], v)
  {
    hide Ids, Owns;
    OwnsKid(t, v, i);
  }

  lemma TurnAtVertex(done: set<string>, t: Tree, v: Tree)
    requires Turn(done, t, v) && t.id == v.id
    ensures v == t
    ensures forall i | 0 <= i < |v.kids| :: v.kids[i].id !in done + {v.id}
  {
    assert t.id in Ids(t);
    SameIdSameVertex(v, t);
    forall i | 0 <= i < |v.kids| ensures v.kids[i].id !in done + {v.id} {
      assert v.kids[i].id in Ids(v.kids[i]);
      assert v.kids[i].id in Ids(t);
    }
  }

  /** Outside what is done, and apart from `v` itself, `v` does not occur. */
  lemma TurnElsewhere(done: set<string>, t: Tree, v: Tree)
    requires Turn(done, t, v) && t.id != v.id && (t.id !in done || t.kids == [])
    ensures v.id !in Ids(t) && v.id !in ShapeIds(ShapeOf(t))
  {
    ShapeOfIds(t);
  }

  lemma {:induction false} Forward(done: set<string>, t: Tree, v: Tree, s: Shape, sel: Indices)
    requires Turn(done, t, v) && Partial(done, t, s) && IsChoice(|v.kids|, v.threshold, sel)
    ensures Partial(done + {v.id}, t, Replace(s, v.id, Select(v.kids, sel)))
    decreases t
  {
    hide Turn, ShapeIds, Ids, IsChoice;
    ChoiceLength(|v.kids|, v.threshold, sel);
    var next, c := done + {v.id}, Select(v.kids, sel);
    var r := Replace(s, v.id, c);
    if t.id == v.id {
      TurnAtVertex(done, t, v);
      TurnMeans(done, t, v);
      assert PartialBy(next, t, r, sel);
    } else if t.id !in done || t.kids == [] {
      TurnElsewhere(done, t, v);
      ReplaceAbsent(s, v.id, c);
    } else {
      var old_ :| PartialBy(done, t, s, old_);
      ChoiceLength(|t.kids|, t.threshold, old_);
      forall j | 0 <= j < |old_| ensures Partial(next, t.kids[old_[j]], r.kids[j]) {
        TurnOfKid(done, t, v, old_[j]);
        Forward(done, t.kids[old_[j]], v, s.kids[j], sel);
      }
      assert PartialBy(next, t, r, old_);
    }
  }

  lemma ChoiceLength(n: nat, k: nat, sel: Indices)
    requires IsChoice(n, k, sel)
    ensures |sel| == k && forall j | 0 <= j < |sel| :: sel[j] < n
  {
  }

  lemma TurnMeans(done: set<string>, t: Tree, v: Tree)
    requires Turn(done, t, v)
    ensures v.id !in done && v.kids != [] && UniqueIds(t)
  {
  }

  lemma {:induction false} Backward(done: set<string>, t: Tree, v: Tree, s: Shape)
    requires Turn(done, t, v) && Partial(done + {v.id}, t, s)
    ensures Partial(done, t, Replace(s, v.id, ShapesOf(v.kids)))
    decreases t
  {
    hide Turn, ShapeIds, Ids, IsChoice;
    var next, full := done + {v.id}, ShapesOf(v.kids);
    var r := Replace(s, v.id, full);
    TurnMeans(done, t, v);
    if t.id == v.id {
      TurnAtVertex(done, t, v);
      assert r == ShapeOf(t);
    } else if t.id !in done || t.kids == [] {
      TurnElsewhere(done, t, v);
      ReplaceAbsent(s, v.id, full);
    } else {
      var sel :| PartialBy(next, t, s, sel);
      ChoiceLength(|t.kids|, t.threshold, sel);
      forall j | 0 <= j < |sel| ensures Partial(done, t.kids[sel[j]], r.kids[j]) {
        TurnOfKid(done, t, v, sel[j]);
        Backward(done, t.kids[sel[j]], v, s.kids[j]);
      }
      assert PartialBy(done, t, r, sel);
    }
  }

  /** The kid of `s` in which `v` is found. */
  lemma FindKid(s: Shape, id: string) returns (k: nat)
    requires id in ShapeIds(s) && s.id != id
    ensures k < |s.kids| && id in ShapeIds(s.kids[k]) && KidsAt(s, id) == KidsAt(s.kids[k], id)
  {
    k := FirstWith(s.kids, id);
    KidsAtFirstAt(s.kids, id, k);
  }

  /** In a permutation where `v` is done, its kids are one of its choices. */
  lemma {:induction false} KidsAreChosen(done: set<string>, t: Tree, v: Tree, s: Shape) returns (sel: Indices)
    requires Turn(done, t, v) && Partial(done + {v.id}, t, s) && v.id in ShapeIds(s)
    ensures IsChoice(|v.kids|, v.threshold, sel)
    ensures (forall j | 0 <= j < |sel| :: sel[j] < |v.kids|) && KidsAt(s, v.id) == Select(v.kids, sel)
    decreases t
  {
    hide Turn, ShapeIds, Ids, IsChoice, UpClosed;
    var next := done + {v.id};
    TurnMeans(done, t, v);
    if t.id == v.id {
      TurnAtVertex(done, t, v);
      sel :| PartialBy(next, t, s, sel);
      ChoiceLength(|v.kids|, v.threshold, sel);
      forall j | 0 <= j < |sel| ensures s.kids[j] == ShapeOf(v.kids[sel[j]]) {
        assert Partial(next, v.kids[sel[j]], s.kids[j]);
      }
      assert KidsAt(s, v.id) == Select(v.kids, sel);
    } else if t.id !in done || t.kids == [] {
      TurnElsewhere(done, t, v);
      assert false;
    } else {
      var own :| PartialBy(next, t, s, own);
      ChoiceLength(|t.kids|, t.threshold, own);
      var k := FindKid(s, v.id);
      TurnOfKid(done, t, v, own[k]);
      sel := KidsAreChosen(done, t.kids[own[k]], v, s.kids[k]);
    }
  }

  lemma {:induction false} KidsAtShapeOf(t: Tree, v: Tree)
    requires UniqueIds(t) && InTree(v, t)
    ensures KidsAt(ShapeOf(t), v.id) == ShapesOf(v.kids)
    decreases t
  {
    hide Ids, ShapeIds;
    if t.id == v.id {
      SameIdSameVertex(v, t);
    } else {
      ShapeOfIds(t);
      InTreeIds(v, t);
      assert v.id in ShapeIds(ShapeOf(t)) by { assert v.id in Ids(v) by { OwnId(v); } }
      var k := FindKid(ShapeOf(t), v.id);
      ShapeOfIds(t.kids[k]);
      assert Owns(t.kids[k], v) by { OwnsKid(t, v, k); }
      KidsAtShapeOf(t.kids[k], v);
    }
  }

  lemma OwnId(v: Tree)
    ensures v.id in Ids(v)
  {
  }

  /** In a permutation where `v` is not done, its kids are all of its kids. */
  lemma {:induction false} KidsAreFull(done: set<string>, t: Tree, v: Tree, s: Shape)
    requires Turn(done, t, v) && Partial(done, t, s) && v.id in ShapeIds(s)
    ensures KidsAt(s, v.id) == ShapesOf(v.kids)
    decreases t
  {
    hide Turn, ShapeIds, Ids, IsChoice, UpClosed;
    TurnMeans(done, t, v);
    if t.id == v.id {
      TurnAtVertex(done, t, v);
    } else if t.id !in done || t.kids == [] {
      TurnElsewhere(done, t, v);
      assert false;
    } else {
      var own :| PartialBy(done, t, s, own);
      ChoiceLength(|t.kids|, t.threshold, own);
      var k := FindKid(s, v.id);
      TurnOfKid(done, t, v, own[k]);
      KidsAreFull(done, t.kids[own[k]], v, s.kids[k]);
    }
  }

  lemma RestoreFull(done: set<string>, t: Tree, v: Tree, s: Shape)
    requires Turn(done, t, v) && Partial(done, t, s) && v.id in ShapeIds(s)
    ensures Replace(s, v.id, ShapesOf(v.kids)) == s
  {
    hide Turn, Partial;
    TurnMeans(done, t, v);
    KidsAreFull(done, t, v, s);
    PartialIds(done, t, s);
    ReplaceBySame(s, v.id);
  }

  // ------------------------------------------------------- one turn stays exact

  /** `perms` lists exactly the permutations for `done`, each once. */
  ghost predicate Exact(done: set<string>, t: Tree, perms: seq<Shape>) {
    (forall s :: s in perms <==> Partial(done, t, s)) && NoRepeats(perms)
  }

  lemma {:induction false} HavingMembers(perms: seq<Shape>, id: string, present: bool, s: Shape)
    ensures s in Having(perms, id, present) <==> s in perms && (id in ShapeIds(s)) == present
  {
    hide ShapeIds;
    if perms != [] {
      HavingMembers(perms[1..], id, present, s);
      assert perms == [perms[0]] + perms[1..];
    }
  }

  lemma {:induction false} HavingNoRepeats(perms: seq<Shape>, id: string, present: bool)
    requires NoRepeats(perms)
    ensures NoRepeats(Having(perms, id, present))
  {
    hide ShapeIds;
    if perms != [] {
      HavingNoRepeats(perms[1..], id, present);
      HavingMembers(perms[1..], id, present, perms[0]);
    }
  }

  lemma {:induction false} ExpandFrom(perms: seq<Shape>, id: string, choices: seq<seq<Shape>>, r: Shape)
    returns (s: Shape, c: seq<Shape>)
    requires r in Expand(perms, id, choices)
    ensures s in perms && c in choices && r == Replace(s, id, c)
  {
    hide Replace;
    if r in ExpandOne(perms[0], id, choices) {
      var j :| 0 <= j < |choices| && ExpandOne(perms[0], id, choices)[j] == r;
      s, c := perms[0], choices[j];
    } else {
      s, c := ExpandFrom(perms[1..], id, choices, r);
    }
  }

  lemma {:induction false} ExpandHas(perms: seq<Shape>, id: string, choices: seq<seq<Shape>>, s: Shape, c: seq<Shape>)
    requires s in perms && c in choices
    ensures Replace(s, id, c) in Expand(perms, id, choices)
  {
    hide Replace;
    if perms[0] == s {
      var j :| 0 <= j < |choices| && choices[j] == c;
      assert ExpandOne(s, id, choices)[j] == Replace(s, id, c);
      assert Replace(s, id, c) in ExpandOne(s, id, choices);
    } else {
      ExpandHas(perms[1..], id, choices, s, c);
    }
  }

  /** Different permutations and choices give different results. */
  ghost predicate Separates(perms: seq<Shape>, id: string, choices: seq<seq<Shape>>) {
    forall s, s', c, c' | s in perms && s' in perms && c in choices && c' in choices ::
      Replace(s, id, c) == Replace(s', id, c') ==> s == s' && c == c'
  }

  lemma {:induction false} ExpandNoRepeats(perms: seq<Shape>, id: string, choices: seq<seq<Shape>>)
    requires NoRepeats(perms) && NoRepeats(choices) && Separates(perms, id, choices)
    ensures NoRepeats(Expand(perms, id, choices))
  {
    hide Replace;
    if perms != [] {
      var one, rest := ExpandOne(perms[0], id, choices), Expand(perms[1..], id, choices);
      ExpandNoRepeats(perms[1..], id, choices);
      forall i, j | 0 <= i < j < |one| ensures one[i] != one[j] {
        assert choices[i] in choices && choices[j] in choices && perms[0] in perms;
      }
      forall r | r in one ensures r !in rest {
        var i :| 0 <= i < |one| && one[i] == r;
        if r in rest {
          var s, c := ExpandFrom(perms[1..], id, choices, r);
        }
      }
      NoRepeatsConcat(one, rest);
    }
  }

  lemma ChoicesAreSelections(v: Tree, c: seq<Shape>)
    ensures c in Choices(v) <==>
            exists sel: Indices :: IsChoice(|v.kids|, v.threshold, sel) && SelectsAs(v, sel, c)
  {
    hide ChooseKOutOfN;
    var cs := ChooseKOutOfN(|v.kids|, v.threshold);
    ChooseKOutOfNIsExact(|v.kids|, v.threshold);
    if c in Choices(v) {
      var i :| 0 <= i < |cs| && Choices(v)[i] == c;
      assert cs[i] in cs;
      assert IsChoice(|v.kids|, v.threshold, cs[i]) && SelectsAs(v, cs[i], c);
    }
    if sel: Indices :| IsChoice(|v.kids|, v.threshold, sel) && SelectsAs(v, sel, c) {
      assert sel in cs;
      var i :| 0 <= i < |cs| && cs[i] == sel;
      assert Choices(v)[i] == c;
    }
  }

  ghost predicate SelectsAs(v: Tree, sel: Indices, c: seq<Shape>) {
    (forall j | 0 <= j < |sel| :: sel[j] < |v.kids|) && c == Select(v.kids, sel)
  }

  lemma SelectInjective(v: Tree, a: Indices, b: Indices)
    requires UniqueIds(v)
    requires forall j | 0 <= j < |a| :: a[j] < |v.kids|
    requires forall j | 0 <= j < |b| :: b[j] < |v.kids|
    requires Select(v.kids, a) == Select(v.kids, b)
    ensures a == b
  {
    assert |Select(v.kids, a)| == |a| && |Select(v.kids, b)| == |b|;
    forall j | 0 <= j < |a| ensures a[j] == b[j] {
      assert Select(v.kids, a)[j] == ShapeOf(v.kids[a[j]]) && Select(v.kids, b)[j] == ShapeOf(v.kids[b[j]]);
      DistinctKids(v, a[j], b[j]);
    }
  }

  lemma DistinctKids(v: Tree, i: nat, j: nat)
    requires UniqueIds(v) && i < |v.kids| && j < |v.kids| && v.kids[i].id == v.kids[j].id
    ensures i == j
  {
    OwnId(v.kids[i]);
    OwnId(v.kids[j]);
  }

  lemma ChoicesNoRepeats(v: Tree)
    requires UniqueIds(v)
    ensures NoRepeats(Choices(v))
  {
    hide UniqueIds, ChooseKOutOfN, Select;
    var cs := ChooseKOutOfN(|v.kids|, v.threshold);
    ChooseKOutOfNIsExact(|v.kids|, v.threshold);
    forall i, j | 0 <= i < j < |cs| ensures Choices(v)[i] != Choices(v)[j] {
      assert cs[i] in cs && cs[j] in cs;
      if Choices(v)[i] == Choices(v)[j] {
        SelectInjective(v, cs[i], cs[j]);
      }
    }
  }

  lemma Separated(done: set<string>, t: Tree, v: Tree, s: Shape, s': Shape, c: seq<Shape>, c': seq<Shape>)
    requires Turn(done, t, v) && Partial(done, t, s) && Partial(done, t, s')
    requires v.id in ShapeIds(s) && v.id in ShapeIds(s')
    requires Replace(s, v.id, c) == Replace(s', v.id, c')
    ensures s == s' && c == c'
  {
    hide Turn, Partial, ShapeIds, Replace;
    KidsAfterReplace(s, v.id, c);
    KidsAfterReplace(s', v.id, c');
    RestoreFull(done, t, v, s);
    RestoreFull(done, t, v, s');
    ReplaceTwice(s, v.id, c, ShapesOf(v.kids));
    ReplaceTwice(s', v.id, c', ShapesOf(v.kids));
  }

  /** Everything the turn lists is a permutation with `v` done. */
  lemma StepSound(done: set<string>, t: Tree, v: Tree, perms: seq<Shape>, r: Shape)
    requires Turn(done, t, v) && Exact(done, t, perms) && r in Step(perms, v)
    ensures Partial(done + {v.id}, t, r)
  {
    hide Turn, Partial, ShapeIds, Replace, Choices, Select;
    TurnMeans(done, t, v);
    if r in Having(perms, v.id, false) {
      HavingMembers(perms, v.id, false, r);
      UntouchedIsPartial(done, t, v, r);
    } else {
      var s, c := ExpandFrom(Having(perms, v.id, true), v.id, Choices(v), r);
      HavingMembers(perms, v.id, true, s);
      ChoicesAreSelections(v, c);
      var sel: Indices :| IsChoice(|v.kids|, v.threshold, sel) && SelectsAs(v, sel, c);
      Forward(done, t, v, s, sel);
    }
  }

  lemma {:induction false} UntouchedIsPartial(done: set<string>, t: Tree, v: Tree, s: Shape)
    requires Turn(done, t, v) && v.id !in ShapeIds(s)
    ensures Partial(done, t, s) ==> Partial(done + {v.id}, t, s)
    ensures Partial(done + {v.id}, t, s) ==> Partial(done, t, s)
    decreases t
  {
    var next := done + {v.id};
    if t.id == v.id {
    } else if t.id in done && t.kids != [] {
      if Partial(done, t, s) {
        var sel := PartialSelection(done, t, s);
        forall j | 0 <= j < |sel| ensures Partial(next, t.kids[sel[j]], s.kids[j]) {
          TurnOfKid(done, t, v, sel[j]);
          UntouchedIsPartial(done, t.kids[sel[j]], v, s.kids[j]);
        }
        assert PartialBy(next, t, s, sel);
      }
      if Partial(next, t, s) {
        var sel := PartialSelection(next, t, s);
        forall j | 0 <= j < |sel| ensures Partial(done, t.kids[sel[j]], s.kids[j]) {
          TurnOfKid(done, t, v, sel[j]);
          UntouchedIsPartial(done, t.kids[sel[j]], v, s.kids[j]);
        }
        assert PartialBy(done, t, s, sel);
      }
    }
  }

  /** Every permutation with `v` done is listed by the turn. */
  lemma StepComplete(done: set<string>, t: Tree, v: Tree, perms: seq<Shape>, r: Shape)
    requires Turn(done, t, v) && Exact(done, t, perms) && Partial(done + {v.id}, t, r)
    ensures r in Step(perms, v)
  {
    hide Turn, Partial, ShapeIds, Replace, Choices, Select;
    TurnMeans(done, t, v);
    if v.id !in ShapeIds(r) {
      UntouchedIsPartial(done, t, v, r);
      HavingMembers(perms, v.id, false, r);
    } else {
      var full := ShapesOf(v.kids);
      var s, c := Replace(r, v.id, full), KidsAt(r, v.id);
      Backward(done, t, v, r);
      ReplaceKeepsVertex(r, v.id, full);
      HavingMembers(perms, v.id, true, s);
      var sel := KidsAreChosen(done, t, v, r);
      assert SelectsAs(v, sel, c);
      ChoicesAreSelections(v, c);
      ReplaceTwice(r, v.id, full, c);
      PartialIds(done + {v.id}, t, r);
      ReplaceBySame(r, v.id);
      ExpandHas(Having(perms, v.id, true), v.id, Choices(v), s, c);
    }
  }

  lemma StepNoRepeats(done: set<string>, t: Tree, v: Tree, perms: seq<Shape>)
    requires Turn(done, t, v) && Exact(done, t, perms) && UniqueIds(v)
    ensures NoRepeats(Step(perms, v))
  {
    hide Turn, Partial, ShapeIds, Replace, Choices;
    TurnMeans(done, t, v);
    var without, with := Having(perms, v.id, false), Having(perms, v.id, true);
    HavingNoRepeats(perms, v.id, false);
    HavingNoRepeats(perms, v.id, true);
    ChoicesNoRepeats(v);
    assert Separates(with, v.id, Choices(v)) by {
      forall s, s', c, c' | s in with && s' in with && Replace(s, v.id, c) == Replace(s', v.id, c')
        ensures s == s' && c == c'
      {
        HavingMembers(perms, v.id, true, s);
        HavingMembers(perms, v.id, true, s');
        Separated(done, t, v, s, s', c, c');
      }
    }
    ExpandNoRepeats(with, v.id, Choices(v));
    var expanded := Expand(with, v.id, Choices(v));
    forall r | r in without ensures r !in expanded {
      HavingMembers(perms, v.id, false, r);
      if r in expanded {
        var s, c := ExpandFrom(with, v.id, Choices(v), r);
        HavingMembers(perms, v.id, true, s);
        ReplaceKeepsVertex(s, v.id, c);
      }
    }
    NoRepeatsConcat(without, expanded);
  }

  lemma {:induction false} LeafChangesNothing(done: set<string>, t: Tree, v: Tree, s: Shape)
    requires UniqueIds(t) && Owns(t, v) && v.kids == []
    ensures Partial(done, t, s) ==> Partial(done + {v.id}, t, s)
    ensures Partial(done + {v.id}, t, s) ==> Partial(done, t, s)
    decreases t
  {
    var next := done + {v.id};
    if t.id == v.id {
      OwnId(t);
      SameIdSameVertex(v, t);
    } else if t.id in done && t.kids != [] {
      if Partial(done, t, s) {
        var sel := PartialSelection(done, t, s);
        forall j | 0 <= j < |sel| ensures Partial(next, t.kids[sel[j]], s.kids[j]) {
          OwnsKid(t, v, sel[j]);
          LeafChangesNothing(done, t.kids[sel[j]], v, s.kids[j]);
        }
        assert PartialBy(next, t, s, sel);
      }
      if Partial(next, t, s) {
        var sel := PartialSelection(next, t, s);
        forall j | 0 <= j < |sel| ensures Partial(done, t.kids[sel[j]], s.kids[j]) {
          OwnsKid(t, v, sel[j]);
          LeafChangesNothing(done, t.kids[sel[j]], v, s.kids[j]);
        }
        assert PartialBy(done, t, s, sel);
      }
    }
  }

  /** A turn of the enumeration keeps the list exact. */
  lemma StepIsExact(done: set<string>, t: Tree, v: Tree, perms: seq<Shape>)
    requires UniqueIds(t) && InTree(v, t) && v.id !in done
    requires UpClosed(done, t) && UpClosed(done + {v.id}, t)
    requires Exact(done, t, perms)
    ensures Exact(done + {v.id}, t, Step(perms, v))
  {
    hide Partial, Ids, UpClosed, InTree;
    if v.kids == [] {
      forall s ensures s in perms <==> Partial(done + {v.id}, t, s) {
        LeafChangesNothing(done, t, v, s);
      }
    } else {
      assert Turn(done, t, v);
      InTreeUnique(v, t);
      StepNoRepeats(done, t, v, perms);
      forall s ensures s in Step(perms, v) <==> Partial(done + {v.id}, t, s) {
        if s in Step(perms, v) { StepSound(done, t, v, perms, s); }
        if Partial(done + {v.id}, t, s) { StepComplete(done, t, v, perms, s); }
      }
    }
  }

  // ------------------------------------------------------------ breadth-first order

  lemma {:induction false} UpClosedUnion(a: set<string>, b: set<string>, t: Tree)
    requires UpClosed(a, t) && UpClosed(b, t)
    ensures UpClosed(a + b, t)
  {
    forall i | 0 <= i < |t.kids| ensures UpClosed(a + b, t.kids[i]) {
      UpClosedUnion(a, b, t.kids[i]);
    }
  }

  lemma {:induction false} UpClosedElsewhere(done: set<string>, x: string, t: Tree)
    requires UpClosed(done, t) && x !in Ids(t)
    ensures UpClosed(done + {x}, t)
  {
    forall i | 0 <= i < |t.kids| ensures UpClosed(done + {x}, t.kids[i]) {
      UpClosedElsewhere(done, x, t.kids[i]);
    }
  }

  /** Below a vertex that is done, each of its kids may be done next. */
  lemma {:induction false} KidUpClosed(done: set<string>, t: Tree, v: Tree, k: nat)
    requires UniqueIds(t) && InTree(v, t) && k < |v.kids|
    requires UpClosed(done, t) && v.id in done
    ensures UpClosed(done + {v.kids[k].id}, t)
    decreases t
  {
    var x := v.kids[k].id;
    InTreeIds(v, t);
    OwnId(v);
    assert t.id in done;
    if v == t {
      forall i | 0 <= i < |t.kids| ensures UpClosed(done + {x}, t.kids[i]) {
        OwnId(v.kids[k]);
        if i == k {
          TopUpClosed(done, t.kids[k]);
        } else {
          UpClosedElsewhere(done, x, t.kids[i]);
        }
      }
    } else {
      var m :| 0 <= m < |t.kids| && InTree(v, t.kids[m]);
      InTreeIds(v, t.kids[m]);
      assert x in Ids(t.kids[m]) by { OwnId(v.kids[k]); assert x in IdsOfAll(v.kids); }
      forall i | 0 <= i < |t.kids| ensures UpClosed(done + {x}, t.kids[i]) {
        if i == m {
          KidUpClosed(done, t.kids[m], v, k);
        } else {
          UpClosedElsewhere(done, x, t.kids[i]);
        }
      }
    }
  }

  lemma TopUpClosed(done: set<string>, t: Tree)
    requires UpClosed(done, t) && UniqueIds(t)
    ensures UpClosed(done + {t.id}, t)
  {
    forall i | 0 <= i < |t.kids| ensures UpClosed(done + {t.id}, t.kids[i]) {
      UpClosedElsewhere(done, t.id, t.kids[i]);
    }
  }

  ghost predicate MayBeNext(done: set<string>, t: Tree, q: Tree) {
    InTree(q, t) && Ids(q) !! done && UpClosed(done + {q.id}, t)
  }

  /** The queue holds the topmost vertices that are not done. */
  ghost predicate Frontier(done: set<string>, t: Tree, queue: seq<Tree>) {
    && UpClosed(done, t)
    && (forall i | 0 <= i < |queue| :: MayBeNext(done, t, queue[i]))
    && (forall i, j | 0 <= i < j < |queue| :: Ids(queue[i]) !! Ids(queue[j]))
    && Ids(t) <= done + IdsOfAll(queue)
  }

  lemma NextStaysNext(done: set<string>, t: Tree, v: Tree, q: Tree)
    requires MayBeNext(done, t, v) && MayBeNext(done, t, q) && Ids(v) !! Ids(q)
    ensures MayBeNext(done + {v.id}, t, q)
  {
    hide InTree, UpClosed;
    OwnId(v);
    UpClosedUnion(done + {v.id}, done + {q.id}, t);
    assert (done + {v.id}) + (done + {q.id}) == done + {v.id} + {q.id};
  }

  lemma {:induction false} InTreeKid(v: Tree, t: Tree, k: nat)
    requires InTree(v, t) && k < |v.kids|
    ensures InTree(v.kids[k], t)
    decreases t
  {
    if v == t {
      assert InTree(v.kids[k], t.kids[k]);
    } else {
      var m :| 0 <= m < |t.kids| && InTree(v, t.kids[m]);
      InTreeKid(v, t.kids[m], k);
    }
  }

  lemma KidIds(v: Tree, k: nat)
    requires k < |v.kids|
    ensures Ids(v.kids[k]) <= Ids(v)
  {
  }

  lemma KidWith(v: Tree, x: string) returns (k: nat)
    requires x in Ids(v) && x != v.id
    ensures k < |v.kids| && x in Ids(v.kids[k])
  {
    assert x in IdsOfAll(v.kids);
    k :| 0 <= k < |v.kids| && x in Ids(v.kids[k]);
  }

  lemma KidBecomesNext(done: set<string>, t: Tree, v: Tree, k: nat)
    requires UniqueIds(t) && MayBeNext(done, t, v) && k < |v.kids|
    ensures MayBeNext(done + {v.id}, t, v.kids[k])
  {
    hide UpClosed, InTree, Ids;
    InTreeKid(v, t, k);
    InTreeUnique(v, t);
    KidUpClosed(done + {v.id}, t, v, k);
    KidIds(v, k);
  }

  lemma FrontierDisjoint(done: set<string>, t: Tree, queue: seq<Tree>, next: seq<Tree>, i: nat, j: nat)
    requires UniqueIds(t) && Frontier(done, t, queue) && queue != []
    requires next == queue[1..] + queue[0].kids && i < j < |next|
    ensures Ids(next[i]) !! Ids(next[j])
  {
    hide Ids, UpClosed, IdsOfAll, InTree;
    var v, m := queue[0], |queue| - 1;
    assert MayBeNext(done, t, v);
    InTreeUnique(v, t);
    if j < m {
      assert next[i] == queue[i + 1] && next[j] == queue[j + 1];
    } else if i < m {
      assert next[i] == queue[i + 1] && next[j] == v.kids[j - m];
      KidIds(v, j - m);
      assert Ids(queue[0]) !! Ids(queue[i + 1]);
    } else {
      assert next[i] == v.kids[i - m] && next[j] == v.kids[j - m];
    }
  }

  lemma FrontierCovers(done: set<string>, t: Tree, queue: seq<Tree>, x: string)
    requires Frontier(done, t, queue) && queue != [] && x in Ids(t)
    ensures x in done + {queue[0].id} + IdsOfAll(queue[1..] + queue[0].kids)
  {
    hide UpClosed, MayBeNext, Ids;
    var v, next := queue[0], queue[1..] + queue[0].kids;
    if x !in done && x != v.id {
      var i :| 0 <= i < |queue| && x in Ids(queue[i]);
      if i == 0 {
        var k := KidWith(v, x);
        assert next[|queue| - 1 + k] == v.kids[k];
      } else {
        assert next[i - 1] == queue[i];
      }
    }
  }

  lemma FrontierStep(done: set<string>, t: Tree, queue: seq<Tree>)
    requires UniqueIds(t) && Frontier(done, t, queue) && queue != []
    ensures Frontier(done + {queue[0].id}, t, queue[1..] + queue[0].kids)
  {
    hide Ids, UpClosed, IdsOfAll, InTree;
    var v, next, m := queue[0], queue[1..] + queue[0].kids, |queue| - 1;
    assert MayBeNext(done, t, v);
    forall i | 0 <= i < |next| ensures MayBeNext(done + {v.id}, t, next[i]) {
      if i < m {
        assert next[i] == queue[i + 1];
        NextStaysNext(done, t, v, queue[i + 1]);
      } else {
        assert next[i] == v.kids[i - m];
        KidBecomesNext(done, t, v, i - m);
      }
    }
    forall i, j | 0 <= i < j < |next| ensures Ids(next[i]) !! Ids(next[j]) {
      FrontierDisjoint(done, t, queue, next, i, j);
    }
    forall x | x in Ids(t) ensures x in done + {v.id} + IdsOfAll(next) {
      FrontierCovers(done, t, queue, x);
    }
  }

  lemma {:induction false} PermuteFromIsExact(done: set<string>, t: Tree, queue: seq<Tree>, perms: seq<Shape>)
    returns (all: set<string>)
    requires UniqueIds(t) && Frontier(done, t, queue) && Exact(done, t, perms)
    ensures Ids(t) <= all && Exact(all, t, PermuteFrom(queue, perms))
    decreases SizeOfAll(queue)
  {
    hide Exact, UniqueIds, UpClosed, Step, Ids;
    if queue == [] {
      all := done;
      assert Ids(t) <= done by { EmptyFrontier(done, t); }
    } else {
      var v := queue[0];
      assert MayBeNext(done, t, v);
      assert v.id !in done by { OwnId(v); }
      StepIsExact(done, t, v, perms);
      FrontierStep(done, t, queue);
      SizeOfConcat(queue[1..], v.kids);
      assert SizeOfAll(queue) == 1 + SizeOfAll(v.kids) + SizeOfAll(queue[1..]);
      all := PermuteFromIsExact(done + {v.id}, t, queue[1..] + v.kids, Step(perms, v));
    }
  }

  lemma EmptyFrontier(done: set<string>, t: Tree)
    requires Frontier(done, t, [])
    ensures Ids(t) <= done
  {
  }

  lemma {:induction false} NothingDone(t: Tree)
    ensures UpClosed({}, t)
  {
    forall i | 0 <= i < |t.kids| ensures UpClosed({}, t.kids[i]) {
      NothingDone(t.kids[i]);
    }
  }

  lemma InitialFrontier(t: Tree)
    requires UniqueIds(t)
    ensures Frontier({}, t, [t])
  {
    NothingDone(t);
    TopUpClosed({}, t);
    assert {} + {t.id} == {t.id};
    assert Ids(t) <= IdsOfAll([t]) by {
      forall x | x in Ids(t) ensures x in IdsOfAll([t]) {
        assert x in Ids([t][0]);
      }
    }
  }

  /**
   For a tree with unique ids the enumeration lists exactly the trees that pick `threshold` kids,
   in order, at every vertex they keep, and lists none of them twice.
   */
  lemma PermuteIsExact(t: Tree)
    requires UniqueIds(t)
    ensures forall s :: s in Permute(t) <==> Picked(t, s)
    ensures NoRepeats(Permute(t))
  {
    hide UniqueIds, Ids, Picked, Partial, PermuteFrom, Frontier;
    InitialFrontier(t);
    assert Exact({}, t, [ShapeOf(t)]) by {
      forall s ensures s in [ShapeOf(t)] <==> Partial({}, t, s) {
        PartialNone(t, s);
      }
    }
    var all := PermuteFromIsExact({}, t, [t], [ShapeOf(t)]);
    forall s ensures s in Permute(t) <==> Picked(t, s) {
      if s in Permute(t) { PartialIsPicked(all, t, s); }
      if Picked(t, s) { PickedIsPartial(all, t, s); }
    }
  }

  /** Every vertex that has kids has at least as many as its threshold. */
  predicate Enough(t: Tree) {
    t.kids == [] || (|t.kids| >= t.threshold && forall i | 0 <= i < |t.kids| :: Enough(t.kids[i]))
  }

  lemma {:induction false} EnoughToPick(t: Tree) returns (s: Shape)
    requires Enough(t)
    ensures Picked(t, s)
    decreases t
  {
    if t.kids == [] {
      s := Shape(t.id, t.data, []);
    } else {
      var picks := PickEach(t, t.threshold);
      s := Shape(t.id, t.data, picks);
      var sel: Indices := seq(t.threshold, i => i);
      assert IsChoice(|t.kids|, t.threshold, sel);
      assert forall j | 0 <= j < |sel| :: Picked(t.kids[sel[j]], s.kids[j]);
    }
  }

  lemma {:induction false} PickEach(t: Tree, n: nat) returns (picks: seq<Shape>)
    requires n <= |t.kids| && forall i | 0 <= i < |t.kids| :: Enough(t.kids[i])
    ensures |picks| == n && forall i | 0 <= i < n :: Picked(t.kids[i], picks[i])
    decreases t, 0, n
  {
    if n == 0 {
      picks := [];
    } else {
      var before := PickEach(t, n - 1);
      var last := EnoughToPick(t.kids[n - 1]);
      picks := before + [last];
    }
  }

  /** With enough kids everywhere there is at least one permutation. */
  lemma EnoughMeansSome(t: Tree)
    requires UniqueIds(t) && Enough(t)
    ensures Permute(t) != []
  {
    PermuteIsExact(t);
    var s := EnoughToPick(t);
    assert s in Permute(t);
  }
}
