/** The enumeration of permutations on heap trees, and the pruning that precedes it. */
module TreePermuter {
  import opened Common
  import opened Combinations
  import opened TreePermutations
  import opened TreeEnumeration
  import opened TreeHeap
  import opened TreePruning

  class BfsIterator {
    var arr: seq<TreeVertex>

    constructor (v: TreeVertex)
      ensures arr == [v]
    {
      arr := [v];
    }

    /** Dequeues a vertex and enqueues its descendants. */
    method Next() returns (v: TreeVertex?)
      modifies this
      ensures old(arr) == [] ==> v == null && arr == []
      ensures old(arr) != [] ==> v == old(arr)[0] && arr == old(arr)[1..] + v.Descendants
    {
      if |arr| == 0 {
        return null;
      }
      v := arr[0];
      arr := arr[1..];
      for i := 0 to |v.Descendants|
        invariant arr == old(arr)[1..] + v.Descendants[..i]
      {
        arr := arr + [v.Descendants[i]];
      }
    }
  }

  lemma SelectNodes(n: Node, sel: Indices)
    requires Within(sel, |n.kids|)
    ensures VertexSeq(SelectFrom(n.kids, sel)) == SelectFrom(VertexSeq(n.kids), sel)
    ensures NodeShapes(SelectFrom(n.kids, sel)) == Select(TreeOf(n).kids, sel)
    ensures VerticesOfAll(SelectFrom(n.kids, sel)) <= Vertices(n)
  {
    var ks := SelectFrom(n.kids, sel);
    forall j | 0 <= j < |sel| ensures NodeShape(ks[j]) == ShapeOf(TreeOf(n).kids[sel[j]]) {
      ShapeOfTreeOf(n.kids[sel[j]]);
    }
    assert NodeShapes(ks) == Select(TreeOf(n).kids, sel);
    forall j | 0 <= j < |sel| ensures Vertices(ks[j]) <= Vertices(n) {
      KidVertices(n, sel[j]);
    }
  }

  lemma SelectedHold(n: Node, sel: Indices)
    requires Holds(n) && Within(sel, |n.kids|)
    ensures HoldAll(SelectFrom(n.kids, sel))
  {
    hide Vertices;
    HoldsKids(n);
  }

  /** One permutation multiplied by the options of one of its vertices. */
  method ExpandPermutation(
    perm: TreeVertex, v: TreeVertex, options: seq<seq<TreeVertex>>, ghost pn: Node, ghost vn: Node)
    returns (out: seq<TreeVertex>, ghost ns: seq<Node>)
    requires Holds(pn) && pn.vertex == perm && Holds(vn) && vn.vertex == v
    requires options == Selections(VertexSeq(vn.kids), vn.threshold)
    ensures out == VertexSeq(ns) && HoldAll(ns) && |out| == |options|
    ensures NodeShapes(ns) == ExpandOne(NodeShape(pn), v.Id, Choices(TreeOf(vn)))
  {
    hide NodeShape, Separate, Vertices, VerticesOfAll, Replace, ChooseKOutOfN, Choices, Select;
    ghost var cs := ChooseKOutOfN(|vn.kids|, vn.threshold);
    ghost var choices := Choices(TreeOf(vn));
    ChoicesWithin(|vn.kids|, vn.threshold);
    out, ns := [], [];
    assert allocated(Vertices(pn)) && allocated(Vertices(vn));
    for i := 0 to |options|
      invariant out == VertexSeq(ns) && |ns| == i && HoldAll(ns)
      invariant Holds(pn) && Holds(vn)
      invariant forall k | 0 <= k < i :: NodeShape(ns[k]) == Replace(NodeShape(pn), v.Id, choices[k])
    {
      assert allocated(VerticesOfAll(ns));
      label before:
      var subGraph := new TreeVertex(v.Id, v.Data, options[i]);
      ghost var ks := SelectFrom(vn.kids, cs[i]);
      SelectNodes(vn, cs[i]);
      ChoiceAt(vn, i);
      var newTree, cn := perm.Clone(pn);
      assert Holds(vn);
      SelectedHold(vn, cs[i]);
      ghost var mn := newTree.ReplaceAt(v.Id, subGraph, cn, ks);
      assert HoldAll(ns) by { assert old@before(HoldAll(ns)); }
      out, ns := out + [newTree], ns + [mn];
    }
  }

  lemma ChoiceAt(vn: Node, i: nat)
    requires i < |ChooseKOutOfN(|vn.kids|, vn.threshold)|
    ensures Within(ChooseKOutOfN(|vn.kids|, vn.threshold)[i], |vn.kids|)
    ensures i < |Choices(TreeOf(vn))|
    ensures Choices(TreeOf(vn))[i] == Select(TreeOf(vn).kids, ChooseKOutOfN(|vn.kids|, vn.threshold)[i])
    ensures |Choices(TreeOf(vn))| == |ChooseKOutOfN(|vn.kids|, vn.threshold)|
  {
    hide ChooseKOutOfN;
    ChoicesWithin(|vn.kids|, vn.threshold);
  }

  /** The permutations where a vertex exists, and those where it does not, in their order. */
  method Partition(perms: seq<TreeVertex>, id: string, ghost ns: seq<Node>)
    returns (where: seq<TreeVertex>, whereNot: seq<TreeVertex>, ghost yes: seq<Node>, ghost no: seq<Node>)
    requires perms == VertexSeq(ns) && HoldAll(ns)
    ensures where == VertexSeq(yes) && NodeShapes(yes) == Having(NodeShapes(ns), id, true) && HoldAll(yes)
    ensures whereNot == VertexSeq(no) && NodeShapes(no) == Having(NodeShapes(ns), id, false) && HoldAll(no)
    ensures |where| == |Having(NodeShapes(ns), id, true)| && |whereNot| == |Having(NodeShapes(ns), id, false)|
  {
    hide NodeShape, Vertices, VerticesOfAll, ShapeIds, Holds, Having;
    where, whereNot, yes, no := [], [], [], [];
    ghost var shapes := NodeShapes(ns);
    assert allocated(VerticesOfAll(ns));
    assert shapes[0..] == shapes;
    for i := 0 to |perms|
      invariant HoldAll(ns)
      invariant where == VertexSeq(yes) && whereNot == VertexSeq(no)
      invariant (forall k | 0 <= k < |yes| :: yes[k] in ns) && (forall k | 0 <= k < |no| :: no[k] in ns)
      invariant Having(shapes, id, true) == NodeShapes(yes) + Having(shapes[i..], id, true)
      invariant Having(shapes, id, false) == NodeShapes(no) + Having(shapes[i..], id, false)
    {
      assert shapes[i..][0] == NodeShape(ns[i]);
      HavingStep(shapes, i, id);
      var found := perms[i].Exists(id, ns[i]);
      if found {
        NodeShapesMore(yes, ns[i]);
        where, yes := where + [perms[i]], yes + [ns[i]];
      } else {
        NodeShapesMore(no, ns[i]);
        whereNot, no := whereNot + [perms[i]], no + [ns[i]];
      }
    }
    assert shapes[|perms|..] == [];
    NoneHaving(id);
  }

  lemma HavingStep(shapes: seq<Shape>, i: nat, id: string)
    requires i < |shapes|
    ensures Having(shapes[i..], id, true)
            == (if id in ShapeIds(shapes[i]) then [shapes[i]] else []) + Having(shapes[i + 1..], id, true)
    ensures Having(shapes[i..], id, false)
            == (if id in ShapeIds(shapes[i]) then [] else [shapes[i]]) + Having(shapes[i + 1..], id, false)
  {
    hide ShapeIds;
    assert shapes[i..][0] == shapes[i] && shapes[i..][1..] == shapes[i + 1..];
  }

  lemma NoneHaving(id: string)
    ensures Having([], id, true) == [] && Having([], id, false) == []
  {
  }

  lemma NodeShapesConcat(ns: seq<Node>, ms: seq<Node>)
    ensures NodeShapes(ns + ms) == NodeShapes(ns) + NodeShapes(ms)
    ensures VertexSeq(ns + ms) == VertexSeq(ns) + VertexSeq(ms)
  {
    hide NodeShape;
  }

  lemma HoldConcat(ns: seq<Node>, ms: seq<Node>)
    requires HoldAll(ns) && HoldAll(ms)
    ensures HoldAll(ns + ms)
  {
    hide Holds, Vertices;
  }

  /** Every permutation of a list multiplied by the options of one vertex. */
  method ExpandAll(
    where: seq<TreeVertex>, v: TreeVertex, options: seq<seq<TreeVertex>>, ghost yes: seq<Node>, ghost vn: Node)
    returns (out: seq<TreeVertex>, ghost ns: seq<Node>)
    requires where == VertexSeq(yes) && HoldAll(yes) && Holds(vn) && vn.vertex == v
    requires options == Selections(VertexSeq(vn.kids), vn.threshold)
    ensures out == VertexSeq(ns) && HoldAll(ns)
    ensures NodeShapes(ns) == Expand(NodeShapes(yes), v.Id, Choices(TreeOf(vn)))
  {
    hide NodeShape, Vertices, VerticesOfAll, Holds, Selections, Choices, HoldAll, ExpandOne;
    out, ns := [], [];
    HoldNone();
    ghost var shapes, choices := NodeShapes(yes), Choices(TreeOf(vn));
    assert shapes[0..] == shapes;
    assert allocated(Vertices(vn)) && allocated(VerticesOfAll(yes));
    for i := 0 to |where|
      invariant HoldAll(yes) && Holds(vn)
      invariant out == VertexSeq(ns) && HoldAll(ns)
      invariant NodeShapes(ns) + Expand(shapes[i..], v.Id, choices) == Expand(shapes, v.Id, choices)
    {
      assert shapes[i..][0] == NodeShape(yes[i]) && shapes[i..][1..] == shapes[i + 1..];
      assert allocated(VerticesOfAll(ns));
      HoldsOne(yes, i);
      var more, on := ExpandPermutation(where[i], v, options, yes[i], vn);
      NodeShapesConcat(ns, on);
      HoldConcat(ns, on);
      out, ns := out + more, ns + on;
    }
    assert shapes[|where|..] == [];
  }

  lemma HoldNone()
    ensures HoldAll([])
  {
  }

  /** The enumeration's own record: the permutations so far and the options of every vertex. */
  class TreePermutationsState {
    const originalRoot: TreeVertex
    const combinationUpperBound: int
    var permutations: seq<TreeVertex>
    var descendantPermutations: Options

    constructor (root: TreeVertex, combinationUpperBound: int)
      ensures originalRoot == root && this.combinationUpperBound == combinationUpperBound
      ensures permutations == [root] && descendantPermutations == map[]
    {
      originalRoot, this.combinationUpperBound := root, combinationUpperBound;
      permutations, descendantPermutations := [root], map[];
    }

    /** Records, one by one, the selections of the descendants that a vertex has left. */
    method RecordOptions(v: TreeVertex)
      modifies this`descendantPermutations
      ensures OptionsFor(descendantPermutations, v)
           == old(OptionsFor(descendantPermutations, v)) + Selections(v.Descendants, v.Threshold)
      ensures forall x | x != v :: OptionsFor(descendantPermutations, x) == OptionsFor(old(descendantPermutations), x)
      ensures descendantPermutations.Keys <= old(descendantPermutations).Keys + {v}
    {
      hide ChooseKOutOfN;
      ChoicesWithin(|v.Descendants|, v.Threshold);
      ghost var start := OptionsFor(descendantPermutations, v);
      ghost var all := Selections(v.Descendants, v.Threshold);
      var sets := ComputeChooseKOutOfN(|v.Descendants|, v.Threshold);
      for i := 0 to |sets|
        invariant v.Descendants == old(v.Descendants) && v.Threshold == old(v.Threshold)
        invariant OptionsFor(descendantPermutations, v) == start + all[..i]
        invariant forall x | x != v ::
                    OptionsFor(descendantPermutations, x) == OptionsFor(old(descendantPermutations), x)
        invariant descendantPermutations.Keys <= old(descendantPermutations).Keys + {v}
      {
        var selected := SelectFrom(v.Descendants, sets[i]);
        assert all[..i + 1] == all[..i] + [selected];
        descendantPermutations :=
          descendantPermutations[v := OptionsFor(descendantPermutations, v) + [selected]];
      }
      assert all[..|sets|] == all;
    }

    /** Prunes one vertex and records its options; fails where pruning would have to go on without end. */
    method Prepare(v: TreeVertex, ghost q: Node) returns (ok: bool)
      requires v !in descendantPermutations
      requires v.Descendants == VertexSeq(q.kids) && v.Threshold == q.threshold && q.vertex == v
      modifies this`descendantPermutations, v`Descendants
      ensures ok <==> Prunable(combinationUpperBound, q)
      ensures ok ==> Done(descendantPermutations, combinationUpperBound, q)
      ensures forall x | x != v :: OptionsFor(descendantPermutations, x) == OptionsFor(old(descendantPermutations), x)
      ensures descendantPermutations.Keys <= old(descendantPermutations).Keys + {v}
    {
      hide ChooseKOutOfN, Selections, Thinned, CombinationsExceed;
      if |v.Descendants| == 0 {
        LeafIsDone(descendantPermutations, combinationUpperBound, q);
        return true;
      }
      var kept;
      ok, kept := Prune(v.Descendants, v.Threshold, combinationUpperBound);
      if !ok {
        return false;
      }
      v.Descendants := kept;
      RecordOptions(v);
    }

    /** Visits every vertex breadth first, prunes it and records its options. */
    method ComputeDescendantPermutations(ghost n: Node) returns (ok: bool, ghost m: Node)
      requires Holds(n) && n.vertex == originalRoot && Separate(n) && descendantPermutations == map[]
      modifies this`descendantPermutations, Vertices(n)
      ensures ok <==> AllPrunable(combinationUpperBound, n)
      ensures ok ==> Holds(m) && m.vertex == originalRoot
      ensures ok ==> Thins(combinationUpperBound, m, n) && Offers(descendantPermutations, m)
    {
      hide Vertices, VerticesOfAll, HoldAll, Done, Holds, Nodes, NodesOfAll, TreeOf, Separate, SeparateAll,
        Thins, Offers;
      assert allocated(Vertices(n));
      var it := new BfsIterator(originalRoot);
      ghost var queue := [n];
      ghost var done: set<Node> := {};
      HoldSingle(n);
      StartQueue(n);
      while true
        invariant fresh(it) && it.arr == VertexSeq(queue) && HoldAll(queue) && SeparateAll(queue)
        invariant VerticesOfAll(queue) <= Vertices(n)
        invariant forall q | q in done ::
                    q.vertex !in VerticesOfAll(queue) && Done(descendantPermutations, combinationUpperBound, q)
        invariant descendantPermutations.Keys !! VerticesOfAll(queue)
        invariant NodesOfAll(queue) <= Nodes(n) <= done + NodesOfAll(queue)
        decreases SizeOfAll(TreesOf(queue))
      {
        var v := it.Next();
        if v == null {
          assert queue == [];
          break;
        }
        ghost var q := queue[0];
        assert q.vertex in VerticesOfAll(queue) by { MemberVertices(queue, 0); NodeVertices(q); }
        HoldsOne(queue, 0);
        HoldsThreshold(queue, 0);
        QueueStep(queue, []);
        HoldQueue(queue);
        SeparateQueue(queue);
        ghost var rest := queue[1..] + q.kids;
        forall x | x in VerticesOfAll(rest) ensures x in VerticesOfAll(queue) && x != v {
          VerticesOfQueue(queue, x);
        }
        assert allocated(VerticesOfAll(rest));
        forall x | x in Nodes(n) ensures x in done + {q} + NodesOfAll(rest) {
          if x in NodesOfAll(queue) { NodesOfQueue(queue, x); }
        }
        forall x | x in NodesOfAll(rest) + {q} ensures x in NodesOfAll(queue) { NodesOfRest(queue, x); }
        label before:
        ok := Prepare(v, q);
        if !ok {
          return false, n;
        }
        assert HoldAll(rest) by { assert old@before(HoldAll(rest)); }
        forall d | d in done ensures Done(descendantPermutations, combinationUpperBound, d) {
          assert old@before(Done(descendantPermutations, combinationUpperBound, d));
          StillDone(old@before(descendantPermutations), descendantPermutations, combinationUpperBound, d);
        }
        done := done + {q};
        queue := rest;
      }
      NoNodes();
      EachDoneIsAllDone(descendantPermutations, combinationUpperBound, n);
      m := Assemble(descendantPermutations, combinationUpperBound, n);
      ok := true;
      AllDonePrunable(descendantPermutations, combinationUpperBound, n);
    }

    /** One turn: the permutations with `v` are replaced by their expansions. */
    method Turn(v: TreeVertex, ghost vn: Node, ghost pn: seq<Node>) returns (ghost ns: seq<Node>)
      requires permutations == VertexSeq(pn) && HoldAll(pn)
      requires Holds(vn) && vn.vertex == v && vn.kids != []
      requires OptionsFor(descendantPermutations, v) == Selections(VertexSeq(vn.kids), vn.threshold)
      modifies this`permutations
      ensures permutations == VertexSeq(ns) && HoldAll(ns)
      ensures NodeShapes(ns) == Step(NodeShapes(pn), TreeOf(vn))
    {
      hide NodeShape, Vertices, VerticesOfAll, Holds, Selections, Choices, HoldAll;
      assert allocated(Vertices(vn));
      var where, whereNot, yes, no := Partition(permutations, v.Id, pn);
      assert allocated(VerticesOfAll(no));
      var expanded, on := ExpandAll(where, v, OptionsFor(descendantPermutations, v), yes, vn);
      assert HoldAll(no);
      NodeShapesConcat(no, on);
      HoldConcat(no, on);
      ns := no + on;
      assert allocated(VerticesOfAll(ns));
      permutations := whereNot + expanded;
    }

    /**
     Enumerates the permutations of the (pruned) original tree, which stays as it is although the
     permutations share its vertices.
     */
    method Permute(ghost n: Node) returns (res: seq<TreeVertex>, ghost ns: seq<Node>)
      requires Holds(n) && n.vertex == originalRoot && Offers(descendantPermutations, n)
      requires permutations == [originalRoot]
      modifies this`permutations
      ensures res == VertexSeq(ns) && HoldAll(ns) && Holds(n)
      ensures NodeShapes(ns) == TreeEnumeration.Permute(TreeOf(n))
    {
      hide NodeShape, Vertices, VerticesOfAll, HoldAll, Selections, Step, TreeOf, Holds;
      assert allocated(Vertices(n));
      var it := new BfsIterator(originalRoot);
      ghost var queue := [n];
      ns := [n];
      HoldSingle(n);
      SingleRoot(n);
      assert forall q | q in queue :: Offers(descendantPermutations, q);
      while true
        invariant Holds(n)
        invariant it.arr == VertexSeq(queue) && HoldAll(queue) && fresh(it)
        invariant permutations == VertexSeq(ns) && HoldAll(ns)
        invariant forall q | q in queue :: Offers(descendantPermutations, q)
        invariant PermuteFrom(TreesOf(queue), NodeShapes(ns)) == TreeEnumeration.Permute(TreeOf(n))
        decreases SizeOfAll(TreesOf(queue))
      {
        assert allocated(VerticesOfAll(queue)) && allocated(VerticesOfAll(ns));
        var v := it.Next();
        if v == null {
          assert queue == [];
          break;
        }
        ghost var vn := queue[0];
        assert vn in queue;
        HoldsOne(queue, 0);
        QueueStep(queue, NodeShapes(ns));
        HoldQueue(queue);
        ghost var rest := queue[1..] + vn.kids;
        assert forall q | q in rest :: Offers(descendantPermutations, q);
        assert allocated(VerticesOfAll(rest));
        if |v.Descendants| == 0 {
          LeafStep(vn, NodeShapes(ns));
        } else {
          ns := Turn(v, vn, ns);
        }
        queue := rest;
      }
      res := permutations;
    }
  }

  lemma HoldsOne(ns: seq<Node>, i: nat)
    requires HoldAll(ns) && i < |ns|
    ensures Holds(ns[i]) && ns[i].vertex.Descendants == VertexSeq(ns[i].kids)
  {
    hide Vertices;
    HoldsKids(ns[i]);
  }

  lemma HoldSingle(n: Node)
    requires Holds(n)
    ensures HoldAll([n])
  {
    hide Vertices;
  }

  lemma SingleRoot(n: Node)
    ensures TreesOf([n]) == [TreeOf(n)] && NodeShapes([n]) == [ShapeOf(TreeOf(n))]
  {
    hide TreeOf, NodeShape;
    ShapeOfTreeOf(n);
  }

  lemma LeafStep(vn: Node, perms: seq<Shape>)
    requires vn.kids == []
    ensures Step(perms, TreeOf(vn)) == perms
  {
  }

  lemma TreesOfQueue(queue: seq<Node>)
    requires queue != []
    ensures TreesOf(queue)[0] == TreeOf(queue[0])
    ensures TreesOf(queue[1..] + queue[0].kids) == TreesOf(queue)[1..] + TreeOf(queue[0]).kids
  {
  }

  lemma QueueStep(queue: seq<Node>, perms: seq<Shape>)
    requires queue != []
    ensures PermuteFrom(TreesOf(queue), perms)
         == PermuteFrom(TreesOf(queue[1..] + queue[0].kids), Step(perms, TreeOf(queue[0])))
    ensures SizeOfAll(TreesOf(queue[1..] + queue[0].kids)) < SizeOfAll(TreesOf(queue))
  {
    hide Step;
    TreesOfQueue(queue);
    var ts := TreesOf(queue);
    SizeOfConcat(ts[1..], ts[0].kids);
    assert SizeOfAll(ts) == 1 + SizeOfAll(ts[0].kids) + SizeOfAll(ts[1..]);
  }

  lemma HoldQueue(queue: seq<Node>)
    requires HoldAll(queue) && queue != []
    ensures HoldAll(queue[1..] + queue[0].kids)
    ensures VertexSeq(queue[1..] + queue[0].kids) == VertexSeq(queue)[1..] + queue[0].vertex.Descendants
  {
    hide Vertices;
    HoldsKids(queue[0]);
  }

  lemma StartQueue(n: Node)
    requires Separate(n)
    ensures SeparateAll([n]) && VerticesOfAll([n]) == Vertices(n) && Nodes(n) == NodesOfAll([n])
  {
    hide Vertices, Separate;
    assert forall x | x in Vertices(n) :: x in Vertices([n][0]);
    assert forall x | x in Nodes(n) :: x in Nodes([n][0]);
  }

  lemma NoNodes()
    ensures NodesOfAll([]) == {}
  {
  }

  lemma HoldsThreshold(ns: seq<Node>, i: nat)
    requires HoldAll(ns) && i < |ns|
    ensures ns[i].vertex.Threshold == ns[i].threshold
  {
    hide Vertices;
    HoldsKids(ns[i]);
  }

  lemma LeafIsDone(options: Options, bound: int, q: Node)
    requires q.kids == []
    requires q.vertex.Descendants == [] && q.vertex.Threshold == q.threshold
    ensures Done(options, bound, q)
  {
    assert ThinnedBy(q.vertex.Descendants, VertexSeq(q.kids), []);
    ChooseFromCount(0, q.threshold, 0, []);
  }

  lemma AllDonePrunable(options: Options, bound: int, n: Node)
    requires forall q | q in Nodes(n) :: Done(options, bound, q)
    ensures AllPrunable(bound, n)
  {
  }

  lemma StillDone(before: Options, options: Options, bound: int, d: Node)
    requires Done(before, bound, d) && OptionsFor(options, d.vertex) == OptionsFor(before, d.vertex)
    ensures Done(options, bound, d)
  {
  }

  /**
   The permutations of a tree: the tree is pruned in place, and the result lists exactly the trees
   picked from what is left, each once. A tree within the bound is left whole. With a bound of at
   least one and enough descendants everywhere there is at least one permutation.
   */
  method PermuteTree(root: TreeVertex, combinationUpperBound: int, ghost n: Node)
    returns (ok: bool, res: seq<TreeVertex>, ghost m: Node, ghost ns: seq<Node>)
    requires Holds(n) && n.vertex == root && UniqueIds(TreeOf(n))
    modifies Vertices(n)
    ensures ok <==> AllPrunable(combinationUpperBound, n)
    ensures ok ==> Holds(m) && m.vertex == root && Thins(combinationUpperBound, m, n)
    ensures ok ==> res == VertexSeq(ns) && HoldAll(ns)
    ensures ok ==> forall s :: s in NodeShapes(ns) <==> Picked(TreeOf(m), s)
    ensures ok ==> NoRepeats(NodeShapes(ns))
    ensures ok && WithinBound(combinationUpperBound, TreeOf(n)) ==> TreeOf(m) == TreeOf(n)
    ensures ok && combinationUpperBound >= 1 && Enough(TreeOf(n)) ==> res != []
  {
    hide Vertices, VerticesOfAll, HoldAll, Holds, TreeOf, Separate, Thins, Offers, UniqueIds, Picked,
      TreeEnumeration.Permute;
    UniqueIsSeparate(n);
    assert allocated(Vertices(n));
    var tp := new TreePermutationsState(root, combinationUpperBound);
    ok, m := tp.ComputeDescendantPermutations(n);
    if !ok {
      return false, [], n, [];
    }
    res, ns := tp.Permute(m);
    ThinsUnique(combinationUpperBound, m, n);
    PermuteIsExact(TreeOf(m));
    if WithinBound(combinationUpperBound, TreeOf(n)) {
      ThinsNothing(combinationUpperBound, m, n);
    }
    if combinationUpperBound >= 1 && Enough(TreeOf(n)) {
      ThinsEnough(combinationUpperBound, m, n);
      EnoughMeansSome(TreeOf(m));
    }
  }
}
