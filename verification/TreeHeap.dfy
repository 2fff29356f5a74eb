/**
 Trees of vertices in the heap, as the enumeration of permutations uses them: vertices are
 shared between the original tree and its permutations, and only fresh copies are changed.
 */
module TreeHeap {
  import opened Common
  import opened TreePermutations

  /** What a heap tree looks like: its vertices, their thresholds and their kids. */
  datatype Node = Node(vertex: TreeVertex, threshold: nat, kids: seq<Node>)

  ghost function Vertices(n: Node): set<TreeVertex>
    decreases n, 1
  {
    {n.vertex} + VerticesOfAll(n.kids)
  }

  ghost function VerticesOfAll(ns: seq<Node>): set<TreeVertex>
    decreases ns, 0
  {
    set i, x | 0 <= i < |ns| && x in Vertices(ns[i]) :: x
  }

  /** The heap below `n.vertex` looks as `n` says. */
  ghost predicate Holds(n: Node)
    reads Vertices(n)
    decreases n
  {
    && n.vertex.Threshold == n.threshold
    && |n.vertex.Descendants| == |n.kids|
    && forall i | 0 <= i < |n.kids| ::
         n.vertex.Descendants[i] == n.kids[i].vertex && (KidVertices(n, i); Holds(n.kids[i]))
  }

  lemma KidVertices(n: Node, i: nat)
    requires i < |n.kids|
    ensures Vertices(n.kids[i]) <= Vertices(n)
  {
  }

  ghost predicate HoldAll(ns: seq<Node>)
    reads VerticesOfAll(ns)
  {
    forall i | 0 <= i < |ns| :: Holds(ns[i])
  }

  ghost function VertexSeq(ns: seq<Node>): (r: seq<TreeVertex>)
    ensures |r| == |ns|
  {
    seq(|ns|, i requires 0 <= i < |ns| => ns[i].vertex)
  }

  ghost function TreeOf(n: Node): Tree {
    Tree(n.vertex.Id, n.vertex.Data, n.threshold, seq(|n.kids|, i requires 0 <= i < |n.kids| => TreeOf(n.kids[i])))
  }

  ghost function TreesOf(ns: seq<Node>): seq<Tree> {
    seq(|ns|, i requires 0 <= i < |ns| => TreeOf(ns[i]))
  }

  ghost function NodeShape(n: Node): Shape {
    Shape(n.vertex.Id, n.vertex.Data, seq(|n.kids|, i requires 0 <= i < |n.kids| => NodeShape(n.kids[i])))
  }

  ghost function NodeShapes(ns: seq<Node>): (r: seq<Shape>)
    ensures |r| == |ns|
  {
    seq(|ns|, i requires 0 <= i < |ns| => NodeShape(ns[i]))
  }

  lemma {:induction false} ShapeOfTreeOf(n: Node)
    ensures ShapeOf(TreeOf(n)) == NodeShape(n)
  {
    forall i | 0 <= i < |n.kids| ensures ShapeOf(TreeOf(n.kids[i])) == NodeShape(n.kids[i]) {
      ShapeOfTreeOf(n.kids[i]);
    }
  }

  /** No vertex occurs twice. */
  ghost predicate Separate(n: Node) {
    && (forall i | 0 <= i < |n.kids| :: n.vertex !in Vertices(n.kids[i]))
    && (forall i, j | 0 <= i < j < |n.kids| :: Vertices(n.kids[i]) !! Vertices(n.kids[j]))
    && (forall i | 0 <= i < |n.kids| :: Separate(n.kids[i]))
  }

  ghost predicate SeparateAll(ns: seq<Node>) {
    && (forall i | 0 <= i < |ns| :: Separate(ns[i]))
    && (forall i, j | 0 <= i < j < |ns| :: Vertices(ns[i]) !! Vertices(ns[j]))
  }

  lemma VerticesOfMore(ns: seq<Node>, n: Node)
    ensures VerticesOfAll(ns + [n]) == VerticesOfAll(ns) + Vertices(n)
  {
    hide Vertices;
    var all := ns + [n];
    forall x | x in VerticesOfAll(ns) + Vertices(n) ensures x in VerticesOfAll(all) {
      if x in Vertices(n) {
        assert all[|ns|] == n;
      } else {
        var i :| 0 <= i < |ns| && x in Vertices(ns[i]);
        assert all[i] == ns[i];
      }
    }
  }

  lemma SeparateMore(ns: seq<Node>, n: Node)
    requires SeparateAll(ns) && Separate(n) && VerticesOfAll(ns) !! Vertices(n)
    ensures SeparateAll(ns + [n])
  {
    hide Vertices, Separate;
    forall i, j | 0 <= i < j < |ns + [n]| ensures Vertices((ns + [n])[i]) !! Vertices((ns + [n])[j]) {
      assert Vertices(ns[i]) <= VerticesOfAll(ns);
    }
  }

  lemma SeparateNode(v: TreeVertex, threshold: nat, ns: seq<Node>)
    requires SeparateAll(ns) && v !in VerticesOfAll(ns)
    ensures Separate(Node(v, threshold, ns))
  {
    hide Vertices;
    forall i | 0 <= i < |ns| ensures v !in Vertices(ns[i]) {
      assert Vertices(ns[i]) <= VerticesOfAll(ns);
    }
  }

  lemma NodeShapesMore(ns: seq<Node>, n: Node)
    ensures NodeShapes(ns + [n]) == NodeShapes(ns) + [NodeShape(n)]
  {
    hide NodeShape;
  }

  lemma NodeShapeKids(n: Node)
    ensures NodeShape(n) == Shape(n.vertex.Id, n.vertex.Data, NodeShapes(n.kids))
  {
  }

  class TreeVertex {
    const Id: string
    const Data: Bytes
    var Descendants: seq<TreeVertex>
    var Threshold: nat

    constructor (id: string, data: Bytes, descendants: seq<TreeVertex>)
      ensures Id == id && Data == data && Descendants == descendants && Threshold == 0
    {
      Id, Data, Descendants, Threshold := id, data, descendants, 0;
    }

    /** The first vertex with the given id, depth first. */
    method Find(id: string, ghost n: Node) returns (r: TreeVertex?)
      requires Holds(n) && n.vertex == this
      ensures r != null <==> id in ShapeIds(NodeShape(n))
      ensures r != null ==> r in Vertices(n) && r.Id == id
      decreases n
    {
      if Id == id {
        return this;
      }
      assert allocated(Vertices(n));
      for i := 0 to |Descendants|
        invariant Holds(n)
        invariant forall k | 0 <= k < i :: id !in ShapeIds(NodeShape(n.kids[k]))
      {
        var u := Descendants[i].Find(id, n.kids[i]);
        if u != null {
          assert NodeShape(n).kids[i] == NodeShape(n.kids[i]);
          return u;
        }
      }
      return null;
    }

    method Exists(id: string, ghost n: Node) returns (found: bool)
      requires Holds(n) && n.vertex == this
      ensures found <==> id in ShapeIds(NodeShape(n))
    {
      var r := Find(id, n);
      return r != null;
    }

    /** A deep copy, all of it fresh; thresholds are not copied. */
    method Clone(ghost n: Node) returns (copy: TreeVertex, ghost m: Node)
      requires Holds(n) && n.vertex == this
      ensures m.vertex == copy && fresh(Vertices(m))
      ensures Holds(m) && Separate(m) && NodeShape(m) == NodeShape(n)
      decreases n
    {
      hide NodeShape, Separate, Vertices, VerticesOfAll, SeparateAll;
      var descendants := [];
      ghost var ms: seq<Node>, seen: set<TreeVertex> := [], {};
      NoVertices();
      assert allocated(Vertices(n));
      for i := 0 to |Descendants|
        invariant Holds(n)
        invariant |ms| == i && descendants == VertexSeq(ms) && seen == VerticesOfAll(ms)
        invariant fresh(seen) && HoldAll(ms) && SeparateAll(ms)
        invariant NodeShapes(ms) == NodeShapes(n.kids[..i])
      {
        var c, mc := Descendants[i].Clone(n.kids[i]);
        assert HoldAll(ms);
        VerticesOfMore(ms, mc);
        SeparateMore(ms, mc);
        NodeShapesMore(ms, mc);
        NodeShapesMore(n.kids[..i], n.kids[i]);
        assert n.kids[..i + 1] == n.kids[..i] + [n.kids[i]];
        descendants := descendants + [c];
        ms, seen := ms + [mc], seen + Vertices(mc);
      }
      assert n.kids[..|n.kids|] == n.kids;
      copy := new TreeVertex(Id, Data, descendants);
      m := Node(copy, 0, ms);
      HoldsNode(copy, 0, ms);
      SeparateNode(copy, 0, ms);
      NodeShapeKids(m);
      NodeShapeKids(n);
      NodeVertices(m);
    }

    /** Gives every vertex with the given id the descendants of `r`. */
    method ReplaceAt(id: string, r: TreeVertex, ghost n: Node, ghost ks: seq<Node>) returns (ghost m: Node)
      requires Holds(n) && n.vertex == this && Separate(n)
      requires r.Descendants == VertexSeq(ks) && HoldAll(ks)
      requires r !in Vertices(n) && VerticesOfAll(ks) !! Vertices(n)
      modifies Vertices(n)
      ensures Holds(m) && m.vertex == this && NodeShape(m) == Replace(NodeShape(n), id, NodeShapes(ks))
      ensures Vertices(m) <= Vertices(n) + VerticesOfAll(ks)
      decreases n
    {
      hide NodeShape, Separate, Vertices, VerticesOfAll, Replace;
      assert allocated(VerticesOfAll(ks));
      NodeVertices(n);
      if Id == id {
        Descendants := r.Descendants;
        m := Node(this, n.threshold, ks);
        HoldsNode(this, n.threshold, ks);
        NodeVertices(m);
        ReplaceHere(n, m, id);
        return;
      }
      HoldsKids(n);
      ghost var cur := n.kids;
      for i := 0 to |Descendants|
        invariant Descendants == old(Descendants) && Threshold == old(Threshold)
        invariant r.Descendants == VertexSeq(ks) && HoldAll(ks)
        invariant |cur| == |n.kids| && HoldAll(cur) && VertexSeq(cur) == VertexSeq(n.kids)
        invariant forall k | 0 <= k < |cur| :: Vertices(cur[k]) <= Vertices(n.kids[k]) + VerticesOfAll(ks)
        invariant forall k | i <= k < |cur| :: cur[k] == n.kids[k]
        invariant forall k | 0 <= k < i :: NodeShape(cur[k]) == Replace(NodeShape(n.kids[k]), id, NodeShapes(ks))
      {
        KidIsApart(n, i);
        assert allocated(VerticesOfAll(cur));
        label before:
        ghost var mi := Descendants[i].ReplaceAt(id, r, n.kids[i], ks);
        forall k | 0 <= k < |cur| && k != i ensures Holds(cur[k]) {
          assert old@before(Holds(cur[k]));
          KidsAreApart(n, i, k);
          MemberVertices(cur, k);
        }
        cur := cur[i := mi];
      }
      m := Node(this, n.threshold, cur);
      HoldsNode(this, n.threshold, cur);
      ReplaceBelow(n, m, id, NodeShapes(ks));
      forall x | x in Vertices(m) ensures x in Vertices(n) + VerticesOfAll(ks) {
        ReplacedVertices(n, m, ks, x);
      }
    }
  }

  lemma MemberVertices(ns: seq<Node>, k: nat)
    requires k < |ns|
    ensures Vertices(ns[k]) <= VerticesOfAll(ns)
  {
    hide Vertices;
  }

  lemma KidIsApart(n: Node, i: nat)
    requires Separate(n) && i < |n.kids|
    ensures n.vertex !in Vertices(n.kids[i]) && Separate(n.kids[i]) && Vertices(n.kids[i]) <= Vertices(n)
  {
  }

  lemma KidsAreApart(n: Node, i: nat, j: nat)
    requires Separate(n) && i < |n.kids| && j < |n.kids| && i != j
    ensures Vertices(n.kids[i]) !! Vertices(n.kids[j])
  {
    hide Vertices;
  }

  lemma ReplaceHere(n: Node, m: Node, id: string)
    requires n.vertex == m.vertex && n.vertex.Id == id
    ensures NodeShape(m) == Replace(NodeShape(n), id, NodeShapes(m.kids))
  {
    NodeShapeKids(m);
  }

  lemma ReplaceBelow(n: Node, m: Node, id: string, kids: seq<Shape>)
    requires n.vertex == m.vertex && n.vertex.Id != id && |m.kids| == |n.kids|
    requires forall k | 0 <= k < |n.kids| :: NodeShape(m.kids[k]) == Replace(NodeShape(n.kids[k]), id, kids)
    ensures NodeShape(m) == Replace(NodeShape(n), id, kids)
  {
    var r := Replace(NodeShape(n), id, kids);
    assert NodeShape(m).kids == r.kids;
  }

  lemma ReplacedVertices(n: Node, m: Node, ks: seq<Node>, x: TreeVertex)
    requires n.vertex == m.vertex && |m.kids| == |n.kids| && x in Vertices(m)
    requires forall k | 0 <= k < |m.kids| :: Vertices(m.kids[k]) <= Vertices(n.kids[k]) + VerticesOfAll(ks)
    ensures x in Vertices(n) + VerticesOfAll(ks)
  {
    if x != m.vertex {
      var k :| 0 <= k < |m.kids| && x in Vertices(m.kids[k]);
      KidVertices(n, k);
    }
  }

  lemma HoldsNode(v: TreeVertex, threshold: nat, ns: seq<Node>)
    requires v.Descendants == VertexSeq(ns) && v.Threshold == threshold && HoldAll(ns)
    ensures Holds(Node(v, threshold, ns))
  {
    hide Vertices;
  }

  lemma HoldsKids(n: Node)
    requires Holds(n)
    ensures n.vertex.Descendants == VertexSeq(n.kids) && n.vertex.Threshold == n.threshold && HoldAll(n.kids)
  {
    hide Vertices;
  }

  lemma NoVertices()
    ensures VerticesOfAll([]) == {} && SeparateAll([])
  {
  }

  lemma NodeVertices(n: Node)
    ensures Vertices(n) == {n.vertex} + VerticesOfAll(n.kids)
  {
  }
}
