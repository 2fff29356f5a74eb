/** What pruning a heap tree and recording the options of its vertices amounts to. */
module TreePruning {
  import opened Combinations
  import opened TreePermutations
  import opened TreeEnumeration
  import opened TreeHeap

  // ------------------------------------------------------------ options of a vertex

  /** Indices that all lie below `n`. */
  predicate Within(sel: Indices, n: nat) {
    forall j | 0 <= j < |sel| :: sel[j] < n
  }

  function SelectFrom<T>(xs: seq<T>, sel: Indices): (r: seq<T>)
    requires Within(sel, |xs|)
    ensures |r| == |sel|
  {
    seq(|sel|, j requires 0 <= j < |sel| => xs[sel[j]])
  }

  lemma ChoicesWithin(n: nat, k: nat)
    ensures forall i | 0 <= i < |ChooseKOutOfN(n, k)| :: Within(ChooseKOutOfN(n, k)[i], n)
  {
    var cs := ChooseKOutOfN(n, k);
    ChooseKOutOfNIsExact(n, k);
    forall i | 0 <= i < |cs| ensures Within(cs[i], n) {
      assert cs[i] in cs;
    }
  }

  /** All selections of `k` of the vertices. */
  function Selections(xs: seq<TreeVertex>, k: nat): (r: seq<seq<TreeVertex>>)
    ensures |r| == |ChooseKOutOfN(|xs|, k)|
  {
    var cs := ChooseKOutOfN(|xs|, k);
    ChoicesWithin(|xs|, k);
    seq(|cs|, i requires 0 <= i < |cs| => SelectFrom(xs, cs[i]))
  }

  type Options = map<TreeVertex, seq<seq<TreeVertex>>>

  function OptionsFor(options: Options, v: TreeVertex): seq<seq<TreeVertex>> {
    if v in options then options[v] else []
  }

  /** The recorded options of every vertex of the tree are the selections of its kids. */
  ghost predicate Offers(options: Options, n: Node) {
    && (n.kids != [] ==> OptionsFor(options, n.vertex) == Selections(VertexSeq(n.kids), n.threshold))
    && forall i | 0 <= i < |n.kids| :: Offers(options, n.kids[i])
  }

  // ------------------------------------------------------------------ pruned trees

  /**
   How many kids a vertex loses: none if the choices of its kids are within the bound, and
   otherwise as few as bring them there. A bound below one lets no choice be.
   */
  predicate KeepsEnough(bound: int, after: nat, before: nat, k: nat) {
    && (|ChooseKOutOfN(before, k)| <= bound ==> after == before)
    && (after < before ==> |ChooseKOutOfN(after + 1, k)| > bound)
    && (bound >= 1 ==> |ChooseKOutOfN(after, k)| <= bound && (before >= k ==> after >= k))
    && (bound < 1 ==> after == if 0 < k <= before then k - 1 else before)
  }

  /** `m` is `n` with some kids left out, here and below. */
  ghost predicate Thins(bound: int, m: Node, n: Node)
    decreases n, 1
  {
    m.vertex == n.vertex && m.threshold == n.threshold && exists kept: Indices :: ThinsBy(bound, m, n, kept)
  }

  ghost predicate ThinsBy(bound: int, m: Node, n: Node, kept: Indices)
    decreases n, 0
  {
    && KeepsEnough(bound, |m.kids|, |n.kids|, n.threshold)
    && IsChoice(|n.kids|, |m.kids|, kept)
    && forall i | 0 <= i < |m.kids| :: Thins(bound, m.kids[i], n.kids[kept[i]])
  }

  lemma {:induction false} ThinsUnique(bound: int, m: Node, n: Node)
    requires Thins(bound, m, n) && UniqueIds(TreeOf(n))
    ensures UniqueIds(TreeOf(m)) && Ids(TreeOf(m)) <= Ids(TreeOf(n))
    decreases n
  {
    hide KeepsEnough;
    var kept :| ThinsBy(bound, m, n, kept);
    var s, t := TreeOf(m), TreeOf(n);
    forall i | 0 <= i < |s.kids| ensures UniqueIds(s.kids[i]) && Ids(s.kids[i]) <= Ids(t.kids[kept[i]]) {
      assert UniqueIds(t.kids[kept[i]]);
      ThinsUnique(bound, m.kids[i], n.kids[kept[i]]);
    }
    forall i, j | 0 <= i < j < |s.kids| ensures Ids(s.kids[i]) !! Ids(s.kids[j]) {
      assert Ids(t.kids[kept[i]]) !! Ids(t.kids[kept[j]]);
    }
    forall x | x in IdsOfAll(s.kids) ensures x in Ids(t) {
      var i :| 0 <= i < |s.kids| && x in Ids(s.kids[i]);
      KidIds(t, kept[i]);
    }
  }

  lemma {:induction false} ThinsEnough(bound: int, m: Node, n: Node)
    requires bound >= 1 && Thins(bound, m, n) && Enough(TreeOf(n))
    ensures Enough(TreeOf(m))
    decreases n
  {
    var kept :| ThinsBy(bound, m, n, kept);
    forall i | 0 <= i < |m.kids| ensures Enough(TreeOf(m).kids[i]) {
      assert Enough(TreeOf(n).kids[kept[i]]);
      ThinsEnough(bound, m.kids[i], n.kids[kept[i]]);
    }
  }

  /** No vertex has more choices of its kids than the bound. */
  predicate WithinBound(bound: int, t: Tree) {
    && |ChooseKOutOfN(|t.kids|, t.threshold)| <= bound
    && forall i | 0 <= i < |t.kids| :: WithinBound(bound, t.kids[i])
  }

  lemma {:induction false} ThinsNothing(bound: int, m: Node, n: Node)
    requires Thins(bound, m, n) && WithinBound(bound, TreeOf(n))
    ensures TreeOf(m) == TreeOf(n)
    decreases n
  {
    var kept :| ThinsBy(bound, m, n, kept);
    forall i | 0 <= i < |m.kids| ensures TreeOf(m.kids[i]) == TreeOf(n.kids[i]) {
      IncreasingGap(kept, 0, i);
      IncreasingGap(kept, i, |kept| - 1);
      assert kept[i] == i;
      assert WithinBound(bound, TreeOf(n).kids[i]);
      ThinsNothing(bound, m.kids[i], n.kids[i]);
    }
    assert TreeOf(m).kids == TreeOf(n).kids;
  }

  lemma {:induction false} VertexIds(n: Node, x: TreeVertex)
    requires x in Vertices(n)
    ensures x.Id in Ids(TreeOf(n))
    decreases n
  {
    if x != n.vertex {
      var i :| 0 <= i < |n.kids| && x in Vertices(n.kids[i]);
      VertexIds(n.kids[i], x);
      KidIds(TreeOf(n), i);
    }
  }

  /** Unique ids mean that no vertex is shared. */
  lemma {:induction false} UniqueIsSeparate(n: Node)
    requires UniqueIds(TreeOf(n))
    ensures Separate(n)
    decreases n
  {
    var t := TreeOf(n);
    forall i | 0 <= i < |n.kids| ensures Separate(n.kids[i]) && n.vertex !in Vertices(n.kids[i]) {
      assert UniqueIds(t.kids[i]);
      UniqueIsSeparate(n.kids[i]);
      if n.vertex in Vertices(n.kids[i]) {
        VertexIds(n.kids[i], n.vertex);
      }
    }
    forall i, j | 0 <= i < j < |n.kids| ensures Vertices(n.kids[i]) !! Vertices(n.kids[j]) {
      assert Ids(t.kids[i]) !! Ids(t.kids[j]);
      forall x | x in Vertices(n.kids[i]) ensures x !in Vertices(n.kids[j]) {
        VertexIds(n.kids[i], x);
        if x in Vertices(n.kids[j]) {
          VertexIds(n.kids[j], x);
        }
      }
    }
  }

  // ------------------------------------------------------------ vertices that are done

  /** The vertex of `q` has been pruned and its options are recorded. */
  ghost predicate Done(options: Options, bound: int, q: Node)
    reads q.vertex
  {
    var v := q.vertex;
    && v.Threshold == q.threshold
    && Thinned(v.Descendants, VertexSeq(q.kids))
    && KeepsEnough(bound, |v.Descendants|, |q.kids|, q.threshold)
    && Prunable(bound, q)
    && (v.Descendants != [] ==> OptionsFor(options, v) == Selections(v.Descendants, v.Threshold))
  }

  ghost predicate AllDone(options: Options, bound: int, n: Node)
    reads Vertices(n)
    decreases n
  {
    Done(options, bound, n) && forall i | 0 <= i < |n.kids| :: (KidVertices(n, i); AllDone(options, bound, n.kids[i]))
  }

  /** From the pruned vertices to the pruned tree. */
  lemma {:induction false} Assemble(options: Options, bound: int, n: Node) returns (m: Node)
    requires AllDone(options, bound, n)
    ensures Holds(m) && Thins(bound, m, n) && Offers(options, m) && m.vertex == n.vertex
    decreases n, 1
  {
    hide Vertices, KeepsEnough, IsChoice, Selections;
    var ms := AssembleKids(options, bound, n, |n.kids|);
    var kept :| ThinnedBy(n.vertex.Descendants, VertexSeq(n.kids), kept);
    var v := n.vertex;
    ChoiceLength(|n.kids|, |v.Descendants|, kept);
    m := Node(v, n.threshold, SelectFrom(ms, kept));
    assert v.Descendants == VertexSeq(m.kids);
    assert HoldAll(m.kids);
    HoldsNode(v, n.threshold, m.kids);
    assert ThinsBy(bound, m, n, kept);
  }

  lemma {:induction false} AssembleKids(options: Options, bound: int, n: Node, k: nat) returns (ms: seq<Node>)
    requires AllDone(options, bound, n) && k <= |n.kids|
    ensures |ms| == k
    ensures forall i | 0 <= i < k ::
              && Holds(ms[i]) && Thins(bound, ms[i], n.kids[i])
              && Offers(options, ms[i]) && ms[i].vertex == n.kids[i].vertex
    decreases n, 0, k
  {
    hide Vertices, Done;
    ms := [];
    if k > 0 {
      var before := AssembleKids(options, bound, n, k - 1);
      var last := Assemble(options, bound, n.kids[k - 1]);
      ms := before + [last];
    }
  }

  /** All nodes of a tree. */
  ghost function Nodes(n: Node): set<Node>
    decreases n, 1
  {
    {n} + NodesOfAll(n.kids)
  }

  ghost function NodesOfAll(ns: seq<Node>): set<Node>
    decreases ns, 0
  {
    set i, x | 0 <= i < |ns| && x in Nodes(ns[i]) :: x
  }

  lemma {:induction false} EachDoneIsAllDone(options: Options, bound: int, n: Node)
    requires forall q | q in Nodes(n) :: Done(options, bound, q)
    ensures AllDone(options, bound, n)
    decreases n
  {
    hide Vertices, Done;
    assert n in Nodes(n);
    forall i | 0 <= i < |n.kids| ensures AllDone(options, bound, n.kids[i]) {
      forall q | q in Nodes(n.kids[i]) ensures Done(options, bound, q) {
        assert q in NodesOfAll(n.kids);
      }
      EachDoneIsAllDone(options, bound, n.kids[i]);
    }
  }

  /** Pruning a vertex ends: where the bound allows no choice at all, something is to be chosen. */
  predicate Prunable(bound: int, q: Node) {
    bound >= 1 || q.kids == [] || q.threshold > 0
  }

  ghost predicate AllPrunable(bound: int, n: Node) {
    forall q | q in Nodes(n) :: Prunable(bound, q)
  }

  lemma NodesOfRest(queue: seq<Node>, x: Node)
    requires queue != []
    ensures queue[0] in NodesOfAll(queue)
    ensures x in NodesOfAll(queue[1..] + queue[0].kids) ==> x in NodesOfAll(queue)
  {
    var next := queue[1..] + queue[0].kids;
    assert queue[0] in Nodes(queue[0]);
    if x in NodesOfAll(next) {
      var i :| 0 <= i < |next| && x in Nodes(next[i]);
      if i < |queue| - 1 {
        assert x in Nodes(queue[i + 1]);
      } else {
        assert next[i] == queue[0].kids[i - |queue| + 1];
        assert x in NodesOfAll(queue[0].kids);
        assert x in Nodes(queue[0]);
      }
    }
  }

  lemma NodesOfQueue(queue: seq<Node>, x: Node)
    requires queue != [] && x in NodesOfAll(queue)
    ensures x == queue[0] || x in NodesOfAll(queue[1..] + queue[0].kids)
  {
    var next := queue[1..] + queue[0].kids;
    var i :| 0 <= i < |queue| && x in Nodes(queue[i]);
    if i > 0 {
      assert next[i - 1] == queue[i];
    } else if x != queue[0] {
      assert x in NodesOfAll(queue[0].kids);
      var k :| 0 <= k < |queue[0].kids| && x in Nodes(queue[0].kids[k]);
      assert next[|queue| - 1 + k] == queue[0].kids[k];
    }
  }

  lemma VerticesOfQueue(queue: seq<Node>, x: TreeVertex)
    requires queue != [] && SeparateAll(queue) && x in VerticesOfAll(queue[1..] + queue[0].kids)
    ensures x in VerticesOfAll(queue) && x != queue[0].vertex
  {
    hide Vertices;
    var next, m := queue[1..] + queue[0].kids, |queue| - 1;
    var i :| 0 <= i < |next| && x in Vertices(next[i]);
    NodeVertices(queue[0]);
    if i < m {
      assert next[i] == queue[i + 1];
      assert Vertices(queue[0]) !! Vertices(queue[i + 1]);
    } else {
      assert next[i] == queue[0].kids[i - m];
      KidIsApart(queue[0], i - m);
    }
  }

  lemma SeparateQueue(queue: seq<Node>)
    requires queue != [] && SeparateAll(queue)
    ensures SeparateAll(queue[1..] + queue[0].kids)
  {
    hide Vertices;
    var next, m := queue[1..] + queue[0].kids, |queue| - 1;
    forall i, j | 0 <= i < j < |next| ensures Vertices(next[i]) !! Vertices(next[j]) {
      if i < m <= j {
        assert next[i] == queue[i + 1] && next[j] == queue[0].kids[j - m];
        KidIsApart(queue[0], j - m);
        assert Vertices(queue[0]) !! Vertices(queue[i + 1]);
      } else if m <= i {
        KidsAreApart(queue[0], i - m, j - m);
      }
    }
  }
}
