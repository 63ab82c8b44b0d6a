/** The simple directed graph the builder fills (a networkx `DiGraph`): a node
    table with attribute records and at most one edge per ordered pair, each
    with its own attribute record. `GraphValue` is the graph as a value; the
    class `DiGraph` holds the same two tables as fields and updates them in
    place, each method proved against the value-level operation. */
module Graph {
  import opened Wrappers

  /** The attributes the builder gives a node; None is an attribute never set. */
  datatype NodeAttrs = NodeAttrs(
    nodeType: Option<string>, color: Option<string>, fileType: Option<string>,
    size: Option<int>, directory: Option<string>)

  const NoNodeAttrs := NodeAttrs(None, None, None, None, None)

  /** `attrs.update(upd)`: every attribute upd sets wins, the others stay. */
  function MergeNode(attrs: NodeAttrs, upd: NodeAttrs): (r: NodeAttrs)
    ensures upd.nodeType.Some? ==> r.nodeType == upd.nodeType
    ensures upd.nodeType.None? ==> r.nodeType == attrs.nodeType
    ensures upd.color.Some? ==> r.color == upd.color
    ensures upd.color.None? ==> r.color == attrs.color
    ensures upd.fileType.Some? ==> r.fileType == upd.fileType
    ensures upd.fileType.None? ==> r.fileType == attrs.fileType
    ensures upd.size.Some? ==> r.size == upd.size
    ensures upd.size.None? ==> r.size == attrs.size
    ensures upd.directory.Some? ==> r.directory == upd.directory
    ensures upd.directory.None? ==> r.directory == attrs.directory
  {
    NodeAttrs(
      if upd.nodeType.Some? then upd.nodeType else attrs.nodeType,
      if upd.color.Some? then upd.color else attrs.color,
      if upd.fileType.Some? then upd.fileType else attrs.fileType,
      if upd.size.Some? then upd.size else attrs.size,
      if upd.directory.Some? then upd.directory else attrs.directory)
  }

  /** The attributes of an edge: its kind, its colour and (except for
      containment edges) its weight. */
  datatype EdgeAttrs = EdgeAttrs(edgeType: Option<string>, color: Option<string>, weight: Option<int>)

  const NoEdgeAttrs := EdgeAttrs(None, None, None)

  /** The edge's attribute dict updated by a later `add_edge` on the same pair. */
  function MergeEdge(attrs: EdgeAttrs, upd: EdgeAttrs): (r: EdgeAttrs)
    ensures upd.edgeType.Some? ==> r.edgeType == upd.edgeType
    ensures upd.edgeType.None? ==> r.edgeType == attrs.edgeType
    ensures upd.color.Some? ==> r.color == upd.color
    ensures upd.color.None? ==> r.color == attrs.color
    ensures upd.weight.Some? ==> r.weight == upd.weight
    ensures upd.weight.None? ==> r.weight == attrs.weight
  {
    EdgeAttrs(
      if upd.edgeType.Some? then upd.edgeType else attrs.edgeType,
      if upd.color.Some? then upd.color else attrs.color,
      if upd.weight.Some? then upd.weight else attrs.weight)
  }

  type Edge = (string, string)

  datatype GraphValue = GraphValue(nodes: map<string, NodeAttrs>, edges: map<Edge, EdgeAttrs>)

  const EmptyGraph := GraphValue(map[], map[])

  /** Every edge joins two nodes of the graph. */
  predicate Closed(g: GraphValue) {
    forall e :: e in g.edges ==> e.0 in g.nodes && e.1 in g.nodes
  }

  /** `G.add_node(n, **attrs)`: a new node gets attrs, an existing one has them merged in. */
  function AddNodeV(g: GraphValue, n: string, attrs: NodeAttrs): (r: GraphValue)
    ensures r.nodes.Keys == g.nodes.Keys + {n} && r.edges == g.edges
    ensures n !in g.nodes ==> r.nodes[n] == attrs
    ensures n in g.nodes ==> r.nodes[n] == MergeNode(g.nodes[n], attrs)
    ensures forall m :: m in g.nodes && m != n ==> r.nodes[m] == g.nodes[m]
    ensures Closed(g) ==> Closed(r)
  {
    var prior := if n in g.nodes then g.nodes[n] else NoNodeAttrs;
    g.(nodes := g.nodes[n := if n in g.nodes then MergeNode(prior, attrs) else attrs])
  }

  /** `G.add_edge(u, v, **attrs)`: missing endpoints become attribute-less
      nodes; the pair keeps a single edge whose attributes are updated. */
  function AddEdgeV(g: GraphValue, u: string, v: string, attrs: EdgeAttrs): (r: GraphValue)
    ensures r.nodes.Keys == g.nodes.Keys + {u, v}
    ensures forall m :: m in g.nodes ==> r.nodes[m] == g.nodes[m]
    ensures r.edges.Keys == g.edges.Keys + {(u, v)}
    ensures (u, v) !in g.edges ==> r.edges[(u, v)] == MergeEdge(NoEdgeAttrs, attrs)
    ensures (u, v) in g.edges ==> r.edges[(u, v)] == MergeEdge(g.edges[(u, v)], attrs)
    ensures forall e :: e in g.edges && e != (u, v) ==> r.edges[e] == g.edges[e]
    ensures Closed(g) ==> Closed(r)
  {
    var withU := if u in g.nodes then g.nodes else g.nodes[u := NoNodeAttrs];
    var withV := if v in withU then withU else withU[v := NoNodeAttrs];
    var prior := if (u, v) in g.edges then g.edges[(u, v)] else NoEdgeAttrs;
    GraphValue(withV, g.edges[(u, v) := MergeEdge(prior, attrs)])
  }

  /** The successors and predecessors of n. */
  function Succ(g: GraphValue, n: string): set<string> {
    set e | e in g.edges && e.0 == n :: e.1
  }

  function Pred(g: GraphValue, n: string): set<string> {
    set e | e in g.edges && e.1 == n :: e.0
  }

  /** `G.degree(n)`: out-degree plus in-degree (a self-loop counts twice). */
  function Degree(g: GraphValue, n: string): nat {
    |Succ(g, n)| + |Pred(g, n)|
  }

  /** `G.remove_nodes_from(doomed)`: the nodes go, and every edge touching one. */
  function RemoveV(g: GraphValue, doomed: set<string>): (r: GraphValue)
    ensures forall n :: n in r.nodes <==> n in g.nodes && n !in doomed
    ensures forall n :: n in r.nodes ==> r.nodes[n] == g.nodes[n]
    ensures forall e :: e in r.edges <==> e in g.edges && e.0 !in doomed && e.1 !in doomed
    ensures forall e :: e in r.edges ==> r.edges[e] == g.edges[e]
    ensures Closed(g) ==> Closed(r)
  {
    GraphValue(
      map n | n in g.nodes && n !in doomed :: g.nodes[n],
      map e | e in g.edges && e.0 !in doomed && e.1 !in doomed :: g.edges[e])
  }

  /** The nodes whose degree is below k. */
  function LowDegree(g: GraphValue, k: int): set<string> {
    set n | n in g.nodes && Degree(g, n) < k
  }

  /** The single pruning pass: when k > 0, every node whose degree in the
      unpruned graph is below k is removed at once. */
  function PruneV(g: GraphValue, k: int): GraphValue {
    if k > 0 then RemoveV(g, LowDegree(g, k)) else g
  }

  // ---------------------------------------------------------------------------
  // Properties of pruning

  /** A node survives iff its degree before pruning is at least k; an edge
      survives iff both its ends do; attributes are untouched. */
  lemma PruneSurvivors(g: GraphValue, k: int)
    requires Closed(g) && k > 0
    ensures forall n :: n in PruneV(g, k).nodes <==> n in g.nodes && Degree(g, n) >= k
    ensures forall e :: e in PruneV(g, k).edges <==>
      e in g.edges && Degree(g, e.0) >= k && Degree(g, e.1) >= k
    ensures Closed(PruneV(g, k))
  {
  }

  /** A larger threshold keeps a subset of the nodes. */
  lemma PruneMonotone(g: GraphValue, k1: int, k2: int)
    requires k1 <= k2
    ensures PruneV(g, k2).nodes.Keys <= PruneV(g, k1).nodes.Keys
  {
  }

  /** Removing nodes never raises a surviving node's degree. */
  lemma RemoveDegree(g: GraphValue, doomed: set<string>, n: string)
    ensures Degree(RemoveV(g, doomed), n) <= Degree(g, n)
  {
    var r := RemoveV(g, doomed);
    assert Succ(r, n) <= Succ(g, n);
    assert Pred(r, n) <= Pred(g, n);
    SubsetCard(Succ(r, n), Succ(g, n));
    SubsetCard(Pred(r, n), Pred(g, n));
  }

  lemma {:induction false} SubsetCard(a: set<string>, b: set<string>)
    requires a <= b
    ensures |a| <= |b|
    decreases |b|
  {
    if a != {} {
      var x :| x in a;
      SubsetCard(a - {x}, b - {x});
    }
  }

  /** The path a -> b -> c. */
  const Path3 := GraphValue(
    map["a" := NoNodeAttrs, "b" := NoNodeAttrs, "c" := NoNodeAttrs],
    map[("a", "b") := NoEdgeAttrs, ("b", "c") := NoEdgeAttrs])

  lemma Path3Degrees()
    ensures Degree(Path3, "a") == 1 && Degree(Path3, "b") == 2 && Degree(Path3, "c") == 1
  {
    var g := Path3;
    assert Succ(g, "a") == {"b"} by { assert ("a", "b") in g.edges; }
    assert Pred(g, "a") == {};
    assert Succ(g, "b") == {"c"} by { assert ("b", "c") in g.edges; }
    assert Pred(g, "b") == {"a"} by { assert ("a", "b") in g.edges; }
    assert Succ(g, "c") == {};
    assert Pred(g, "c") == {"b"} by { assert ("b", "c") in g.edges; }
  }

  /** Pruning is one pass, not a fixpoint: on the path a -> b -> c with k = 2,
      the first pass keeps b alone, whose degree is then 0, and a second pass
      removes it. */
  lemma PruneNotIdempotent()
    ensures PruneV(Path3, 2).nodes.Keys == {"b"}
    ensures PruneV(PruneV(Path3, 2), 2).nodes.Keys == {}
  {
    PruneFirstPass();
    PruneSecondPass();
  }

  /** The graph with the single node b and no edge. */
  const LoneB := GraphValue(map["b" := NoNodeAttrs], map[])

  lemma PruneFirstPass()
    ensures PruneV(Path3, 2) == LoneB
  {
    Path3Low();
    Path3WithoutEnds();
  }

  lemma Path3Low()
    ensures LowDegree(Path3, 2) == {"a", "c"}
  {
    Path3Degrees();
    assert Path3.nodes.Keys == {"a", "b", "c"};
  }

  lemma Path3WithoutEnds()
    ensures RemoveV(Path3, {"a", "c"}) == LoneB
  {
    var r := RemoveV(Path3, {"a", "c"});
    assert r.nodes.Keys == {"b"};
    assert r.nodes == LoneB.nodes;
    assert r.edges == map[] by {
      assert Path3.edges.Keys == {("a", "b"), ("b", "c")};
      assert forall e :: e in Path3.edges ==> e.0 == "a" || e.1 == "c";
    }
  }

  lemma PruneSecondPass()
    ensures PruneV(LoneB, 2).nodes.Keys == {}
  {
    assert Succ(LoneB, "b") == {} && Pred(LoneB, "b") == {};
    assert LowDegree(LoneB, 2) == {"b"};
  }

  /** Removing one more node after a set is removing the larger set. */
  lemma RemoveOneMore(g: GraphValue, gone: set<string>, n: string)
    ensures var r := RemoveV(g, gone);
            RemoveV(g, gone + {n}) == GraphValue(
              map m | m in r.nodes && m != n :: r.nodes[m],
              map e | e in r.edges && e.0 != n && e.1 != n :: r.edges[e])
  {
  }

  // ---------------------------------------------------------------------------
  // The graph object

  /** A `networkx.DiGraph`. Every edge's ends are nodes: the graph starts empty
      and AddNodeV, AddEdgeV and RemoveV each preserve Closed. */
  class DiGraph {
    var nodes: map<string, NodeAttrs>
    var edges: map<Edge, EdgeAttrs>

    function Value(): GraphValue
      reads this
    {
      GraphValue(nodes, edges)
    }

    constructor ()
      ensures Value() == EmptyGraph
    {
      nodes := map[];
      edges := map[];
    }

    method AddNode(n: string, attrs: NodeAttrs)
      modifies this
      ensures Value() == AddNodeV(old(Value()), n, attrs)
    {
      if n in nodes {
        nodes := nodes[n := MergeNode(nodes[n], attrs)];
      } else {
        nodes := nodes[n := attrs];
      }
    }

    method AddEdge(u: string, v: string, attrs: EdgeAttrs)
      modifies this
      ensures Value() == AddEdgeV(old(Value()), u, v, attrs)
    {
      if u !in nodes {
        nodes := nodes[u := NoNodeAttrs];
      }
      if v !in nodes {
        nodes := nodes[v := NoNodeAttrs];
      }
      var prior := NoEdgeAttrs;
      if (u, v) in edges {
        prior := edges[(u, v)];
      }
      edges := edges[(u, v) := MergeEdge(prior, attrs)];
    }

    /** `G.remove_nodes_from(doomed)`, one node at a time; names that are not
        nodes are ignored. */
    method RemoveNodesFrom(doomed: seq<string>)
      modifies this
      ensures Value() == RemoveV(old(Value()), set n | n in doomed)
    {
      ghost var g0 := Value();
      ghost var gone: set<string> := {};
      var k := 0;
      while k < |doomed|
        invariant 0 <= k <= |doomed|
        invariant forall x :: x in gone <==> x in doomed[..k]
        invariant Value() == RemoveV(g0, gone)
      {
        var n := doomed[k];
        RemoveOneMore(g0, gone, n);
        nodes := map m | m in nodes && m != n :: nodes[m];
        edges := map e | e in edges && e.0 != n && e.1 != n :: edges[e];
        assert doomed[..k + 1] == doomed[..k] + [n];
        gone := gone + {n};
        k := k + 1;
      }
      assert doomed[..k] == doomed;
      assert gone == set n | n in doomed;
    }
  }
}
