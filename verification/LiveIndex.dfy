/** The index as it is kept up to date in place (crates/index `GraphIndex`, crates/api
    `indexes_with_mutation`). */
module LiveIndex {
  import opened Core
  import opened Versions
  import opened Buckets
  import opened Index

  /** A planned change of nodes and edges: what goes, with its stored version, and what comes. */
  datatype Mutation = Mutation(nodes: Delta<NodeRecord>, edges: Delta<EdgeRecord>)

  const NO_MUTATION := Mutation(Delta(map[], map[]), Delta(map[], map[]))

  function Mutated(g: Graph, mu: Mutation): Graph {
    Graph(Patched(g.nodes, mu.nodes), Patched(g.edges, mu.edges))
  }

  /** What goes is the stored version; what is replaced goes first. */
  ghost predicate FitsTable<V>(live: map<string, V>, d: Delta<V>) {
    && (forall k | k in d.removed :: Get(live, k) == Some(d.removed[k]))
    && (forall k | k in d.added && k in live :: k in d.removed)
  }

  ghost predicate Fits(g: Graph, mu: Mutation) {
    && FitsTable(g.nodes, mu.nodes) && FitsTable(g.edges, mu.edges)
    && Keyed(Graph(mu.nodes.added, mu.edges.added))
  }

  class GraphIndex {
    var nodeIds: set<NodeId>
    var uniqueKeys: map<string, NodeId>
    var adjacency: Buckets<NodeId>
    var reverseAdjacency: Buckets<NodeId>
    var labels: Buckets<string>
    var temporal: Buckets<int>
    var vectors: Buckets<string>

    function Value(): IndexValue
      reads this
    {
      IndexValue(nodeIds, uniqueKeys, adjacency, reverseAdjacency, labels, temporal, vectors)
    }

    constructor ()
      ensures Value() == EMPTY_INDEX
    {
      nodeIds, uniqueKeys, adjacency, reverseAdjacency := {}, map[], map[], map[];
      labels, temporal, vectors := map[], map[], map[];
    }

    constructor Clone(base: GraphIndex)
      ensures Value() == base.Value()
    {
      nodeIds, uniqueKeys := base.nodeIds, base.uniqueKeys;
      adjacency, reverseAdjacency := base.adjacency, base.reverseAdjacency;
      labels, temporal, vectors := base.labels, base.temporal, base.vectors;
    }

    method UpsertVectors(n: NodeRecord)
      modifies this`vectors
      ensures vectors == VectorsUpserted(old(vectors), n)
    {
      vectors := VectorsRetained(vectors, n);
      ghost var retained := vectors;
      var names := n.vectors.Keys;
      while names != {}
        invariant names <= n.vectors.Keys
        invariant vectors == PushNames(retained, n.vectors.Keys - names, n.id)
        decreases names
      {
        var name :| name in names;
        PushOneMore(retained, n.vectors.Keys - names, name, n.id);
        names := names - {name};
        assert n.vectors.Keys - names == n.vectors.Keys - (names + {name}) + {name};
        vectors := PushBucket(vectors, name, n.id);
      }
      assert n.vectors.Keys - names == n.vectors.Keys;
    }

    method UpsertNode(n: NodeRecord)
      modifies this
      ensures Value() == NodeUpserted(old(Value()), n)
    {
      nodeIds := nodeIds + {n.id};
      labels := PushBucket(labels, n.nodeType, n.id);
      if Timestamp(n).Some? {
        temporal := PushBucket(temporal, Timestamp(n).value, n.id);
      }
      UpsertVectors(n);
      if UniqueKey(n).Some? {
        uniqueKeys := uniqueKeys[UniqueKey(n).value := n.id];
      }
    }

    method DeleteNode(n: NodeRecord)
      modifies this
      ensures Value() == NodeDeleted(old(Value()), n)
    {
      nodeIds := nodeIds - {n.id};
      labels := RemoveFromBucket(labels, n.nodeType, n.id);
      if Timestamp(n).Some? {
        temporal := RemoveFromBucket(temporal, Timestamp(n).value, n.id);
      }
      vectors := RemoveEverywhere(vectors, n.id);
      if UniqueKey(n).Some? && Get(uniqueKeys, UniqueKey(n).value) == Some(n.id) {
        uniqueKeys := uniqueKeys - {UniqueKey(n).value};
      }
    }

    method UpsertEdge(e: EdgeRecord)
      modifies this
      ensures Value() == EdgeUpserted(old(Value()), e)
      ensures old(Tidy(adjacency)) ==>
                forall n, k :: Holds(adjacency, n, k) <==> old(Holds(adjacency, n, k)) || (n == e.source && k == e.id)
    {
      if Tidy(adjacency) {
        PushBucketHolds(adjacency, e.source, e.id);
      }
      adjacency := PushBucket(adjacency, e.source, e.id);
      reverseAdjacency := PushBucket(reverseAdjacency, e.target, e.id);
    }

    method DeleteEdge(e: EdgeRecord)
      modifies this
      ensures Value() == EdgeDeleted(old(Value()), e)
      ensures old(Tidy(adjacency)) ==>
                forall n, k :: Holds(adjacency, n, k) <==> old(Holds(adjacency, n, k)) && !(n == e.source && k == e.id)
    {
      if Tidy(adjacency) {
        RemoveFromBucketHolds(adjacency, e.source, e.id);
      }
      adjacency := RemoveFromBucket(adjacency, e.source, e.id);
      reverseAdjacency := RemoveFromBucket(reverseAdjacency, e.target, e.id);
    }

    // -------------------------------------------------------------- whole groups of records

    method DeleteEdges(gone: map<EdgeId, EdgeRecord>, ghost edges: map<EdgeId, EdgeRecord>)
      requires EdgesDeleting(Value(), Value(), edges, gone, gone.Keys)
      modifies this
      ensures EdgesDeleting(old(Value()), Value(), edges, gone, {})
    {
      var todo := gone.Keys;
      while todo != {}
        invariant EdgesDeleting(old(Value()), Value(), edges, gone, todo)
        decreases todo
      {
        var k :| k in todo;
        EdgesDeletingStep(old(Value()), Value(), edges, gone, todo, k);
        DeleteEdge(gone[k]);
        todo := todo - {k};
      }
    }

    method InsertEdges(come: map<EdgeId, EdgeRecord>, ghost edges: map<EdgeId, EdgeRecord>)
      requires EdgesInserting(Value(), Value(), edges, come, come.Keys)
      modifies this
      ensures EdgesInserting(old(Value()), Value(), edges, come, {})
    {
      var todo := come.Keys;
      while todo != {}
        invariant EdgesInserting(old(Value()), Value(), edges, come, todo)
        decreases todo
      {
        var k :| k in todo;
        EdgesInsertingStep(old(Value()), Value(), edges, come, todo, k);
        UpsertEdge(come[k]);
        todo := todo - {k};
      }
    }

    method DeleteNodes(gone: map<NodeId, NodeRecord>, ghost nodes: map<NodeId, NodeRecord>)
      requires NodesDeleting(Value(), Value(), nodes, gone, gone.Keys)
      modifies this
      ensures NodesDeleting(old(Value()), Value(), nodes, gone, {})
    {
      var todo := gone.Keys;
      while todo != {}
        invariant NodesDeleting(old(Value()), Value(), nodes, gone, todo)
        decreases todo
      {
        var k :| k in todo;
        NodesDeletingStep(old(Value()), Value(), nodes, gone, todo, k);
        DeleteNode(gone[k]);
        todo := todo - {k};
      }
    }

    method InsertNodes(come: map<NodeId, NodeRecord>, ghost nodes: map<NodeId, NodeRecord>)
      requires NodesInserting(Value(), Value(), nodes, come, come.Keys)
      modifies this
      ensures NodesInserting(old(Value()), Value(), nodes, come, {})
    {
      var todo := come.Keys;
      while todo != {}
        invariant NodesInserting(old(Value()), Value(), nodes, come, todo)
        decreases todo
      {
        var k :| k in todo;
        NodesInsertingStep(old(Value()), Value(), nodes, come, todo, k);
        UpsertNode(come[k]);
        todo := todo - {k};
      }
    }
  }

  // ---------------------------------------------------------------- half-way through a group

  /** The edges in `gone` but not those in `todo` have been taken out. */
  ghost predicate EdgesDeleting(before: IndexValue, ix: IndexValue, edges: map<EdgeId, EdgeRecord>,
                                gone: map<EdgeId, EdgeRecord>, todo: set<EdgeId>)
  {
    && (forall k | k in gone :: Get(edges, k) == Some(gone[k]) && gone[k].id == k)
    && todo <= gone.Keys && EdgesAgree(ix, edges - (gone.Keys - todo)) && SameNodeSide(ix, before)
  }

  lemma EdgesDeletingStep(before: IndexValue, ix: IndexValue, edges: map<EdgeId, EdgeRecord>,
                          gone: map<EdgeId, EdgeRecord>, todo: set<EdgeId>, k: EdgeId)
    requires EdgesDeleting(before, ix, edges, gone, todo) && k in todo
    ensures EdgesDeleting(before, EdgeDeleted(ix, gone[k]), edges, gone, todo - {k})
  {
    var now := edges - (gone.Keys - todo);
    assert now - {k} == edges - (gone.Keys - (todo - {k}));
    EdgeRemoved(ix, now, gone[k]);
  }

  ghost predicate EdgesInserting(before: IndexValue, ix: IndexValue, edges: map<EdgeId, EdgeRecord>,
                                 come: map<EdgeId, EdgeRecord>, todo: set<EdgeId>)
  {
    && (forall k | k in come :: k !in edges && come[k].id == k)
    && todo <= come.Keys && EdgesAgree(ix, edges + (come - todo)) && SameNodeSide(ix, before)
  }

  lemma EdgesInsertingStep(before: IndexValue, ix: IndexValue, edges: map<EdgeId, EdgeRecord>,
                           come: map<EdgeId, EdgeRecord>, todo: set<EdgeId>, k: EdgeId)
    requires EdgesInserting(before, ix, edges, come, todo) && k in todo
    ensures EdgesInserting(before, EdgeUpserted(ix, come[k]), edges, come, todo - {k})
  {
    var now := edges + (come - todo);
    assert now[k := come[k]] == edges + (come - (todo - {k}));
    EdgeInserted(ix, now, come[k]);
  }

  ghost predicate NodesDeleting(before: IndexValue, ix: IndexValue, nodes: map<NodeId, NodeRecord>,
                                gone: map<NodeId, NodeRecord>, todo: set<NodeId>)
  {
    && (forall k | k in gone :: Get(nodes, k) == Some(gone[k]) && gone[k].id == k)
    && todo <= gone.Keys && NodesAgree(ix, nodes - (gone.Keys - todo)) && SameEdgeSide(ix, before)
    && (KeysComplete(before.uniqueKeys, nodes) ==> KeysComplete(ix.uniqueKeys, nodes - (gone.Keys - todo)))
  }

  lemma NodesDeletingStep(before: IndexValue, ix: IndexValue, nodes: map<NodeId, NodeRecord>,
                          gone: map<NodeId, NodeRecord>, todo: set<NodeId>, k: NodeId)
    requires NodesDeleting(before, ix, nodes, gone, todo) && k in todo
    ensures NodesDeleting(before, NodeDeleted(ix, gone[k]), nodes, gone, todo - {k})
  {
    var now := nodes - (gone.Keys - todo);
    assert now - {k} == nodes - (gone.Keys - (todo - {k}));
    NodeRemoved(ix, now, gone[k]);
    if KeysComplete(before.uniqueKeys, nodes) {
      KeysRemoved(ix, now, gone[k]);
    }
  }

  ghost predicate NodesInserting(before: IndexValue, ix: IndexValue, nodes: map<NodeId, NodeRecord>,
                                 come: map<NodeId, NodeRecord>, todo: set<NodeId>)
  {
    && (forall k | k in come :: k !in nodes && come[k].id == k)
    && todo <= come.Keys && NodesAgree(ix, nodes + (come - todo)) && SameEdgeSide(ix, before)
    && (KeysComplete(before.uniqueKeys, nodes) && KeysUnique(nodes + come) ==>
        KeysComplete(ix.uniqueKeys, nodes + (come - todo)))
  }

  lemma OneMore(nodes: map<NodeId, NodeRecord>, come: map<NodeId, NodeRecord>, todo: set<NodeId>, k: NodeId)
    requires k in todo && todo <= come.Keys
    ensures (nodes + (come - todo))[k := come[k]] == nodes + (come - (todo - {k}))
    ensures k !in nodes ==> k !in nodes + (come - todo)
  {
  }

  lemma KeysInsertingStep(ix: IndexValue, nodes: map<NodeId, NodeRecord>, come: map<NodeId, NodeRecord>,
                          todo: set<NodeId>, k: NodeId)
    requires (forall x | x in come :: x !in nodes && come[x].id == x) && k in todo && todo <= come.Keys
    ensures KeysUnique(nodes + come) && KeysComplete(ix.uniqueKeys, nodes + (come - todo)) ==>
              KeysComplete(NodeUpserted(ix, come[k]).uniqueKeys, nodes + (come - (todo - {k})))
  {
    if KeysUnique(nodes + come) && KeysComplete(ix.uniqueKeys, nodes + (come - todo)) {
      PartUnique(nodes, come, todo, k);
      OneMore(nodes, come, todo, k);
      KeysInserted(ix, nodes + (come - todo), come[k]);
    }
  }

  lemma NodesInsertingStep(before: IndexValue, ix: IndexValue, nodes: map<NodeId, NodeRecord>,
                           come: map<NodeId, NodeRecord>, todo: set<NodeId>, k: NodeId)
    requires NodesInserting(before, ix, nodes, come, todo) && k in todo
    ensures NodesInserting(before, NodeUpserted(ix, come[k]), nodes, come, todo - {k})
  {
    OneMore(nodes, come, todo, k);
    NodeInserted(ix, nodes + (come - todo), come[k]);
    KeysInsertingStep(ix, nodes, come, todo, k);
  }

  ghost predicate SameNodeSide(a: IndexValue, b: IndexValue) {
    a.nodeIds == b.nodeIds && a.labels == b.labels && a.temporal == b.temporal && a.vectors == b.vectors &&
    a.uniqueKeys == b.uniqueKeys
  }

  ghost predicate SameEdgeSide(a: IndexValue, b: IndexValue) {
    a.adjacency == b.adjacency && a.reverseAdjacency == b.reverseAdjacency
  }

  lemma PushOneMore(m: Buckets<string>, names: set<string>, name: string, x: NodeId)
    ensures PushBucket(PushNames(m, names, x), name, x) == PushNames(m, names + {name}, x)
  {
    if name in names {
      AlreadyUnique(Bucket(m, name), x);
    }
  }

  lemma PartUnique(nodes: map<NodeId, NodeRecord>, come: map<NodeId, NodeRecord>, todo: set<NodeId>, k: NodeId)
    requires KeysUnique(nodes + come) && k in todo && todo <= come.Keys && forall x | x in come :: x !in nodes
    ensures KeysUnique((nodes + (come - todo))[k := come[k]])
  {
    var part, all := (nodes + (come - todo))[k := come[k]], nodes + come;
    assert forall x | x in part :: x in all && all[x] == part[x];
  }

  lemma StartDeleting(v: IndexValue, g: Graph, mu: Mutation)
    requires Keyed(g) && Agrees(v, g) && Fits(g, mu)
    ensures EdgesDeleting(v, v, g.edges, mu.edges.removed, mu.edges.removed.Keys)
    ensures NodesDeleting(v, v, g.nodes, mu.nodes.removed, mu.nodes.removed.Keys)
  {
    assert g.edges - (mu.edges.removed.Keys - mu.edges.removed.Keys) == g.edges;
    assert g.nodes - (mu.nodes.removed.Keys - mu.nodes.removed.Keys) == g.nodes;
  }

  lemma NodesDeletingAfterEdges(v0: IndexValue, v1: IndexValue, nodes: map<NodeId, NodeRecord>,
                                gone: map<NodeId, NodeRecord>)
    requires NodesDeleting(v0, v0, nodes, gone, gone.Keys) && SameNodeSide(v1, v0)
    ensures NodesDeleting(v1, v1, nodes, gone, gone.Keys)
  {
  }

  lemma NodesDeleted(v1: IndexValue, v2: IndexValue, nodes: map<NodeId, NodeRecord>, gone: map<NodeId, NodeRecord>,
                     left: map<NodeId, NodeRecord>)
    requires NodesDeleting(v1, v2, nodes, gone, {}) && left == nodes - gone.Keys
    ensures NodesAgree(v2, left) && (KeysComplete(v1.uniqueKeys, nodes) ==> KeysComplete(v2.uniqueKeys, left))
  {
    assert left == nodes - (gone.Keys - {});
  }

  lemma EdgesDeleted(v0: IndexValue, v1: IndexValue, edges: map<EdgeId, EdgeRecord>, gone: map<EdgeId, EdgeRecord>,
                     left: map<EdgeId, EdgeRecord>)
    requires EdgesDeleting(v0, v1, edges, gone, {}) && left == edges - gone.Keys
    ensures EdgesAgree(v1, left) && SameNodeSide(v1, v0)
  {
    assert left == edges - (gone.Keys - {});
  }

  lemma InsertingNodes(v: IndexValue, nodes: map<NodeId, NodeRecord>, come: map<NodeId, NodeRecord>)
    requires NodesAgree(v, nodes) && forall k | k in come :: k !in nodes && come[k].id == k
    ensures NodesInserting(v, v, nodes, come, come.Keys)
  {
    assert nodes + (come - come.Keys) == nodes;
  }

  lemma InsertingEdges(v: IndexValue, edges: map<EdgeId, EdgeRecord>, come: map<EdgeId, EdgeRecord>)
    requires EdgesAgree(v, edges) && forall k | k in come :: k !in edges && come[k].id == k
    ensures EdgesInserting(v, v, edges, come, come.Keys)
  {
    assert edges + (come - come.Keys) == edges;
  }

  lemma StartInsertingNodes(v1: IndexValue, v2: IndexValue, g: Graph, mu: Mutation)
    requires Fits(g, mu) && NodesDeleting(v1, v2, g.nodes, mu.nodes.removed, {})
    ensures NodesInserting(v2, v2, g.nodes - mu.nodes.removed.Keys, mu.nodes.added, mu.nodes.added.Keys)
    ensures KeysComplete(v1.uniqueKeys, g.nodes) ==> KeysComplete(v2.uniqueKeys, g.nodes - mu.nodes.removed.Keys)
  {
    var now := g.nodes - mu.nodes.removed.Keys;
    NodesDeleted(v1, v2, g.nodes, mu.nodes.removed, now);
    InsertingNodes(v2, now, mu.nodes.added);
  }

  lemma StartInsertingEdges(v0: IndexValue, v1: IndexValue, v3: IndexValue, g: Graph, mu: Mutation)
    requires Fits(g, mu) && EdgesDeleting(v0, v1, g.edges, mu.edges.removed, {}) && SameEdgeSide(v3, v1)
    ensures EdgesInserting(v3, v3, g.edges - mu.edges.removed.Keys, mu.edges.added, mu.edges.added.Keys)
  {
    var now := g.edges - mu.edges.removed.Keys;
    EdgesDeleted(v0, v1, g.edges, mu.edges.removed, now);
    InsertingEdges(v3, now, mu.edges.added);
  }

  lemma EdgesInserted(v3: IndexValue, v4: IndexValue, edges: map<EdgeId, EdgeRecord>, come: map<EdgeId, EdgeRecord>,
                      all: map<EdgeId, EdgeRecord>)
    requires EdgesInserting(v3, v4, edges, come, {}) && all == edges + come
    ensures EdgesAgree(v4, all) && SameNodeSide(v4, v3)
  {
    assert come - {} == come;
  }

  lemma NodesInserted(v2: IndexValue, v3: IndexValue, v4: IndexValue, nodes: map<NodeId, NodeRecord>,
                      come: map<NodeId, NodeRecord>, all: map<NodeId, NodeRecord>)
    requires NodesInserting(v2, v3, nodes, come, {}) && SameNodeSide(v4, v3) && all == nodes + come
    ensures NodesAgree(v4, all)
    ensures KeysComplete(v2.uniqueKeys, nodes) && KeysUnique(all) ==> KeysComplete(v4.uniqueKeys, all)
  {
    assert come - {} == come;
  }

  /** The in-place part of `indexes_with_mutation`. */
  method MutateIndex(ix: GraphIndex, mu: Mutation, ghost g: Graph)
    requires Keyed(g) && Agrees(ix.Value(), g) && Fits(g, mu)
    modifies ix
    ensures Agrees(ix.Value(), Mutated(g, mu))
    ensures old(KeysComplete(ix.uniqueKeys, g.nodes)) && KeysUnique(Mutated(g, mu).nodes) ==>
              KeysComplete(ix.uniqueKeys, Mutated(g, mu).nodes)
  {
    ghost var v0 := ix.Value();
    StartDeleting(v0, g, mu);
    ix.DeleteEdges(mu.edges.removed, g.edges);
    ghost var v1 := ix.Value();
    NodesDeletingAfterEdges(v0, v1, g.nodes, mu.nodes.removed);
    ix.DeleteNodes(mu.nodes.removed, g.nodes);
    ghost var v2 := ix.Value();
    StartInsertingNodes(v1, v2, g, mu);
    ix.InsertNodes(mu.nodes.added, g.nodes - mu.nodes.removed.Keys);
    ghost var v3 := ix.Value();
    StartInsertingEdges(v0, v1, v3, g, mu);
    ix.InsertEdges(mu.edges.added, g.edges - mu.edges.removed.Keys);
    EdgesInserted(v3, ix.Value(), g.edges - mu.edges.removed.Keys, mu.edges.added, Mutated(g, mu).edges);
    NodesInserted(v2, v3, ix.Value(), g.nodes - mu.nodes.removed.Keys, mu.nodes.added, Mutated(g, mu).nodes);
  }

  /** Complete unique keys are unique. */
  lemma CompleteIsUnique(keys: map<string, NodeId>, nodes: map<NodeId, NodeRecord>)
    ensures KeysComplete(keys, nodes) ==> KeysUnique(nodes)
  {
  }

  /** `indexes_with_mutation`: updating a copy of the index record by record makes it agree
      with the changed graph; from complete unique keys it keeps them complete exactly when no
      two nodes of the changed graph share one. */
  method IndexesWithMutation(base: GraphIndex, mu: Mutation, ghost g: Graph) returns (ix: GraphIndex)
    requires Keyed(g) && Agrees(base.Value(), g) && Fits(g, mu)
    ensures fresh(ix) && Agrees(ix.Value(), Mutated(g, mu))
    ensures KeysComplete(base.uniqueKeys, g.nodes) ==>
              (KeysComplete(ix.uniqueKeys, Mutated(g, mu).nodes) <==> KeysUnique(Mutated(g, mu).nodes))
  {
    ix := new GraphIndex.Clone(base);
    MutateIndex(ix, mu, g);
    CompleteIsUnique(ix.uniqueKeys, Mutated(g, mu).nodes);
  }

  lemma EmptyAgrees()
    ensures Agrees(EMPTY_INDEX, EMPTY_GRAPH) && KeysComplete(EMPTY_INDEX.uniqueKeys, EMPTY_GRAPH.nodes)
  {
    assert TypesOf(map[]) == map[] && TimesOf(map[]) == map[] && NamesOf(map[]) == map[];
    assert SourcesOf(map[]) == map[] && TargetsOf(map[]) == map[];
  }

  lemma StartRebuild(g: Graph)
    requires Keyed(g)
    ensures NodesInserting(EMPTY_INDEX, EMPTY_INDEX, map[], g.nodes, g.nodes.Keys)
    ensures EdgesInserting(EMPTY_INDEX, EMPTY_INDEX, map[], g.edges, g.edges.Keys)
  {
    EmptyAgrees();
    assert map[] + (g.nodes - g.nodes.Keys) == map[] && map[] + (g.edges - g.edges.Keys) == map[];
  }

  lemma EdgesInsertingAfterNodes(v0: IndexValue, v1: IndexValue, edges: map<EdgeId, EdgeRecord>,
                                 come: map<EdgeId, EdgeRecord>)
    requires EdgesInserting(v0, v0, edges, come, come.Keys) && SameEdgeSide(v1, v0)
    ensures EdgesInserting(v1, v1, edges, come, come.Keys)
  {
  }

  lemma AllEdgesInserted(v1: IndexValue, v2: IndexValue, edges: map<EdgeId, EdgeRecord>)
    requires EdgesInserting(v1, v2, map[], edges, {})
    ensures EdgesAgree(v2, edges) && SameNodeSide(v2, v1)
  {
    assert map[] + edges == edges;
    EdgesInserted(v1, v2, map[], edges, edges);
  }

  lemma AllNodesInserted(v1: IndexValue, v2: IndexValue, nodes: map<NodeId, NodeRecord>)
    requires NodesInserting(EMPTY_INDEX, v1, map[], nodes, {}) && SameNodeSide(v2, v1)
    ensures NodesAgree(v2, nodes)
    ensures KeysUnique(nodes) ==> KeysComplete(v2.uniqueKeys, nodes)
  {
    assert map[] + nodes == nodes;
    NodesInserted(EMPTY_INDEX, v1, v2, map[], nodes, nodes);
  }

  /** `rebuild_internal` on the records of a graph. */
  method Rebuild(g: Graph) returns (ix: GraphIndex)
    requires Keyed(g)
    ensures fresh(ix) && Agrees(ix.Value(), g)
    ensures KeysComplete(ix.uniqueKeys, g.nodes) <==> KeysUnique(g.nodes)
  {
    ix := new GraphIndex();
    StartRebuild(g);
    ix.InsertNodes(g.nodes, map[]);
    ghost var v1 := ix.Value();
    EdgesInsertingAfterNodes(EMPTY_INDEX, v1, map[], g.edges);
    ix.InsertEdges(g.edges, map[]);
    AllEdgesInserted(v1, ix.Value(), g.edges);
    AllNodesInserted(v1, ix.Value(), g.nodes);
  }

  // ---------------------------------------------------------------- unique keys that are shared

  /** When two nodes share a key, an update can lose it: after the later bearer goes, the key
      finds nothing although the other bearer is still stored. */
  lemma SharedKeyIsLost() returns (first: NodeRecord, second: NodeRecord)
    ensures UniqueKey(first) == UniqueKey(second) == Some("k") && first.id != second.id
    ensures var ix := NodeUpserted(NodeUpserted(EMPTY_INDEX, first), second);
            Get(ix.uniqueKeys, "k") == Some(second.id) && Get(NodeDeleted(ix, second).uniqueKeys, "k") == None
  {
    first := NodeRecord("a", "t", map["unique_key" := StringValue("k")], map[]);
    second := NodeRecord("b", "t", map["unique_key" := StringValue("k")], map[]);
    assert "a"[0] != "b"[0];
  }
}
