/** Queries of a transaction: the published snapshot overlaid with the session's changes
    (crates/query, `OverlayGraphView`), against the graph with the changes made. */
module Overlay {
  import opened Core
  import opened Versions
  import opened Buckets
  import opened Index
  import opened LiveIndex
  import opened Reach

  /** `GraphSnapshot`: the maps together with their index. */
  datatype Snapshotted = Snapshotted(graph: Graph, index: IndexValue)

  ghost predicate Published(b: Snapshotted) {
    Keyed(b.graph) && Agrees(b.index, b.graph)
  }

  /** What is added is filed under its own id. */
  ghost predicate AddedKeyed(mu: Mutation) {
    Keyed(Graph(mu.nodes.added, mu.edges.added))
  }

  // ---------------------------------------------------------------- lookups

  function NodeOf(b: Snapshotted, mu: Mutation, n: NodeId): (r: Option<NodeRecord>)
    ensures r == Get(Mutated(b.graph, mu).nodes, n)
  {
    if n in mu.nodes.added then Some(mu.nodes.added[n])
    else if n in mu.nodes.removed then None
    else Get(b.graph.nodes, n)
  }

  function EdgeOf(b: Snapshotted, mu: Mutation, k: EdgeId): (r: Option<EdgeRecord>)
    ensures r == Get(Mutated(b.graph, mu).edges, k)
  {
    if k in mu.edges.added then Some(mu.edges.added[k])
    else if k in mu.edges.removed then None
    else Get(b.graph.edges, k)
  }

  lemma TypeFiled(b: Snapshotted, nodeType: string, n: NodeId)
    requires Published(b)
    ensures n in Bucket(b.index.labels, nodeType) <==> n in b.graph.nodes && b.graph.nodes[n].nodeType == nodeType
  {
    assert Holds(b.index.labels, nodeType, n) <==> n in Bucket(b.index.labels, nodeType);
  }

  /** `node_ids_by_type`. */
  function NodeIdsByType(b: Snapshotted, mu: Mutation, nodeType: string): set<NodeId> {
    (set n | n in Bucket(b.index.labels, nodeType) &&
             NodeOf(b, mu, n).Some? && NodeOf(b, mu, n).value.nodeType == nodeType)
    + (set n | n in mu.nodes.added && mu.nodes.added[n].nodeType == nodeType :: mu.nodes.added[n].id)
  }

  lemma ByTypeExact(b: Snapshotted, mu: Mutation, nodeType: string)
    requires Published(b) && AddedKeyed(mu)
    ensures var all := Mutated(b.graph, mu).nodes;
            NodeIdsByType(b, mu, nodeType) == set n | n in all && all[n].nodeType == nodeType
  {
    var all := Mutated(b.graph, mu).nodes;
    forall n ensures n in NodeIdsByType(b, mu, nodeType) <==> n in all && all[n].nodeType == nodeType {
      TypeFiled(b, nodeType, n);
    }
  }

  predicate EdgeMatches(e: EdgeRecord, n: NodeId, d: Direction, edgeType: Option<string>) {
    Matches(e, n, d) && (edgeType.Some? ==> e.edgeType == edgeType.value)
  }

  /** `GraphIndex::edge_ids_for_iter`: outgoing, then incoming; a loop is listed twice. */
  function ListedIds(b: Snapshotted, n: NodeId, d: Direction): seq<EdgeId> {
    match d
    case Outgoing => Bucket(b.index.adjacency, n)
    case Incoming => Bucket(b.index.reverseAdjacency, n)
    case Both => Bucket(b.index.adjacency, n) + Bucket(b.index.reverseAdjacency, n)
  }

  function BaseEdgeIdsFor(b: Snapshotted, n: NodeId, d: Direction, edgeType: Option<string>): set<EdgeId> {
    set k | k in ListedIds(b, n, d) &&
            (edgeType.Some? ==> k in b.graph.edges && b.graph.edges[k].edgeType == edgeType.value)
  }

  lemma IncidentFiled(b: Snapshotted, n: NodeId, d: Direction, k: EdgeId)
    requires Published(b)
    ensures k in ListedIds(b, n, d) <==> k in b.graph.edges && Matches(b.graph.edges[k], n, d)
  {
    assert Holds(b.index.adjacency, n, k) <==> k in Bucket(b.index.adjacency, n);
    assert Holds(b.index.reverseAdjacency, n, k) <==> k in Bucket(b.index.reverseAdjacency, n);
  }

  /** `edge_ids_for_iter`. */
  function EdgeIdsFor(b: Snapshotted, mu: Mutation, n: NodeId, d: Direction, edgeType: Option<string>): set<EdgeId> {
    (set k | k in BaseEdgeIdsFor(b, n, d, edgeType) &&
             EdgeOf(b, mu, k).Some? && EdgeMatches(EdgeOf(b, mu, k).value, n, d, edgeType))
    + (set k | k in mu.edges.added && EdgeMatches(mu.edges.added[k], n, d, edgeType) :: mu.edges.added[k].id)
  }

  lemma IncidentAt(b: Snapshotted, mu: Mutation, n: NodeId, d: Direction, edgeType: Option<string>, k: EdgeId)
    requires AddedKeyed(mu) && (k in ListedIds(b, n, d) <==> k in b.graph.edges && Matches(b.graph.edges[k], n, d))
    ensures var all := Mutated(b.graph, mu).edges;
            k in EdgeIdsFor(b, mu, n, d, edgeType) <==> k in all && EdgeMatches(all[k], n, d, edgeType)
  {
  }

  lemma IncidentExact(b: Snapshotted, mu: Mutation, n: NodeId, d: Direction, edgeType: Option<string>)
    requires Published(b) && AddedKeyed(mu)
    ensures var all := Mutated(b.graph, mu).edges;
            EdgeIdsFor(b, mu, n, d, edgeType) == set k | k in all && EdgeMatches(all[k], n, d, edgeType)
  {
    var all := Mutated(b.graph, mu).edges;
    forall k ensures k in EdgeIdsFor(b, mu, n, d, edgeType) <==> k in all && EdgeMatches(all[k], n, d, edgeType) {
      IncidentFiled(b, n, d, k);
      IncidentAt(b, mu, n, d, edgeType, k);
    }
  }

  /** The same by the fields of the edges. */
  lemma IncidentIs(b: Snapshotted, mu: Mutation, n: NodeId, d: Direction, edgeType: Option<string>, k: EdgeId)
    requires Published(b) && AddedKeyed(mu)
    ensures var all := Mutated(b.graph, mu).edges;
            k in EdgeIdsFor(b, mu, n, d, edgeType) <==>
            && k in all && (edgeType.Some? ==> all[k].edgeType == edgeType.value)
            && ((d != Incoming && all[k].source == n) || (d != Outgoing && all[k].target == n))
  {
    IncidentExact(b, mu, n, d, edgeType);
  }

  predicate Within(n: NodeRecord, from: int, to: int) {
    Timestamp(n).Some? && from <= Timestamp(n).value <= to
  }

  /** `GraphIndex::node_ids_in_time_range_iter`. */
  function BaseIdsInRange(b: Snapshotted, from: int, to: int): set<NodeId> {
    set t, n | t in b.index.temporal && from <= t <= to && n in b.index.temporal[t] :: n
  }

  lemma TimeFiled(b: Snapshotted, from: int, to: int, n: NodeId)
    requires Published(b)
    ensures n in BaseIdsInRange(b, from, to) <==> n in b.graph.nodes && Within(b.graph.nodes[n], from, to)
  {
    if n in BaseIdsInRange(b, from, to) {
      var t :| t in b.index.temporal && from <= t <= to && n in b.index.temporal[t];
      assert Holds(b.index.temporal, t, n);
    }
    if n in b.graph.nodes && Within(b.graph.nodes[n], from, to) {
      assert Holds(b.index.temporal, Timestamp(b.graph.nodes[n]).value, n);
    }
  }

  /** `node_ids_in_time_range_iter`. */
  function NodeIdsInTimeRange(b: Snapshotted, mu: Mutation, from: int, to: int): set<NodeId> {
    (set n | n in BaseIdsInRange(b, from, to) && NodeOf(b, mu, n).Some? && Within(NodeOf(b, mu, n).value, from, to))
    + (set n | n in mu.nodes.added && Within(mu.nodes.added[n], from, to) :: mu.nodes.added[n].id)
  }

  lemma TimeRangeExact(b: Snapshotted, mu: Mutation, from: int, to: int)
    requires Published(b) && AddedKeyed(mu)
    ensures var all := Mutated(b.graph, mu).nodes;
            NodeIdsInTimeRange(b, mu, from, to) == set n | n in all && Within(all[n], from, to)
  {
    var all := Mutated(b.graph, mu).nodes;
    forall n ensures n in NodeIdsInTimeRange(b, mu, from, to) <==> n in all && Within(all[n], from, to) {
      TimeFiled(b, from, to, n);
    }
  }

  /** The same by the property of the nodes: an integer within the bounds, or a float whose cast
      is. */
  lemma TimeRangeIs(b: Snapshotted, mu: Mutation, from: int, to: int, n: NodeId)
    requires Published(b) && AddedKeyed(mu)
    ensures var all := Mutated(b.graph, mu).nodes;
            n in NodeIdsInTimeRange(b, mu, from, to) <==>
            && n in all && "timestamp" in all[n].properties
            && match all[n].properties["timestamp"]
               case Integer(i) => from <= i <= to
               case Float(f) => from <= ToI64(f) <= to
               case _ => false
  {
    TimeRangeExact(b, mu, from, to);
  }

  lemma VectorFiled(b: Snapshotted, name: string, n: NodeId)
    requires Published(b)
    ensures n in Bucket(b.index.vectors, name) <==> n in b.graph.nodes && name in b.graph.nodes[n].vectors
  {
    assert Holds(b.index.vectors, name, n) <==> n in Bucket(b.index.vectors, name);
  }

  /** `vector_candidate_ids_iter`. */
  function VectorCandidates(b: Snapshotted, mu: Mutation, name: string): set<NodeId> {
    (set n | n in Bucket(b.index.vectors, name) && NodeOf(b, mu, n).Some? && name in NodeOf(b, mu, n).value.vectors)
    + (set n | n in mu.nodes.added && name in mu.nodes.added[n].vectors :: mu.nodes.added[n].id)
  }

  lemma VectorCandidatesExact(b: Snapshotted, mu: Mutation, name: string)
    requires Published(b) && AddedKeyed(mu)
    ensures var all := Mutated(b.graph, mu).nodes;
            VectorCandidates(b, mu, name) == set n | n in all && name in all[n].vectors
  {
    var all := Mutated(b.graph, mu).nodes;
    forall n ensures n in VectorCandidates(b, mu, name) <==> n in all && name in all[n].vectors {
      VectorFiled(b, name, n);
    }
  }

  /** `semantic_candidate_ids_iter`, which here filters exactly by type. */
  function SemanticCandidates(b: Snapshotted, mu: Mutation, name: string, nodeType: Option<string>): set<NodeId> {
    match nodeType
    case Some(t) => set n | n in NodeIdsByType(b, mu, t) && NodeOf(b, mu, n).Some? &&
         name in NodeOf(b, mu, n).value.vectors
    case None => VectorCandidates(b, mu, name)
  }

  lemma SemanticCandidatesExact(b: Snapshotted, mu: Mutation, name: string, nodeType: Option<string>)
    requires Published(b) && AddedKeyed(mu)
    ensures var all := Mutated(b.graph, mu).nodes;
            SemanticCandidates(b, mu, name, nodeType) ==
            set n | n in all && name in all[n].vectors && (nodeType.Some? ==> all[n].nodeType == nodeType.value)
  {
    match nodeType
    case Some(t) => ByTypeExact(b, mu, t);
    case None => VectorCandidatesExact(b, mu, name);
  }

  /** `all_nodes_iter`. */
  function AllNodeIds(b: Snapshotted, mu: Mutation): (r: set<NodeId>)
    ensures r == Mutated(b.graph, mu).nodes.Keys
  {
    (set n | n in b.graph.nodes && n !in mu.nodes.removed) + mu.nodes.added.Keys
  }

  // ---------------------------------------------------------------- unique keys

  ghost predicate Bears(nodes: map<NodeId, NodeRecord>, n: NodeId, key: string) {
    n in nodes && UniqueKey(nodes[n]) == Some(key)
  }

  /** `lookup_unique_key`: first the added nodes, in any order, then the index of the base. */
  method LookupUniqueKey(b: Snapshotted, mu: Mutation, key: string) returns (r: Option<NodeId>)
    requires AddedKeyed(mu)
    ensures r.Some? ==> Bears(Mutated(b.graph, mu).nodes, r.value, key)
    ensures KeysComplete(b.index.uniqueKeys, b.graph.nodes) && r.None? ==>
            forall n :: !Bears(Mutated(b.graph, mu).nodes, n, key)
    ensures r.Some? ==>
              && r.value in Mutated(b.graph, mu).nodes
              && Get(Mutated(b.graph, mu).nodes[r.value].properties, "unique_key") == Some(StringValue(key))
    ensures KeysComplete(b.index.uniqueKeys, b.graph.nodes) && r.None? ==>
              forall n | n in Mutated(b.graph, mu).nodes ::
                Get(Mutated(b.graph, mu).nodes[n].properties, "unique_key") != Some(StringValue(key))
  {
    var todo := mu.nodes.added.Keys;
    while todo != {}
      invariant todo <= mu.nodes.added.Keys
      invariant forall n | n in mu.nodes.added && n !in todo :: UniqueKey(mu.nodes.added[n]) != Some(key)
    {
      var n :| n in todo;
      if UniqueKey(mu.nodes.added[n]) == Some(key) {
        return Some(mu.nodes.added[n].id);
      }
      todo := todo - {n};
    }
    r := LookupBase(b, mu, key);
    forall n ensures Bears(Mutated(b.graph, mu).nodes, n, key) <==> BearsByField(Mutated(b.graph, mu).nodes, n, key) {
    }
  }

  ghost predicate BearsByField(nodes: map<NodeId, NodeRecord>, n: NodeId, key: string) {
    n in nodes && Get(nodes[n].properties, "unique_key") == Some(StringValue(key))
  }

  function LookupBase(b: Snapshotted, mu: Mutation, key: string): (r: Option<NodeId>)
    ensures r.Some? ==> Bears(Mutated(b.graph, mu).nodes, r.value, key)
    ensures KeysComplete(b.index.uniqueKeys, b.graph.nodes) ==>
              forall n | n in b.graph.nodes && n !in mu.nodes.added && Bears(Mutated(b.graph, mu).nodes, n, key) ::
                r == Some(n)
  {
    match Get(b.index.uniqueKeys, key)
    case None => None
    case Some(n) =>
      if NodeOf(b, mu, n).Some? && UniqueKey(NodeOf(b, mu, n).value) == Some(key) then Some(n) else None
  }

  /** With unique keys before and after the change, the lookup finds exactly the bearer. */
  lemma UniqueBearer(nodes: map<NodeId, NodeRecord>, key: string, r: Option<NodeId>, n: NodeId)
    requires KeysUnique(nodes) && (r.Some? ==> Bears(nodes, r.value, key))
    requires r.None? ==> forall m :: !Bears(nodes, m, key)
    ensures Bears(nodes, n, key) <==> r == Some(n)
  {
  }

  // ---------------------------------------------------------------- searches

  /** The view that `GraphSnapshot` gives to a search. */
  function IndexedView(b: Snapshotted): GraphView {
    var ends := b.index.adjacency.Keys + b.index.reverseAdjacency.Keys;
    GraphView(b.graph.nodes, b.graph.edges, b.index.adjacency, b.index.reverseAdjacency,
              map n | n in ends :: ListedIds(b, n, Both))
  }

  lemma IndexedIds(b: Snapshotted, n: NodeId, d: Direction)
    ensures IncidentIds(IndexedView(b), n, d) == ListedIds(b, n, d)
  {
  }

  /** A search on a published snapshot sees every incident edge and no other. */
  lemma IndexedViewOk(b: Snapshotted)
    requires Published(b)
    ensures ViewOk(IndexedView(b))
  {
    forall n, d, k
      ensures k in IncidentIds(IndexedView(b), n, d) <==> k in b.graph.edges && Matches(b.graph.edges[k], n, d)
    {
      IndexedIds(b, n, d);
      IncidentFiled(b, n, d, k);
    }
  }

  /** A view that lists what the overlay's lookups give, in some order. */
  ghost predicate ListsOverlay(v: GraphView, b: Snapshotted, mu: Mutation) {
    && v.nodes == Mutated(b.graph, mu).nodes && v.edges == Mutated(b.graph, mu).edges
    && (forall n, d :: SetOf(IncidentIds(v, n, d)) == EdgeIdsFor(b, mu, n, d, None))
  }

  lemma MutatedKeyed(g: Graph, mu: Mutation)
    requires Keyed(g) && AddedKeyed(mu)
    ensures Keyed(Mutated(g, mu))
  {
  }

  /** So does a search on the overlay, of the graph with the changes made. */
  lemma OverlayViewOk(v: GraphView, b: Snapshotted, mu: Mutation)
    requires Published(b) && AddedKeyed(mu) && ListsOverlay(v, b, mu)
    ensures ViewOk(v)
  {
    MutatedKeyed(b.graph, mu);
    forall n, d, k ensures k in IncidentIds(v, n, d) <==> k in v.edges && Matches(v.edges[k], n, d) {
      assert k in IncidentIds(v, n, d) <==> k in SetOf(IncidentIds(v, n, d));
      IncidentExact(b, mu, n, d, None);
    }
  }

  // ---------------------------------------------------------------- the session's changes

  /** Two tables agree on every id that a change does not speak of. */
  ghost predicate AgreeOutside<V>(a: map<string, V>, b: map<string, V>, d: Delta<V>) {
    forall k | (k in a || k in b) && k !in d.removed && k !in d.added :: Get(a, k) == Get(b, k)
  }

  lemma PatchedAt<V>(a: map<string, V>, d: Delta<V>, k: string)
    ensures Get(Patched(a, d), k) ==
            if k in d.added then Some(d.added[k]) else if k in d.removed then None else Get(a, k)
  {
  }

  lemma PatchedAgreeIff<V>(a: map<string, V>, b: map<string, V>, d: Delta<V>)
    ensures Patched(a, d) == Patched(b, d) <==> AgreeOutside(a, b, d)
  {
    if AgreeOutside(a, b, d) {
      forall k ensures Get(Patched(a, d), k) == Get(Patched(b, d), k) {
        PatchedAt(a, d, k);
        PatchedAt(b, d, k);
      }
      SameByGet(Patched(a, d), Patched(b, d));
    }
    if Patched(a, d) == Patched(b, d) {
      forall k | k !in d.removed && k !in d.added ensures Get(a, k) == Get(b, k) {
        PatchedAt(a, d, k);
        PatchedAt(b, d, k);
      }
    }
  }

  /** What a transaction shows of a published graph: the published graph with the changes that
      lead from the engine's live maps to the session's snapshot. That is the session's snapshot
      exactly when published and live graph agree on everything the changes do not speak of. */
  lemma OverlayIsSnapshotIff(published: Graph, nodes: Table<NodeRecord>, edges: Table<EdgeRecord>,
                             nodeOverrides: map<NodeId, Option<NodeRecord>>,
                             edgeOverrides: map<EdgeId, Option<EdgeRecord>>, now: nat, revision: nat)
    requires TableInv(nodes, now) && TableInv(edges, now)
    ensures var dn := DeltaFromCurrent(nodes, nodeOverrides, revision);
            var de := DeltaFromCurrent(edges, edgeOverrides, revision);
            Mutated(published, Mutation(dn, de)) ==
            Graph(Snapshot(nodes, nodeOverrides, revision), Snapshot(edges, edgeOverrides, revision)) <==>
            AgreeOutside(published.nodes, nodes.live, dn) && AgreeOutside(published.edges, edges.live, de)
  {
    DeltaMaterialises(nodes, nodeOverrides, now, revision);
    DeltaMaterialises(edges, edgeOverrides, now, revision);
    PatchedAgreeIff(published.nodes, nodes.live, DeltaFromCurrent(nodes, nodeOverrides, revision));
    PatchedAgreeIff(published.edges, edges.live, DeltaFromCurrent(edges, edgeOverrides, revision));
  }

  /** In particular, while the published graph is the live one, queries are of the snapshot. */
  lemma OverlayIsSnapshot(published: Graph, nodes: Table<NodeRecord>, edges: Table<EdgeRecord>,
                          nodeOverrides: map<NodeId, Option<NodeRecord>>,
                          edgeOverrides: map<EdgeId, Option<EdgeRecord>>, now: nat, revision: nat)
    requires TableInv(nodes, now) && TableInv(edges, now) && published == Graph(nodes.live, edges.live)
    ensures Mutated(published,
                    Mutation(DeltaFromCurrent(nodes, nodeOverrides, revision),
                             DeltaFromCurrent(edges, edgeOverrides, revision)))
            == Graph(Snapshot(nodes, nodeOverrides, revision), Snapshot(edges, edgeOverrides, revision))
  {
    OverlayIsSnapshotIff(published, nodes, edges, nodeOverrides, edgeOverrides, now, revision);
  }

  /** If the base's index does not find some stored node by its key, because another node
      shares the key, then some removal makes the overlay miss a node that is still stored. */
  lemma IncompleteBaseMisses(b: Snapshotted) returns (mu: Mutation, key: string, n: NodeId)
    requires Keyed(b.graph) && KeysSound(b.index.uniqueKeys, b.graph.nodes)
    requires !KeysComplete(b.index.uniqueKeys, b.graph.nodes)
    ensures Fits(b.graph, mu) && mu.nodes.added == map[]
    ensures Bears(Mutated(b.graph, mu).nodes, n, key) && LookupBase(b, mu, key) == None
  {
    n :| n in b.graph.nodes && UniqueKey(b.graph.nodes[n]).Some? &&
         Get(b.index.uniqueKeys, UniqueKey(b.graph.nodes[n]).value) != Some(n);
    key := UniqueKey(b.graph.nodes[n]).value;
    mu := match Get(b.index.uniqueKeys, key)
      case None => NO_MUTATION
      case Some(m) => Mutation(Delta(map[m := b.graph.nodes[m]], map[]), Delta(map[], map[]));
  }
}
