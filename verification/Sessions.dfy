/** A transaction session over the graph it started from: staged operations, the view they
    give, and the merged batch that a commit will apply. */
module Sessions {
  import opened Core

  datatype Operation =
    | UpsertNode(node: NodeRecord)
    | UpsertEdge(edge: EdgeRecord)
    | DeleteNode(nodeId: NodeId)
    | DeleteEdge(edgeId: EdgeId)

  datatype Session = Session(
    startedAt: nat,
    nodeOverrides: map<NodeId, Option<NodeRecord>>,
    edgeOverrides: map<EdgeId, Option<EdgeRecord>>,
    staged: WriteBatch,
    touchedNodes: set<NodeId>,
    touchedEdges: set<EdgeId>)

  function FreshSession(revision: nat): Session {
    Session(revision, map[], map[], EMPTY_BATCH, {}, {})
  }

  function Overlaid<V>(base: map<string, V>, overrides: map<string, Option<V>>): map<string, V> {
    map k | k in base.Keys + overrides.Keys && (k in overrides ==> overrides[k].Some?) ::
      if k in overrides then overrides[k].value else base[k]
  }

  lemma OverlaidAt<V>(base: map<string, V>, overrides: map<string, Option<V>>, k: string)
    ensures Get(Overlaid(base, overrides), k) == if k in overrides then overrides[k] else Get(base, k)
  {
  }

  /** The graph a session sees. */
  function View(base: Graph, s: Session): Graph {
    Graph(Overlaid(base.nodes, s.nodeOverrides), Overlaid(base.edges, s.edgeOverrides))
  }

  /** `batch_for_operation`. */
  function BatchFor(op: Operation): WriteBatch {
    match op
    case UpsertNode(n) => EMPTY_BATCH.(nodesUpserted := [n])
    case UpsertEdge(e) => EMPTY_BATCH.(edgesUpserted := [e])
    case DeleteNode(k) => EMPTY_BATCH.(deletedNodeIds := [k])
    case DeleteEdge(k) => EMPTY_BATCH.(deletedEdgeIds := [k])
  }

  /** `merge_write_batches`: operations are regrouped by kind. */
  function Merge(a: WriteBatch, b: WriteBatch): WriteBatch {
    WriteBatch(a.nodesUpserted + b.nodesUpserted, a.edgesUpserted + b.edgesUpserted,
               a.deletedNodeIds + b.deletedNodeIds, a.deletedEdgeIds + b.deletedEdgeIds)
  }

  function BatchNodeIds(b: WriteBatch): set<NodeId> {
    NodesById(b.nodesUpserted).Keys + SetOf(b.deletedNodeIds)
  }

  function BatchEdgeIds(b: WriteBatch): set<EdgeId> {
    EdgesById(b.edgesUpserted).Keys + SetOf(b.deletedEdgeIds)
  }

  function Incident(edges: map<EdgeId, EdgeRecord>, ids: set<NodeId>): set<EdgeId> {
    set k | k in edges && Touches(edges[k], ids)
  }

  function Absent<V>(ids: set<string>): map<string, Option<V>> {
    map k | k in ids :: None
  }

  /** `stage_operation_on_session`. */
  function Stage(base: Graph, s: Session, op: Operation): Result<Session> {
    var b := BatchFor(op);
    var s' := s.(staged := Merge(s.staged, b),
                 touchedNodes := s.touchedNodes + BatchNodeIds(b),
                 touchedEdges := s.touchedEdges + BatchEdgeIds(b));
    match op
    case UpsertNode(n) => Ok(s'.(nodeOverrides := s.nodeOverrides[n.id := Some(n)]))
    case UpsertEdge(e) =>
      if e.source !in View(base, s).nodes || e.target !in View(base, s).nodes then Err(Validation)
      else Ok(s'.(edgeOverrides := s.edgeOverrides[e.id := Some(e)]))
    case DeleteNode(k) =>
      var cascade := Incident(View(base, s).edges, {k});
      Ok(s'.(nodeOverrides := s.nodeOverrides[k := None],
             edgeOverrides := s.edgeOverrides + Absent(cascade),
             touchedEdges := s'.touchedEdges + cascade))
    case DeleteEdge(k) => Ok(s'.(edgeOverrides := s.edgeOverrides[k := None]))
  }

  // ---------------------------------------------------------------- what staging keeps

  /** What one operation does to the graph a session sees. */
  function Shown(v: Graph, op: Operation): Graph {
    match op
    case UpsertNode(n) => v.(nodes := v.nodes[n.id := n])
    case UpsertEdge(e) => v.(edges := v.edges[e.id := e])
    case DeleteNode(k) => Graph(v.nodes - {k}, v.edges - Incident(v.edges, {k}))
    case DeleteEdge(k) => v.(edges := v.edges - {k})
  }

  lemma OverlaidPut<V>(base: map<string, V>, overrides: map<string, Option<V>>, k: string, v: V)
    ensures Overlaid(base, overrides[k := Some(v)]) == Overlaid(base, overrides)[k := v]
  {
  }

  lemma OverlaidDrop<V>(base: map<string, V>, overrides: map<string, Option<V>>, ids: set<string>)
    ensures Overlaid(base, overrides + Absent(ids)) == Overlaid(base, overrides) - ids
  {
  }

  lemma OverlaidDropOne<V>(base: map<string, V>, overrides: map<string, Option<V>>, k: string)
    ensures Overlaid(base, overrides[k := None]) == Overlaid(base, overrides) - {k}
  {
  }

  /** Each staged operation changes the view exactly as it would change a graph. */
  lemma StageShows(base: Graph, s: Session, op: Operation)
    requires Stage(base, s, op).Ok?
    ensures View(base, Stage(base, s, op).value) == Shown(View(base, s), op)
  {
    match op
    case UpsertNode(n) => OverlaidPut(base.nodes, s.nodeOverrides, n.id, n);
    case UpsertEdge(e) => OverlaidPut(base.edges, s.edgeOverrides, e.id, e);
    case DeleteNode(k) =>
      OverlaidDropOne(base.nodes, s.nodeOverrides, k);
      OverlaidDrop(base.edges, s.edgeOverrides, Incident(View(base, s).edges, {k}));
    case DeleteEdge(k) => OverlaidDropOne(base.edges, s.edgeOverrides, k);
  }

  /** The start graph with all staged upserts and none of the staged deletes. */
  ghost function Latest(base: Graph, b: WriteBatch): Graph {
    Graph(base.nodes + NodesById(b.nodesUpserted), base.edges + EdgesById(b.edgesUpserted))
  }

  /** A view shows the latest value of every id, except of those deleted. */
  ghost predicate ShowsLatest(latest: Graph, v: Graph, deletedNodes: set<NodeId>, deletedEdges: set<EdgeId>) {
    && (forall k | k in v.nodes :: k in latest.nodes && latest.nodes[k] == v.nodes[k])
    && (forall k | k in v.edges :: k in latest.edges && latest.edges[k] == v.edges[k])
    && (forall k | k in latest.nodes && k !in v.nodes :: k in deletedNodes)
    && (forall k | k in latest.edges && k !in v.edges ::
          k in deletedEdges || Touches(latest.edges[k], deletedNodes))
  }

  ghost predicate Joined(v: Graph) {
    forall k | k in v.edges :: v.edges[k].source in v.nodes && v.edges[k].target in v.nodes
  }

  ghost predicate TouchesRecorded(s: Session) {
    && BatchNodeIds(s.staged) == s.touchedNodes
    && BatchEdgeIds(s.staged) <= s.touchedEdges
    && s.nodeOverrides.Keys <= s.touchedNodes
    && s.edgeOverrides.Keys <= s.touchedEdges
  }

  /** Every touched edge is named by the staged batch, or falls with a node it deletes. */
  ghost predicate TouchesExplained(base: Graph, s: Session) {
    forall k | k in s.touchedEdges ::
      k in BatchEdgeIds(s.staged) || (k in base.edges && Touches(base.edges[k], SetOf(s.staged.deletedNodeIds)))
  }

  /** Every edge of the start graph at a node that the staged batch deletes is touched. */
  ghost predicate CascadeRecorded(base: Graph, s: Session) {
    forall k | k in base.edges && Touches(base.edges[k], SetOf(s.staged.deletedNodeIds)) :: k in s.touchedEdges
  }

  ghost predicate ViewInv(base: Graph, b: WriteBatch, v: Graph) {
    ShowsLatest(Latest(base, b), v, SetOf(b.deletedNodeIds), SetOf(b.deletedEdgeIds)) && Joined(v)
  }

  ghost predicate SessionInv(base: Graph, s: Session) {
    && ViewInv(base, s.staged, View(base, s))
    && EndpointsExist(base.nodes, s.staged)
    && TouchesRecorded(s) && TouchesExplained(base, s) && CascadeRecorded(base, s)
  }

  lemma FreshSessionInv(base: Graph, revision: nat)
    requires Joined(base)
    ensures SessionInv(base, FreshSession(revision))
    ensures View(base, FreshSession(revision)) == base
  {
    var s := FreshSession(revision);
    assert View(base, s).nodes == base.nodes && View(base, s).edges == base.edges;
  }

  lemma NodesByIdSnoc(a: seq<NodeRecord>, n: NodeRecord)
    ensures NodesById(a + [n]) == NodesById(a)[n.id := n]
  {
    assert (a + [n])[..|a|] == a;
  }

  lemma EdgesByIdSnoc(a: seq<EdgeRecord>, e: EdgeRecord)
    ensures EdgesById(a + [e]) == EdgesById(a)[e.id := e]
  {
    assert (a + [e])[..|a|] == a;
  }

  lemma SetOfSnoc<T>(a: seq<T>, x: T)
    ensures SetOf(a + [x]) == SetOf(a) + {x}
  {
  }

  lemma AddPut<V>(base: map<string, V>, m: map<string, V>, k: string, v: V)
    ensures base + m[k := v] == (base + m)[k := v]
  {
  }

  lemma LatestAfterUpsert(base: Graph, b: WriteBatch, op: Operation)
    requires op.UpsertNode? || op.UpsertEdge?
    ensures Latest(base, Merge(b, BatchFor(op))) == Shown(Latest(base, b), op)
    ensures Merge(b, BatchFor(op)).deletedNodeIds == b.deletedNodeIds
    ensures Merge(b, BatchFor(op)).deletedEdgeIds == b.deletedEdgeIds
  {
    var m := Merge(b, BatchFor(op));
    match op
    case UpsertNode(n) =>
      NodesByIdSnoc(b.nodesUpserted, n);
      AddPut(base.nodes, NodesById(b.nodesUpserted), n.id, n);
      assert m.edgesUpserted == b.edgesUpserted;
    case UpsertEdge(e) =>
      EdgesByIdSnoc(b.edgesUpserted, e);
      AddPut(base.edges, EdgesById(b.edgesUpserted), e.id, e);
      assert m.nodesUpserted == b.nodesUpserted;
  }

  lemma LatestAfterDelete(base: Graph, b: WriteBatch, op: Operation)
    requires op.DeleteNode? || op.DeleteEdge?
    ensures Latest(base, Merge(b, BatchFor(op))) == Latest(base, b)
    ensures op.DeleteNode? ==> Merge(b, BatchFor(op)).deletedNodeIds == b.deletedNodeIds + [op.nodeId]
    ensures op.DeleteNode? ==> Merge(b, BatchFor(op)).deletedEdgeIds == b.deletedEdgeIds
    ensures op.DeleteEdge? ==> Merge(b, BatchFor(op)).deletedEdgeIds == b.deletedEdgeIds + [op.edgeId]
    ensures op.DeleteEdge? ==> Merge(b, BatchFor(op)).deletedNodeIds == b.deletedNodeIds
  {
    var m := Merge(b, BatchFor(op));
    assert m.nodesUpserted == b.nodesUpserted && m.edgesUpserted == b.edgesUpserted;
  }

  lemma DeleteNodeKeepsShows(latest: Graph, v: Graph, dn: set<NodeId>, de: set<EdgeId>, k: NodeId)
    requires ShowsLatest(latest, v, dn, de) && Joined(v)
    ensures ShowsLatest(latest, Shown(v, DeleteNode(k)), dn + {k}, de)
    ensures Joined(Shown(v, DeleteNode(k)))
  {
    var v' := Shown(v, DeleteNode(k));
    forall e | e in latest.edges && e !in v'.edges
      ensures e in de || Touches(latest.edges[e], dn + {k})
    {
      assert e in v.edges ==> Touches(v.edges[e], {k});
    }
  }

  lemma UpsertKeepsShows(latest: Graph, v: Graph, dn: set<NodeId>, de: set<EdgeId>, op: Operation)
    requires ShowsLatest(latest, v, dn, de) && Joined(v)
    requires op.UpsertNode? || (op.UpsertEdge? && op.edge.source in v.nodes && op.edge.target in v.nodes)
    ensures ShowsLatest(Shown(latest, op), Shown(v, op), dn, de)
    ensures Joined(Shown(v, op))
  {
  }

  lemma DeleteEdgeKeepsShows(latest: Graph, v: Graph, dn: set<NodeId>, de: set<EdgeId>, k: EdgeId)
    requires ShowsLatest(latest, v, dn, de) && Joined(v)
    ensures ShowsLatest(latest, Shown(v, DeleteEdge(k)), dn, de + {k})
    ensures Joined(Shown(v, DeleteEdge(k)))
  {
  }

  lemma StageKeepsView(base: Graph, b: WriteBatch, v: Graph, op: Operation)
    requires ViewInv(base, b, v)
    requires op.UpsertEdge? ==> op.edge.source in v.nodes && op.edge.target in v.nodes
    ensures ViewInv(base, Merge(b, BatchFor(op)), Shown(v, op))
  {
    var latest, dn, de := Latest(base, b), SetOf(b.deletedNodeIds), SetOf(b.deletedEdgeIds);
    match op
    case UpsertNode(_) =>
      LatestAfterUpsert(base, b, op);
      UpsertKeepsShows(latest, v, dn, de, op);
    case UpsertEdge(_) =>
      LatestAfterUpsert(base, b, op);
      UpsertKeepsShows(latest, v, dn, de, op);
    case DeleteNode(k) =>
      LatestAfterDelete(base, b, op);
      SetOfSnoc(b.deletedNodeIds, k);
      DeleteNodeKeepsShows(latest, v, dn, de, k);
    case DeleteEdge(k) =>
      LatestAfterDelete(base, b, op);
      SetOfSnoc(b.deletedEdgeIds, k);
      DeleteEdgeKeepsShows(latest, v, dn, de, k);
  }

  lemma StageKeepsEndpoints(base: Graph, b: WriteBatch, v: Graph, op: Operation)
    requires ViewInv(base, b, v) && EndpointsExist(base.nodes, b)
    requires op.UpsertEdge? ==> op.edge.source in v.nodes && op.edge.target in v.nodes
    ensures EndpointsExist(base.nodes, Merge(b, BatchFor(op)))
  {
    if op.UpsertNode? || op.UpsertEdge? {
      LatestAfterUpsert(base, b, op);
    } else {
      LatestAfterDelete(base, b, op);
    }
    var m := Merge(b, BatchFor(op));
    assert Latest(base, b).nodes.Keys <= Latest(base, m).nodes.Keys;
    forall e | e in m.edgesUpserted
      ensures e.source in Latest(base, m).nodes && e.target in Latest(base, m).nodes
    {
      assert e in b.edgesUpserted || (op.UpsertEdge? && e == op.edge);
    }
  }

  lemma DeletedIdsAre(b: WriteBatch, op: Operation)
    ensures SetOf(Merge(b, BatchFor(op)).deletedNodeIds) ==
            SetOf(b.deletedNodeIds) + if op.DeleteNode? then {op.nodeId} else {}
  {
    if op.DeleteNode? {
      SetOfSnoc(b.deletedNodeIds, op.nodeId);
    } else {
      assert b.deletedNodeIds + [] == b.deletedNodeIds;
    }
  }

  lemma MergedNodeIds(b: WriteBatch, op: Operation)
    ensures BatchNodeIds(Merge(b, BatchFor(op))) == BatchNodeIds(b) + BatchNodeIds(BatchFor(op))
  {
    DeletedIdsAre(b, op);
    DeletedIdsAre(EMPTY_BATCH, op);
    match op
    case UpsertNode(n) =>
      NodesByIdSnoc(b.nodesUpserted, n);
      NodesByIdSnoc([], n);
    case _ =>
      assert b.nodesUpserted + [] == b.nodesUpserted;
  }

  lemma MergedEdgeIds(b: WriteBatch, op: Operation)
    ensures BatchEdgeIds(Merge(b, BatchFor(op))) == BatchEdgeIds(b) + BatchEdgeIds(BatchFor(op))
  {
    match op
    case UpsertEdge(e) =>
      EdgesByIdSnoc(b.edgesUpserted, e);
      EdgesByIdSnoc([], e);
      assert b.deletedEdgeIds + [] == b.deletedEdgeIds;
    case _ =>
      assert b.edgesUpserted + [] == b.edgesUpserted;
  }

  lemma StageRecordsTouches(base: Graph, s: Session, op: Operation)
    requires TouchesRecorded(s) && Stage(base, s, op).Ok?
    ensures TouchesRecorded(Stage(base, s, op).value)
  {
    MergedNodeIds(s.staged, op);
    MergedEdgeIds(s.staged, op);
    match op
    case UpsertNode(n) => NodesByIdSnoc([], n);
    case UpsertEdge(e) => EdgesByIdSnoc([], e);
    case DeleteNode(k) =>
    case DeleteEdge(k) =>
  }

  lemma DeletedIdsGrow(b: WriteBatch, op: Operation)
    ensures SetOf(b.deletedNodeIds) <= SetOf(Merge(b, BatchFor(op)).deletedNodeIds)
    ensures op.DeleteNode? ==> op.nodeId in SetOf(Merge(b, BatchFor(op)).deletedNodeIds)
  {
  }

  lemma CascadeExplained(base: Graph, s: Session, n: NodeId, k: EdgeId)
    requires ViewInv(base, s.staged, View(base, s)) && k in Incident(View(base, s).edges, {n})
    ensures k in BatchEdgeIds(s.staged) || (k in base.edges && Touches(base.edges[k], {n}))
  {
  }

  lemma OldTouchExplained(base: Graph, s: Session, op: Operation, k: EdgeId)
    requires TouchesExplained(base, s) && k in s.touchedEdges
    ensures var b := Merge(s.staged, BatchFor(op));
            k in BatchEdgeIds(b) || (k in base.edges && Touches(base.edges[k], SetOf(b.deletedNodeIds)))
  {
    MergedEdgeIds(s.staged, op);
    DeletedIdsGrow(s.staged, op);
  }

  lemma NewTouchExplained(base: Graph, s: Session, op: Operation, k: EdgeId)
    requires ViewInv(base, s.staged, View(base, s)) && Stage(base, s, op).Ok?
    requires k in Stage(base, s, op).value.touchedEdges && k !in s.touchedEdges
    ensures var b := Merge(s.staged, BatchFor(op));
            k in BatchEdgeIds(b) || (k in base.edges && Touches(base.edges[k], SetOf(b.deletedNodeIds)))
  {
    MergedEdgeIds(s.staged, op);
    DeletedIdsGrow(s.staged, op);
    if k !in BatchEdgeIds(BatchFor(op)) {
      CascadeExplained(base, s, op.nodeId, k);
    }
  }

  lemma StageExplainsTouches(base: Graph, s: Session, op: Operation)
    requires TouchesExplained(base, s) && ViewInv(base, s.staged, View(base, s)) && Stage(base, s, op).Ok?
    ensures TouchesExplained(base, Stage(base, s, op).value)
  {
    var s' := Stage(base, s, op).value;
    assert s'.staged == Merge(s.staged, BatchFor(op));
    forall k | k in s'.touchedEdges
      ensures k in BatchEdgeIds(s'.staged) ||
              (k in base.edges && Touches(base.edges[k], SetOf(s'.staged.deletedNodeIds)))
    {
      if k in s.touchedEdges {
        OldTouchExplained(base, s, op, k);
      } else {
        NewTouchExplained(base, s, op, k);
      }
    }
  }

  lemma StageRecordsCascade(base: Graph, s: Session, op: Operation)
    requires CascadeRecorded(base, s) && s.edgeOverrides.Keys <= s.touchedEdges && Stage(base, s, op).Ok?
    ensures CascadeRecorded(base, Stage(base, s, op).value)
  {
    var s' := Stage(base, s, op).value;
    DeletedIdsAre(s.staged, op);
    forall k | k in base.edges && Touches(base.edges[k], SetOf(s'.staged.deletedNodeIds)) ensures k in s'.touchedEdges {
      if !Touches(base.edges[k], SetOf(s.staged.deletedNodeIds)) {
        OverlaidAt(base.edges, s.edgeOverrides, k);
        assert k in s.touchedEdges || k in Incident(View(base, s).edges, {op.nodeId});
      }
    }
  }

  /** Every staged operation that is not refused keeps the session consistent. */
  lemma StageKeepsSession(base: Graph, s: Session, op: Operation)
    requires SessionInv(base, s) && Stage(base, s, op).Ok?
    ensures SessionInv(base, Stage(base, s, op).value)
  {
    StageShows(base, s, op);
    StageKeepsView(base, s.staged, View(base, s), op);
    StageKeepsEndpoints(base, s.staged, View(base, s), op);
    StageRecordsTouches(base, s, op);
    StageExplainsTouches(base, s, op);
    StageRecordsCascade(base, s, op);
  }

  // ---------------------------------------------------------------- what a commit applies

  /** No id that the session deleted explicitly is visible in its view. */
  predicate NothingRevived(base: Graph, s: Session) {
    && (forall k | k in s.staged.deletedNodeIds :: k !in View(base, s).nodes)
    && (forall k | k in s.staged.deletedEdgeIds :: k !in View(base, s).edges)
  }

  lemma AppliedNodesAsShown(base: Graph, s: Session, k: NodeId)
    requires SessionInv(base, s) && NothingRevived(base, s)
    ensures Get(Apply(base, s.staged).nodes, k) == Get(View(base, s).nodes, k)
  {
    NodesAfterAt(base.nodes, s.staged, k);
  }

  lemma AppliedEdgesAsShown(base: Graph, s: Session, k: EdgeId)
    requires SessionInv(base, s) && NothingRevived(base, s)
    ensures Get(Apply(base, s.staged).edges, k) == Get(View(base, s).edges, k)
  {
    EdgesAfterAt(base.edges, s.staged, k);
    var v := View(base, s);
    assert k in v.edges ==> v.edges[k].source in v.nodes && v.edges[k].target in v.nodes;
  }

  /** A session commits what it showed exactly when it shows nothing it also deleted:
      the merged batch forgets that an upsert followed a delete of the same id. */
  lemma CommitsWhatItShowed(base: Graph, s: Session)
    requires SessionInv(base, s)
    ensures Apply(base, s.staged) == View(base, s) <==> NothingRevived(base, s)
  {
    if NothingRevived(base, s) {
      var a, v := Apply(base, s.staged), View(base, s);
      forall k ensures Get(a.nodes, k) == Get(v.nodes, k) && Get(a.edges, k) == Get(v.edges, k) {
        AppliedNodesAsShown(base, s, k);
        AppliedEdgesAsShown(base, s, k);
      }
      SameByGet(a.nodes, v.nodes);
      SameByGet(a.edges, v.edges);
    }
  }

  /** Deleting a node and upserting it again shows the node, but commits its deletion. */
  lemma RevivedNodeIsLost(n: NodeRecord)
    ensures var s0 := FreshSession(0);
            var s1 := Stage(EMPTY_GRAPH, s0, DeleteNode(n.id));
            s1.Ok? &&
            var s2 := Stage(EMPTY_GRAPH, s1.value, UpsertNode(n));
            s2.Ok? &&
            n.id in View(EMPTY_GRAPH, s2.value).nodes &&
            n.id !in Apply(EMPTY_GRAPH, s2.value.staged).nodes
  {
    var s2 := Stage(EMPTY_GRAPH, Stage(EMPTY_GRAPH, FreshSession(0), DeleteNode(n.id)).value, UpsertNode(n)).value;
    assert s2.staged.deletedNodeIds == [n.id];
    NodesAfterAt(map[], s2.staged, n.id);
    OverlaidAt(map[], s2.nodeOverrides, n.id);
  }
}
