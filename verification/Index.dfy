/** The graph index (crates/index, `GraphIndex` with the exact vector index). */
module Index {
  import opened Core
  import opened Versions
  import opened Buckets

  const I64_MAX := 0x7FFF_FFFF_FFFF_FFFF
  const I64_MIN := -0x8000_0000_0000_0000

  /** A float cast to `i64`: rounded toward zero, then held within range. */
  function ToI64(f: real): int {
    var i := if f >= 0.0 then f.Floor else -((-f).Floor);
    if i > I64_MAX then I64_MAX else if i < I64_MIN then I64_MIN else i
  }

  function Timestamp(n: NodeRecord): Option<int> {
    if "timestamp" !in n.properties then None
    else match n.properties["timestamp"]
      case Integer(i) => Some(i)
      case Float(f) => Some(ToI64(f))
      case _ => None
  }

  /** The cast keeps what lies within range and drops the fraction; beyond the range it stops at
      its ends. */
  lemma ToI64Truncates(f: real)
    ensures -0x8000_0000_0000_0000 <= ToI64(f) <= 0x7FFF_FFFF_FFFF_FFFF
    ensures 0.0 <= f < 9223372036854775808.0 ==> ToI64(f) as real <= f < ToI64(f) as real + 1.0
    ensures -9223372036854775809.0 < f <= 0.0 ==> ToI64(f) as real - 1.0 < f <= ToI64(f) as real
    ensures f >= 9223372036854775807.0 ==> ToI64(f) == 0x7FFF_FFFF_FFFF_FFFF
    ensures f <= -9223372036854775808.0 ==> ToI64(f) == -0x8000_0000_0000_0000
  {
  }

  function UniqueKey(n: NodeRecord): Option<string> {
    if "unique_key" !in n.properties then None
    else match n.properties["unique_key"]
      case StringValue(s) => Some(s)
      case _ => None
  }

  datatype IndexValue = IndexValue(
    nodeIds: set<NodeId>,
    uniqueKeys: map<string, NodeId>,
    adjacency: Buckets<NodeId>,
    reverseAdjacency: Buckets<NodeId>,
    labels: Buckets<string>,
    temporal: Buckets<int>,
    vectors: Buckets<string>)

  const EMPTY_INDEX := IndexValue({}, map[], map[], map[], map[], map[], map[])

  // ---------------------------------------------------------------- single updates

  /** The loop of `ExactVectorIndex::upsert_node` over the existing buckets. */
  function VectorsRetained(m: Buckets<string>, n: NodeRecord): Buckets<string> {
    map name | name in m && (name in n.vectors || Without(m[name], n.id) != []) ::
      if name in n.vectors then PushUnique(m[name], n.id) else Without(m[name], n.id)
  }

  /** The loop of `ExactVectorIndex::upsert_node` over the vectors of the node. */
  function PushNames(m: Buckets<string>, names: set<string>, x: NodeId): Buckets<string> {
    map name | name in m.Keys + names :: if name in names then PushUnique(Bucket(m, name), x) else m[name]
  }

  function VectorsUpserted(m: Buckets<string>, n: NodeRecord): Buckets<string> {
    PushNames(VectorsRetained(m, n), n.vectors.Keys, n.id)
  }

  function NodeUpserted(ix: IndexValue, n: NodeRecord): IndexValue {
    ix.(nodeIds := ix.nodeIds + {n.id},
    labels := PushBucket(ix.labels, n.nodeType, n.id),
    temporal := match Timestamp(n) case Some(t) => PushBucket(ix.temporal, t, n.id) case None => ix.temporal,
    vectors := VectorsUpserted(ix.vectors, n),
    uniqueKeys := match UniqueKey(n) case Some(k) => ix.uniqueKeys[k := n.id] case None => ix.uniqueKeys)
  }

  function NodeDeleted(ix: IndexValue, n: NodeRecord): IndexValue {
    ix.(nodeIds := ix.nodeIds - {n.id},
    labels := RemoveFromBucket(ix.labels, n.nodeType, n.id),
    temporal := match Timestamp(n) case Some(t) => RemoveFromBucket(ix.temporal, t, n.id) case None => ix.temporal,
    vectors := RemoveEverywhere(ix.vectors, n.id),
    uniqueKeys := match UniqueKey(n)
      case Some(k) => if Get(ix.uniqueKeys, k) == Some(n.id) then ix.uniqueKeys - {k} else ix.uniqueKeys
      case None => ix.uniqueKeys)
  }

  function EdgeUpserted(ix: IndexValue, e: EdgeRecord): IndexValue {
    ix.(adjacency := PushBucket(ix.adjacency, e.source, e.id),
    reverseAdjacency := PushBucket(ix.reverseAdjacency, e.target, e.id))
  }

  function EdgeDeleted(ix: IndexValue, e: EdgeRecord): IndexValue {
    ix.(adjacency := RemoveFromBucket(ix.adjacency, e.source, e.id),
    reverseAdjacency := RemoveFromBucket(ix.reverseAdjacency, e.target, e.id))
  }

  // ---------------------------------------------------------------- agreement

  function Optional<T>(o: Option<T>): set<T> {
    match o case Some(x) => {x} case None => {}
  }

  function TypesOf(nodes: map<NodeId, NodeRecord>): map<NodeId, set<string>> {
    map n | n in nodes :: {nodes[n].nodeType}
  }

  function TimesOf(nodes: map<NodeId, NodeRecord>): map<NodeId, set<int>> {
    map n | n in nodes :: Optional(Timestamp(nodes[n]))
  }

  function NamesOf(nodes: map<NodeId, NodeRecord>): map<NodeId, set<string>> {
    map n | n in nodes :: nodes[n].vectors.Keys
  }

  function SourcesOf(edges: map<EdgeId, EdgeRecord>): map<EdgeId, set<NodeId>> {
    map k | k in edges :: {edges[k].source}
  }

  function TargetsOf(edges: map<EdgeId, EdgeRecord>): map<EdgeId, set<NodeId>> {
    map k | k in edges :: {edges[k].target}
  }

  /** Every unique-key entry names a stored node that bears the key. */
  ghost predicate KeysSound(keys: map<string, NodeId>, nodes: map<NodeId, NodeRecord>) {
    forall k | k in keys :: keys[k] in nodes && UniqueKey(nodes[keys[k]]) == Some(k)
  }

  /** Every stored node is found by its unique key. */
  ghost predicate KeysComplete(keys: map<string, NodeId>, nodes: map<NodeId, NodeRecord>) {
    forall n | n in nodes && UniqueKey(nodes[n]).Some? :: Get(keys, UniqueKey(nodes[n]).value) == Some(n)
  }

  /** No two stored nodes bear the same unique key. */
  ghost predicate KeysUnique(nodes: map<NodeId, NodeRecord>) {
    forall m, n | m in nodes && n in nodes && UniqueKey(nodes[m]).Some? && UniqueKey(nodes[m]) == UniqueKey(nodes[n]) ::
      m == n
  }

  ghost predicate NodesAgree(ix: IndexValue, nodes: map<NodeId, NodeRecord>) {
    && ix.nodeIds == nodes.Keys
    && Files(ix.labels, TypesOf(nodes))
    && Files(ix.temporal, TimesOf(nodes))
    && Files(ix.vectors, NamesOf(nodes))
    && KeysSound(ix.uniqueKeys, nodes)
  }

  ghost predicate EdgesAgree(ix: IndexValue, edges: map<EdgeId, EdgeRecord>) {
    Files(ix.adjacency, SourcesOf(edges)) && Files(ix.reverseAdjacency, TargetsOf(edges))
  }

  /** The index files exactly the records of the graph, without empty buckets or repeats. */
  ghost predicate Agrees(ix: IndexValue, g: Graph) {
    NodesAgree(ix, g.nodes) && EdgesAgree(ix, g.edges)
  }

  // ---------------------------------------------------------------- single updates keep agreement

  lemma AlreadyUnique(s: seq<string>, x: string)
    ensures PushUnique(PushUnique(s, x), x) == PushUnique(s, x)
  {
  }

  lemma VectorsUpsertedAt(m: Buckets<string>, n: NodeRecord, k: string)
    ensures Get(VectorsUpserted(m, n), k) ==
            if k in n.vectors then Some(PushUnique(Bucket(m, k), n.id))
            else if k in m && Without(m[k], n.id) != [] then Some(Without(m[k], n.id)) else None
  {
    AlreadyUnique(Bucket(m, k), n.id);
  }

  lemma VectorsUpsertedHolds(m: Buckets<string>, n: NodeRecord)
    requires Tidy(m)
    ensures Tidy(VectorsUpserted(m, n))
    ensures forall k, y :: Holds(VectorsUpserted(m, n), k, y) <==> if y == n.id then k in n.vectors else Holds(m, k, y)
  {
    forall k
      ensures k in VectorsUpserted(m, n) ==> VectorsUpserted(m, n)[k] != [] && NoDup(VectorsUpserted(m, n)[k])
      ensures forall y :: Holds(VectorsUpserted(m, n), k, y) <==> if y == n.id then k in n.vectors else Holds(m, k, y)
    {
      VectorsUpsertedAt(m, n, k);
      PushNoDup(Bucket(m, k), n.id);
      WithoutExact(Bucket(m, k), n.id);
    }
  }

  lemma TimeInserted(m: Buckets<int>, nodes: map<NodeId, NodeRecord>, n: NodeRecord)
    requires Files(m, TimesOf(nodes)) && n.id !in nodes
    ensures Files(match Timestamp(n) case Some(t) => PushBucket(m, t, n.id) case None => m, TimesOf(nodes[n.id := n]))
  {
    assert TimesOf(nodes[n.id := n]) == TimesOf(nodes)[n.id := Optional(Timestamp(n))];
    match Timestamp(n)
    case Some(t) => FilesPush(m, TimesOf(nodes), t, n.id);
    case None => FilesNothing(m, TimesOf(nodes), n.id);
  }

  lemma TimeRemoved(m: Buckets<int>, nodes: map<NodeId, NodeRecord>, n: NodeRecord)
    requires Files(m, TimesOf(nodes)) && Get(nodes, n.id) == Some(n)
    ensures Files(match Timestamp(n) case Some(t) => RemoveFromBucket(m, t, n.id) case None => m,
                  TimesOf(nodes - {n.id}))
  {
    assert TimesOf(nodes - {n.id}) == TimesOf(nodes) - {n.id};
    match Timestamp(n)
    case Some(t) => FilesRemove(m, TimesOf(nodes), t, n.id);
    case None => FilesNothing(m, TimesOf(nodes), n.id);
  }

  lemma TypeInserted(m: Buckets<string>, nodes: map<NodeId, NodeRecord>, n: NodeRecord)
    requires Files(m, TypesOf(nodes)) && n.id !in nodes
    ensures Files(PushBucket(m, n.nodeType, n.id), TypesOf(nodes[n.id := n]))
  {
    assert TypesOf(nodes[n.id := n]) == TypesOf(nodes)[n.id := {n.nodeType}];
    FilesPush(m, TypesOf(nodes), n.nodeType, n.id);
  }

  lemma TypeRemoved(m: Buckets<string>, nodes: map<NodeId, NodeRecord>, n: NodeRecord)
    requires Files(m, TypesOf(nodes)) && Get(nodes, n.id) == Some(n)
    ensures Files(RemoveFromBucket(m, n.nodeType, n.id), TypesOf(nodes - {n.id}))
  {
    assert TypesOf(nodes - {n.id}) == TypesOf(nodes) - {n.id};
    FilesRemove(m, TypesOf(nodes), n.nodeType, n.id);
  }

  lemma VectorsInserted(m: Buckets<string>, nodes: map<NodeId, NodeRecord>, n: NodeRecord)
    requires Files(m, NamesOf(nodes)) && n.id !in nodes
    ensures Files(VectorsUpserted(m, n), NamesOf(nodes[n.id := n]))
  {
    assert NamesOf(nodes[n.id := n]) == NamesOf(nodes)[n.id := n.vectors.Keys];
    VectorsUpsertedHolds(m, n);
    FilesMore(m, NamesOf(nodes), VectorsUpserted(m, n), n.id, n.vectors.Keys);
  }

  lemma VectorsRemoved(m: Buckets<string>, nodes: map<NodeId, NodeRecord>, x: NodeId)
    requires Files(m, NamesOf(nodes))
    ensures Files(RemoveEverywhere(m, x), NamesOf(nodes - {x}))
  {
    assert NamesOf(nodes - {x}) == NamesOf(nodes) - {x};
    FilesRemoveEverywhere(m, NamesOf(nodes), x);
  }

  lemma SourceInserted(m: Buckets<NodeId>, edges: map<EdgeId, EdgeRecord>, e: EdgeRecord)
    requires Files(m, SourcesOf(edges)) && e.id !in edges
    ensures Files(PushBucket(m, e.source, e.id), SourcesOf(edges[e.id := e]))
  {
    assert SourcesOf(edges[e.id := e]) == SourcesOf(edges)[e.id := {e.source}];
    FilesPush(m, SourcesOf(edges), e.source, e.id);
  }

  lemma SourceRemoved(m: Buckets<NodeId>, edges: map<EdgeId, EdgeRecord>, e: EdgeRecord)
    requires Files(m, SourcesOf(edges)) && Get(edges, e.id) == Some(e)
    ensures Files(RemoveFromBucket(m, e.source, e.id), SourcesOf(edges - {e.id}))
  {
    assert SourcesOf(edges - {e.id}) == SourcesOf(edges) - {e.id};
    FilesRemove(m, SourcesOf(edges), e.source, e.id);
  }

  lemma TargetInserted(m: Buckets<NodeId>, edges: map<EdgeId, EdgeRecord>, e: EdgeRecord)
    requires Files(m, TargetsOf(edges)) && e.id !in edges
    ensures Files(PushBucket(m, e.target, e.id), TargetsOf(edges[e.id := e]))
  {
    assert TargetsOf(edges[e.id := e]) == TargetsOf(edges)[e.id := {e.target}];
    FilesPush(m, TargetsOf(edges), e.target, e.id);
  }

  lemma TargetRemoved(m: Buckets<NodeId>, edges: map<EdgeId, EdgeRecord>, e: EdgeRecord)
    requires Files(m, TargetsOf(edges)) && Get(edges, e.id) == Some(e)
    ensures Files(RemoveFromBucket(m, e.target, e.id), TargetsOf(edges - {e.id}))
  {
    assert TargetsOf(edges - {e.id}) == TargetsOf(edges) - {e.id};
    FilesRemove(m, TargetsOf(edges), e.target, e.id);
  }

  lemma KeysSoundInserted(keys: map<string, NodeId>, nodes: map<NodeId, NodeRecord>, n: NodeRecord)
    requires KeysSound(keys, nodes) && n.id !in nodes
    ensures KeysSound(match UniqueKey(n) case Some(k) => keys[k := n.id] case None => keys, nodes[n.id := n])
  {
  }

  lemma NodeInserted(ix: IndexValue, nodes: map<NodeId, NodeRecord>, n: NodeRecord)
    requires NodesAgree(ix, nodes) && n.id !in nodes
    ensures NodesAgree(NodeUpserted(ix, n), nodes[n.id := n])
  {
    TypeInserted(ix.labels, nodes, n);
    TimeInserted(ix.temporal, nodes, n);
    VectorsInserted(ix.vectors, nodes, n);
    KeysSoundInserted(ix.uniqueKeys, nodes, n);
  }

  lemma NodeRemoved(ix: IndexValue, nodes: map<NodeId, NodeRecord>, n: NodeRecord)
    requires NodesAgree(ix, nodes) && Get(nodes, n.id) == Some(n)
    ensures NodesAgree(NodeDeleted(ix, n), nodes - {n.id})
  {
    TypeRemoved(ix.labels, nodes, n);
    TimeRemoved(ix.temporal, nodes, n);
    VectorsRemoved(ix.vectors, nodes, n.id);
  }

  lemma EdgeInserted(ix: IndexValue, edges: map<EdgeId, EdgeRecord>, e: EdgeRecord)
    requires EdgesAgree(ix, edges) && e.id !in edges
    ensures EdgesAgree(EdgeUpserted(ix, e), edges[e.id := e])
  {
    SourceInserted(ix.adjacency, edges, e);
    TargetInserted(ix.reverseAdjacency, edges, e);
  }

  lemma EdgeRemoved(ix: IndexValue, edges: map<EdgeId, EdgeRecord>, e: EdgeRecord)
    requires EdgesAgree(ix, edges) && Get(edges, e.id) == Some(e)
    ensures EdgesAgree(EdgeDeleted(ix, e), edges - {e.id})
  {
    SourceRemoved(ix.adjacency, edges, e);
    TargetRemoved(ix.reverseAdjacency, edges, e);
  }

  lemma KeysInserted(ix: IndexValue, nodes: map<NodeId, NodeRecord>, n: NodeRecord)
    requires KeysComplete(ix.uniqueKeys, nodes) && n.id !in nodes && KeysUnique(nodes[n.id := n])
    ensures KeysComplete(NodeUpserted(ix, n).uniqueKeys, nodes[n.id := n])
  {
    var more := nodes[n.id := n];
    forall m | m in more && UniqueKey(more[m]).Some?
      ensures Get(NodeUpserted(ix, n).uniqueKeys, UniqueKey(more[m]).value) == Some(m)
    {
      if m != n.id {
        assert UniqueKey(more[m]) != UniqueKey(more[n.id]);
      }
    }
  }

  lemma KeysRemoved(ix: IndexValue, nodes: map<NodeId, NodeRecord>, n: NodeRecord)
    requires KeysComplete(ix.uniqueKeys, nodes) && Get(nodes, n.id) == Some(n)
    ensures KeysComplete(NodeDeleted(ix, n).uniqueKeys, nodes - {n.id})
  {
  }

  /** Agreement fixes the index up to the order inside its buckets. */
  ghost predicate SameEntries(a: IndexValue, b: IndexValue) {
    && a.nodeIds == b.nodeIds
    && SameBuckets(a.adjacency, b.adjacency) && SameBuckets(a.reverseAdjacency, b.reverseAdjacency)
    && SameBuckets(a.labels, b.labels) && SameBuckets(a.temporal, b.temporal) && SameBuckets(a.vectors, b.vectors)
  }

  ghost predicate SameBuckets<K(!new)>(a: Buckets<K>, b: Buckets<K>) {
    a.Keys == b.Keys && forall k | k in a :: SetOf(a[k]) == SetOf(b[k]) && |a[k]| == |b[k]| == |SetOf(a[k])|
  }

  /** Two indexes that agree with one graph hold the same entries; with unique keys they also
      find the same node for every unique key. */
  lemma AgreementIsUnique(a: IndexValue, b: IndexValue, g: Graph)
    requires Agrees(a, g) && Agrees(b, g)
    ensures SameEntries(a, b)
    ensures KeysComplete(a.uniqueKeys, g.nodes) && KeysComplete(b.uniqueKeys, g.nodes) ==> a.uniqueKeys == b.uniqueKeys
  {
    FilesUnique(a.adjacency, b.adjacency, SourcesOf(g.edges));
    FilesUnique(a.reverseAdjacency, b.reverseAdjacency, TargetsOf(g.edges));
    FilesUnique(a.labels, b.labels, TypesOf(g.nodes));
    FilesUnique(a.temporal, b.temporal, TimesOf(g.nodes));
    FilesUnique(a.vectors, b.vectors, NamesOf(g.nodes));
    if KeysComplete(a.uniqueKeys, g.nodes) && KeysComplete(b.uniqueKeys, g.nodes) {
      SameByGet(a.uniqueKeys, b.uniqueKeys);
    }
  }
}
