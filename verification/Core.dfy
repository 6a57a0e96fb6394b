/** Records, write batches and graphs (crates/core, crates/common), with the batch
    validation and batch application rules of the storage engine (crates/storage). */
module Core {

  datatype Option<+T> = None | Some(value: T)

  datatype Error = Validation | Conflict | NotFound | Corruption

  datatype Result<+T> = Ok(value: T) | Err(error: Error)

  type NodeId = string
  type EdgeId = string

  /** Floating point values are reals: rounding plays no part in what is proved. */
  datatype PropertyValue =
    | StringValue(s: string)
    | Integer(i: int)
    | Float(f: real)
    | Boolean(b: bool)
    | StringList(ss: seq<string>)
    | FloatList(fs: seq<real>)
  {
    predicate Numeric() {
      Integer? || Float?
    }
  }

  datatype NodeRecord = NodeRecord(
    id: NodeId,
    nodeType: string,
    properties: map<string, PropertyValue>,
    vectors: map<string, seq<real>>)

  datatype EdgeRecord = EdgeRecord(
    id: EdgeId,
    source: NodeId,
    target: NodeId,
    edgeType: string,
    properties: map<string, PropertyValue>)

  datatype WriteBatch = WriteBatch(
    nodesUpserted: seq<NodeRecord>,
    edgesUpserted: seq<EdgeRecord>,
    deletedNodeIds: seq<NodeId>,
    deletedEdgeIds: seq<EdgeId>)
  {
    predicate IsEmpty() {
      nodesUpserted == [] && edgesUpserted == [] && deletedNodeIds == [] && deletedEdgeIds == []
    }
  }

  const EMPTY_BATCH := WriteBatch([], [], [], [])

  datatype Graph = Graph(nodes: map<NodeId, NodeRecord>, edges: map<EdgeId, EdgeRecord>)

  const EMPTY_GRAPH := Graph(map[], map[])

  function Get<K, V>(m: map<K, V>, k: K): Option<V> {
    if k in m then Some(m[k]) else None
  }

  lemma SameByGet<K, V>(a: map<K, V>, b: map<K, V>)
    requires forall k | k in a || k in b :: Get(a, k) == Get(b, k)
    ensures a == b
  {
    assert forall k | k in a || k in b :: k in a && k in b && a[k] == b[k];
  }

  // ---------------------------------------------------------------- validation

  /** The part of an identifier before its first ':', if it has one. */
  function Namespace(id: string): Option<string> {
    if id == "" then None
    else if id[0] == ':' then Some("")
    else match Namespace(id[1..])
      case None => None
      case Some(rest) => Some([id[0]] + rest)
  }

  predicate NumericIfPresent(properties: map<string, PropertyValue>, key: string) {
    key in properties ==> properties[key].Numeric()
  }

  predicate NodeNormal(n: NodeRecord) {
    && "embedding" !in n.properties
    && NumericIfPresent(n.properties, "timestamp")
    && NumericIfPresent(n.properties, "importance")
    && NumericIfPresent(n.properties, "confidence")
  }

  predicate OneNamespace(e: EdgeRecord) {
    Namespace(e.source) == Namespace(e.target)
  }

  /** What `normalize_write_batch` demands of a batch on its own. */
  predicate BatchNormal(b: WriteBatch) {
    && (forall n | n in b.nodesUpserted :: NodeNormal(n))
    && (forall e | e in b.edgesUpserted :: OneNamespace(e))
  }

  /** What `validate_batch_against_maps` demands of a batch and the stored nodes. */
  predicate EndpointsExist(nodes: map<NodeId, NodeRecord>, b: WriteBatch) {
    var upserted := NodesById(b.nodesUpserted);
    forall e | e in b.edgesUpserted ::
      && (e.source in nodes || e.source in upserted)
      && (e.target in nodes || e.target in upserted)
  }

  /** The namespace of an id is what stands before its first ':'. */
  lemma {:induction false} NamespaceIs(id: string, p: string)
    ensures Namespace(id) == Some(p) <==> |p| < |id| && id[..|p|] == p && id[|p|] == ':' && ':' !in p
    ensures Namespace(id) == None <==> ':' !in id
  {
    if id != "" && id[0] != ':' {
      if p != "" {
        NamespaceIs(id[1..], p[1..]);
        assert p == [p[0]] + p[1..];
        assert |p| <= |id| ==> id[..|p|] == [id[0]] + id[1..][..|p| - 1];
      } else {
        NamespaceIs(id[1..], p);
      }
      assert id == [id[0]] + id[1..];
    }
  }

  /** The batches that `apply_write_batch` accepts. */
  predicate Accepted(g: Graph, b: WriteBatch) {
    !b.IsEmpty() && BatchNormal(b) && EndpointsExist(g.nodes, b)
  }

  /** Which batches are accepted, by the fields of the records: not empty, no property "embedding",
      numbers where numbers are due, and edges between nodes of one namespace that are stored or
      come with the batch. */
  lemma AcceptedIff(g: Graph, b: WriteBatch)
    ensures Accepted(g, b) <==>
            && (b.nodesUpserted != [] || b.edgesUpserted != [] || b.deletedNodeIds != [] || b.deletedEdgeIds != [])
            && (forall n | n in b.nodesUpserted ::
                  && "embedding" !in n.properties
                  && forall x | x in n.properties && x in {"timestamp", "importance", "confidence"} ::
                       n.properties[x].Integer? || n.properties[x].Float?)
            && (forall e | e in b.edgesUpserted ::
                  && Namespace(e.source) == Namespace(e.target)
                  && (e.source in g.nodes || exists n :: n in b.nodesUpserted && n.id == e.source)
                  && (e.target in g.nodes || exists n :: n in b.nodesUpserted && n.id == e.target))
  {
    NodesByIdSpec(b.nodesUpserted);
    forall x ensures x in NodesById(b.nodesUpserted) <==> exists n :: n in b.nodesUpserted && n.id == x {
      if x in NodesById(b.nodesUpserted) {
        assert NodesById(b.nodesUpserted)[x].id == x;
      }
    }
    forall n | n in b.nodesUpserted ensures NodeNormal(n) <==> NormalByFields(n) {
    }
  }

  ghost predicate NormalByFields(n: NodeRecord) {
    && "embedding" !in n.properties
    && forall x | x in n.properties && x in {"timestamp", "importance", "confidence"} ::
         n.properties[x].Integer? || n.properties[x].Float?
  }

  // ---------------------------------------------------------------- batch application

  /** The records of a list by id; a later record replaces an earlier one. */
  function NodesById(s: seq<NodeRecord>): map<NodeId, NodeRecord> {
    if s == [] then map[] else NodesById(s[..|s| - 1])[s[|s| - 1].id := s[|s| - 1]]
  }

  function EdgesById(s: seq<EdgeRecord>): map<EdgeId, EdgeRecord> {
    if s == [] then map[] else EdgesById(s[..|s| - 1])[s[|s| - 1].id := s[|s| - 1]]
  }

  lemma {:induction false} NodesByIdSpec(s: seq<NodeRecord>)
    ensures forall n | n in s :: n.id in NodesById(s)
    ensures forall k | k in NodesById(s) :: NodesById(s)[k] in s && NodesById(s)[k].id == k
  {
    if s != [] {
      NodesByIdSpec(s[..|s| - 1]);
    }
  }

  lemma {:induction false} EdgesByIdSpec(s: seq<EdgeRecord>)
    ensures forall e | e in s :: e.id in EdgesById(s)
    ensures forall k | k in EdgesById(s) :: EdgesById(s)[k] in s && EdgesById(s)[k].id == k
  {
    if s != [] {
      EdgesByIdSpec(s[..|s| - 1]);
    }
  }

  /** Of the records of one id the last in the list counts. */
  lemma {:induction false} NodesByIdLast(s: seq<NodeRecord>, i: nat)
    requires i < |s| && forall j | i < j < |s| :: s[j].id != s[i].id
    ensures Get(NodesById(s), s[i].id) == Some(s[i])
  {
    if i < |s| - 1 {
      NodesByIdLast(s[..|s| - 1], i);
    }
  }

  lemma {:induction false} EdgesByIdLast(s: seq<EdgeRecord>, i: nat)
    requires i < |s| && forall j | i < j < |s| :: s[j].id != s[i].id
    ensures Get(EdgesById(s), s[i].id) == Some(s[i])
  {
    if i < |s| - 1 {
      EdgesByIdLast(s[..|s| - 1], i);
    }
  }

  function SetOf<T>(s: seq<T>): set<T> {
    set x | x in s
  }

  ghost predicate NoRepeats<T>(s: seq<T>) {
    |SetOf(s)| == |s|
  }

  lemma SubsetCount<T>(a: set<T>, b: set<T>)
    requires a <= b
    ensures |a| <= |b| && (|a| == |b| ==> a == b)
  {
    assert |b - a| == |b| - |a|;
  }

  function Smaller(a: nat, b: nat): nat {
    if a < b then a else b
  }

  predicate Touches(e: EdgeRecord, ids: set<NodeId>) {
    e.source in ids || e.target in ids
  }

  function NodesAfter(nodes: map<NodeId, NodeRecord>, b: WriteBatch): map<NodeId, NodeRecord> {
    (nodes + NodesById(b.nodesUpserted)) - SetOf(b.deletedNodeIds)
  }

  function EdgesAfter(edges: map<EdgeId, EdgeRecord>, b: WriteBatch): map<EdgeId, EdgeRecord> {
    var all := edges + EdgesById(b.edgesUpserted);
    map k | k in all && !Touches(all[k], SetOf(b.deletedNodeIds)) && k !in b.deletedEdgeIds :: all[k]
  }

  /** The graph after a batch: upserts, then node deletes with their cascade, then edge deletes. */
  function Apply(g: Graph, b: WriteBatch): Graph {
    Graph(NodesAfter(g.nodes, b), EdgesAfter(g.edges, b))
  }

  lemma NodesAfterAt(nodes: map<NodeId, NodeRecord>, b: WriteBatch, k: NodeId)
    ensures Get(NodesAfter(nodes, b), k) ==
            if k in b.deletedNodeIds then None
            else if k in NodesById(b.nodesUpserted) then Some(NodesById(b.nodesUpserted)[k])
            else Get(nodes, k)
  {
  }

  lemma EdgesAfterAt(edges: map<EdgeId, EdgeRecord>, b: WriteBatch, k: EdgeId)
    ensures Get(EdgesAfter(edges, b), k) ==
            var up := if k in EdgesById(b.edgesUpserted) then Some(EdgesById(b.edgesUpserted)[k]) else Get(edges, k);
            if up.Some? && !Touches(up.value, SetOf(b.deletedNodeIds)) && k !in b.deletedEdgeIds then up else None
  {
  }

  /** What a batch leaves of a graph, by the fields of the records. */
  lemma AppliedNode(g: Graph, b: WriteBatch, k: NodeId)
    ensures k in b.deletedNodeIds ==> k !in Apply(g, b).nodes
    ensures k !in b.deletedNodeIds && (forall n | n in b.nodesUpserted :: n.id != k) ==>
              Get(Apply(g, b).nodes, k) == Get(g.nodes, k)
    ensures k !in b.deletedNodeIds ==>
              forall i | 0 <= i < |b.nodesUpserted| && b.nodesUpserted[i].id == k &&
                         (forall j | i < j < |b.nodesUpserted| :: b.nodesUpserted[j].id != k) ::
                Get(Apply(g, b).nodes, k) == Some(b.nodesUpserted[i])
  {
    NodesByIdSpec(b.nodesUpserted);
    NodesAfterAt(g.nodes, b, k);
    forall i | 0 <= i < |b.nodesUpserted| && b.nodesUpserted[i].id == k &&
               (forall j | i < j < |b.nodesUpserted| :: b.nodesUpserted[j].id != k)
      ensures Get(NodesById(b.nodesUpserted), k) == Some(b.nodesUpserted[i])
    {
      NodesByIdLast(b.nodesUpserted, i);
    }
  }

  /** The latest version `e` of an edge stays exactly if neither it nor one of its ends is
      deleted. */
  lemma AppliedEdge(g: Graph, b: WriteBatch, e: EdgeRecord)
    requires || (Get(g.edges, e.id) == Some(e) && forall x | x in b.edgesUpserted :: x.id != e.id)
             || exists i :: LastUpsert(b.edgesUpserted, i, e)
    ensures Get(Apply(g, b).edges, e.id) ==
            if e.id in b.deletedEdgeIds || e.source in b.deletedNodeIds || e.target in b.deletedNodeIds then None
            else Some(e)
  {
    EdgesByIdSpec(b.edgesUpserted);
    EdgesAfterAt(g.edges, b, e.id);
    if i :| LastUpsert(b.edgesUpserted, i, e) {
      EdgesByIdLast(b.edgesUpserted, i);
    }
  }

  /** Position `i` holds the last record of its id. */
  ghost predicate LastUpsert(s: seq<EdgeRecord>, i: int, e: EdgeRecord) {
    0 <= i < |s| && s[i] == e && forall j | i < j < |s| :: s[j].id != e.id
  }

  method InsertNodes(nodes: map<NodeId, NodeRecord>, s: seq<NodeRecord>) returns (r: map<NodeId, NodeRecord>)
    ensures r == nodes + NodesById(s)
  {
    r := nodes;
    for i := 0 to |s|
      invariant r == nodes + NodesById(s[..i])
    {
      assert s[..i + 1][..i] == s[..i];
      r := r[s[i].id := s[i]];
    }
    assert s[..|s|] == s;
  }

  method InsertEdges(edges: map<EdgeId, EdgeRecord>, s: seq<EdgeRecord>) returns (r: map<EdgeId, EdgeRecord>)
    ensures r == edges + EdgesById(s)
  {
    r := edges;
    for i := 0 to |s|
      invariant r == edges + EdgesById(s[..i])
    {
      assert s[..i + 1][..i] == s[..i];
      r := r[s[i].id := s[i]];
    }
    assert s[..|s|] == s;
  }

  method RemoveKeys<V>(m: map<string, V>, ids: seq<string>) returns (r: map<string, V>)
    ensures r == m - SetOf(ids)
  {
    r := m;
    for i := 0 to |ids|
      invariant r == m - SetOf(ids[..i])
    {
      assert ids[..i + 1] == ids[..i] + [ids[i]];
      r := r - {ids[i]};
    }
    assert ids[..|ids|] == ids;
  }

  /** `apply_batch_to_maps_unchecked`: the in-place loops compute `Apply`. */
  method ApplyBatchToMaps(g: Graph, b: WriteBatch) returns (r: Graph)
    ensures r == Apply(g, b)
  {
    var nodes := InsertNodes(g.nodes, b.nodesUpserted);
    var edges := InsertEdges(g.edges, b.edgesUpserted);
    var deleted := SetOf(b.deletedNodeIds);
    nodes := RemoveKeys(nodes, b.deletedNodeIds);
    if deleted != {} {
      edges := map k | k in edges && !Touches(edges[k], deleted) :: edges[k];
    }
    edges := RemoveKeys(edges, b.deletedEdgeIds);
    r := Graph(nodes, edges);
    assert r.edges == EdgesAfter(g.edges, b);
  }

  function Plain(id: NodeId, nodeType: string): NodeRecord {
    NodeRecord(id, nodeType, map[], map[])
  }

  /** A batch that upserts one plain node. */
  function PlainBatch(id: NodeId, nodeType: string): WriteBatch {
    EMPTY_BATCH.(nodesUpserted := [Plain(id, nodeType)])
  }

  lemma PlainAccepted(g: Graph, id: NodeId, nodeType: string)
    ensures Accepted(g, PlainBatch(id, nodeType))
    ensures NodesById(PlainBatch(id, nodeType).nodesUpserted) == map[id := Plain(id, nodeType)]
  {
    assert NodesById(PlainBatch(id, nodeType).nodesUpserted[..0]) == map[];
  }

  lemma PlainApplied(g: Graph, id: NodeId, nodeType: string)
    ensures Apply(g, PlainBatch(id, nodeType)) == g.(nodes := g.nodes[id := Plain(id, nodeType)])
  {
    var b := PlainBatch(id, nodeType);
    PlainAccepted(g, id, nodeType);
    assert EdgesById(b.edgesUpserted) == map[] && SetOf(b.deletedNodeIds) == {};
    SameByGet(EdgesAfter(g.edges, b), g.edges);
  }

  function Probe(nodeType: string): NodeRecord {
    Plain("probe", nodeType)
  }

  function ProbeBatch(nodeType: string): WriteBatch {
    PlainBatch("probe", nodeType)
  }

  lemma ProbeAccepted(g: Graph, nodeType: string)
    ensures Accepted(g, ProbeBatch(nodeType))
    ensures NodesById(ProbeBatch(nodeType).nodesUpserted) == map["probe" := Probe(nodeType)]
    ensures Get(Apply(g, ProbeBatch(nodeType)).nodes, "probe") == Some(Probe(nodeType))
  {
    PlainAccepted(g, "probe", nodeType);
    PlainApplied(g, "probe", nodeType);
  }

  /** No one graph is what every accepted batch makes of another. */
  lemma SomeBatchMisses(g: Graph, h: Graph) returns (b: WriteBatch)
    ensures Accepted(g, b) && Apply(g, b) != h
  {
    ProbeAccepted(g, "a");
    ProbeAccepted(g, "b");
    assert Probe("a").nodeType[0] != Probe("b").nodeType[0];
    b := if Get(h.nodes, "probe") == Some(Probe("a")) then ProbeBatch("b") else ProbeBatch("a");
  }

  /** Some accepted batch leaves two different graphs different. */
  lemma SomeBatchTells(g: Graph, h: Graph) returns (b: WriteBatch)
    requires g != h
    ensures Accepted(g, b) && Apply(g, b) != Apply(h, b)
  {
    var id := "p";
    if x :| (x in g.nodes || x in h.nodes) && Get(g.nodes, x) != Get(h.nodes, x) {
      id := if x == "p" then "q" else "p";
      assert "p"[0] != "q"[0];
      PlainApplied(g, id, "t");
      PlainApplied(h, id, "t");
      assert Get(Apply(g, PlainBatch(id, "t")).nodes, x) != Get(Apply(h, PlainBatch(id, "t")).nodes, x);
    } else {
      SameByGet(g.nodes, h.nodes);
      PlainApplied(g, id, "t");
      PlainApplied(h, id, "t");
    }
    b := PlainBatch(id, "t");
    PlainAccepted(g, id, "t");
  }

  // ---------------------------------------------------------------- integrity

  ghost predicate Keyed(g: Graph) {
    && (forall k | k in g.nodes :: g.nodes[k].id == k)
    && (forall k | k in g.edges :: g.edges[k].id == k)
  }

  /** Every stored edge joins two stored nodes of one namespace; every stored node is normal. */
  ghost predicate Sound(g: Graph) {
    && Keyed(g)
    && (forall k | k in g.nodes :: NodeNormal(g.nodes[k]))
    && (forall k | k in g.edges ::
          g.edges[k].source in g.nodes && g.edges[k].target in g.nodes && OneNamespace(g.edges[k]))
  }

  /** Accepted batches keep the graph sound, cascades included. */
  lemma ApplyKeepsSound(g: Graph, b: WriteBatch)
    requires Sound(g) && Accepted(g, b)
    ensures Sound(Apply(g, b))
  {
    NodesByIdSpec(b.nodesUpserted);
    EdgesByIdSpec(b.edgesUpserted);
    var h := Apply(g, b);
    forall k | k in h.nodes ensures h.nodes[k].id == k && NodeNormal(h.nodes[k]) {
      NodesAfterAt(g.nodes, b, k);
    }
    forall k | k in h.edges
      ensures h.edges[k].id == k
      ensures h.edges[k].source in h.nodes && h.edges[k].target in h.nodes && OneNamespace(h.edges[k])
    {
      EdgesAfterAt(g.edges, b, k);
      NodesAfterAt(g.nodes, b, h.edges[k].source);
      NodesAfterAt(g.nodes, b, h.edges[k].target);
    }
  }
}
