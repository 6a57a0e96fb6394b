/** The planned change of a batch and the snapshot it publishes (crates/api), against the
    change the engine makes (crates/storage). */
module Publish {
  import opened Core
  import opened Versions
  import opened Buckets
  import opened Index
  import opened LiveIndex
  import opened Overlay

  // ---------------------------------------------------------------- the plan

  function PlanNodes(g: Graph, b: WriteBatch): Delta<NodeRecord> {
    Delta(
      map k | k in g.nodes && (k in NodesById(b.nodesUpserted) || k in b.deletedNodeIds) :: g.nodes[k],
      NodesById(b.nodesUpserted) - SetOf(b.deletedNodeIds))
  }

  /** An upserted edge that neither goes itself nor loses an end in the same batch. */
  predicate Stays(e: EdgeRecord, b: WriteBatch) {
    e.id !in b.deletedEdgeIds && !Touches(e, SetOf(b.deletedNodeIds))
  }

  function Staying(s: seq<EdgeRecord>, b: WriteBatch): seq<EdgeRecord> {
    if s == [] then []
    else if Stays(s[|s| - 1], b) then Staying(s[..|s| - 1], b) + [s[|s| - 1]]
    else Staying(s[..|s| - 1], b)
  }

  /** A stored edge that the node deletes of the batch cascade to. */
  predicate Cascades(g: Graph, b: WriteBatch, k: EdgeId) {
    k in g.edges && Touches(g.edges[k], SetOf(b.deletedNodeIds))
  }

  function PlanEdges(g: Graph, b: WriteBatch): Delta<EdgeRecord> {
    var come := EdgesById(Staying(b.edgesUpserted, b));
    Delta(
      map k | k in g.edges && (k in EdgesById(b.edgesUpserted) || k in b.deletedEdgeIds || Cascades(g, b, k)) ::
        g.edges[k],
      map k | k in come && !Cascades(g, b, k) :: come[k])
  }

  function Plan(g: Graph, b: WriteBatch): Mutation {
    Mutation(PlanNodes(g, b), PlanEdges(g, b))
  }

  // ---------------------------------------------------------------- when the plan is right

  /** For an edge id that is upserted and not deleted: if the stored edge goes with a deleted
      node, so must the last upsert; otherwise the last upsert must stay, or none may. */
  predicate PlannedRight(g: Graph, b: WriteBatch, k: EdgeId)
    requires k in EdgesById(b.edgesUpserted)
  {
    var lost := Touches(EdgesById(b.edgesUpserted)[k], SetOf(b.deletedNodeIds));
    if Cascades(g, b, k) then lost
    else !lost || forall e | e in b.edgesUpserted && e.id == k :: !Stays(e, b)
  }

  predicate PlanExact(g: Graph, b: WriteBatch) {
    forall k | k in EdgesById(b.edgesUpserted) && k !in b.deletedEdgeIds :: PlannedRight(g, b, k)
  }

  lemma {:induction false} StayingMembers(s: seq<EdgeRecord>, b: WriteBatch)
    ensures forall e :: e in Staying(s, b) <==> e in s && Stays(e, b)
  {
    if s != [] {
      StayingMembers(s[..|s| - 1], b);
      assert s == s[..|s| - 1] + [s[|s| - 1]];
    }
  }

  lemma {:induction false} LastStays(s: seq<EdgeRecord>, b: WriteBatch, k: EdgeId)
    requires k in EdgesById(s) && Stays(EdgesById(s)[k], b)
    ensures Get(EdgesById(Staying(s, b)), k) == Some(EdgesById(s)[k])
  {
    var front, last := s[..|s| - 1], s[|s| - 1];
    if Stays(last, b) {
      assert (Staying(front, b) + [last])[..|Staying(front, b)|] == Staying(front, b);
    }
    if last.id != k {
      LastStays(front, b, k);
    }
  }

  lemma StayingById(s: seq<EdgeRecord>, b: WriteBatch, k: EdgeId)
    ensures k in EdgesById(Staying(s, b)) <==> exists e :: e in s && e.id == k && Stays(e, b)
    ensures k in EdgesById(Staying(s, b)) ==> k in EdgesById(s) && Stays(EdgesById(Staying(s, b))[k], b)
    ensures k in EdgesById(s) && Stays(EdgesById(s)[k], b) ==> Get(EdgesById(Staying(s, b)), k) == Some(EdgesById(s)[k])
  {
    StayingMembers(s, b);
    EdgesByIdSpec(s);
    EdgesByIdSpec(Staying(s, b));
    if k in EdgesById(s) && Stays(EdgesById(s)[k], b) {
      LastStays(s, b, k);
    }
  }

  /** On the node maps the plan always agrees with the engine. */
  lemma NodesPlannedRight(g: Graph, b: WriteBatch)
    ensures Patched(g.nodes, PlanNodes(g, b)) == NodesAfter(g.nodes, b)
  {
    forall k ensures Get(Patched(g.nodes, PlanNodes(g, b)), k) == Get(NodesAfter(g.nodes, b), k) {
      NodesAfterAt(g.nodes, b, k);
    }
    SameByGet(Patched(g.nodes, PlanNodes(g, b)), NodesAfter(g.nodes, b));
  }

  lemma OtherEdgePlannedRight(g: Graph, b: WriteBatch, k: EdgeId)
    requires k in EdgesById(b.edgesUpserted) ==> k in b.deletedEdgeIds
    ensures Get(Patched(g.edges, PlanEdges(g, b)), k) == Get(EdgesAfter(g.edges, b), k)
  {
    StayingById(b.edgesUpserted, b, k);
    EdgesByIdSpec(Staying(b.edgesUpserted, b));
    EdgesAfterAt(g.edges, b, k);
  }

  lemma EdgePlannedRightIff(g: Graph, b: WriteBatch, k: EdgeId)
    requires k in EdgesById(b.edgesUpserted) && k !in b.deletedEdgeIds
    ensures Get(Patched(g.edges, PlanEdges(g, b)), k) == Get(EdgesAfter(g.edges, b), k) <==> PlannedRight(g, b, k)
  {
    StayingById(b.edgesUpserted, b, k);
    EdgesByIdSpec(b.edgesUpserted);
    EdgesAfterAt(g.edges, b, k);
  }

  /** The plan, carried out, gives exactly the graph of the engine if and only if it is right
      for every edge id that the batch upserts and does not delete. */
  lemma PlannedIsAppliedIff(g: Graph, b: WriteBatch)
    ensures Mutated(g, Plan(g, b)) == Apply(g, b) <==> PlanExact(g, b)
  {
    NodesPlannedRight(g, b);
    var planned, applied := Patched(g.edges, PlanEdges(g, b)), EdgesAfter(g.edges, b);
    if PlanExact(g, b) {
      forall k ensures Get(planned, k) == Get(applied, k) {
        if k in EdgesById(b.edgesUpserted) && k !in b.deletedEdgeIds {
          EdgePlannedRightIff(g, b, k);
        } else {
          OtherEdgePlannedRight(g, b, k);
        }
      }
      SameByGet(planned, applied);
    }
    if planned == applied {
      forall k | k in EdgesById(b.edgesUpserted) && k !in b.deletedEdgeIds ensures PlannedRight(g, b, k) {
        EdgePlannedRightIff(g, b, k);
      }
    }
  }

  ghost predicate DistinctEdgeIds(s: seq<EdgeRecord>) {
    forall d, e | d in s && e in s && d.id == e.id :: d == e
  }

  /** No stored edge is pointed away from a node that goes in the same batch. */
  ghost predicate NoRescue(g: Graph, b: WriteBatch) {
    forall e | e in b.edgesUpserted && Cascades(g, b, e.id) :: Touches(e, SetOf(b.deletedNodeIds))
  }

  /** In particular the plan is right for every batch without these two irregularities. */
  lemma RegularBatchIsExact(g: Graph, b: WriteBatch)
    requires DistinctEdgeIds(b.edgesUpserted) && NoRescue(g, b)
    ensures PlanExact(g, b)
  {
    EdgesByIdSpec(b.edgesUpserted);
    forall k | k in EdgesById(b.edgesUpserted) && k !in b.deletedEdgeIds ensures PlannedRight(g, b, k) {
      assert EdgesById(b.edgesUpserted)[k] in b.edgesUpserted;
    }
  }

  lemma NodesFit(g: Graph, b: WriteBatch)
    ensures FitsTable(g.nodes, PlanNodes(g, b))
    ensures forall k | k in PlanNodes(g, b).added :: PlanNodes(g, b).added[k].id == k
  {
    NodesByIdSpec(b.nodesUpserted);
  }

  lemma EdgesFit(g: Graph, b: WriteBatch)
    ensures FitsTable(g.edges, PlanEdges(g, b))
    ensures forall k | k in PlanEdges(g, b).added :: PlanEdges(g, b).added[k].id == k
  {
    EdgesByIdSpec(Staying(b.edgesUpserted, b));
    forall k | k in PlanEdges(g, b).added ensures k in EdgesById(b.edgesUpserted) {
      StayingById(b.edgesUpserted, b, k);
    }
  }

  /** Every plan removes previous versions and replaces only what it removes, as the index
      update needs. */
  lemma PlanFits(g: Graph, b: WriteBatch)
    ensures Fits(g, Plan(g, b))
  {
    NodesFit(g, b);
    EdgesFit(g, b);
  }

  // ---------------------------------------------------------------- planning, step by step

  method PlanNodeChanges(g: Graph, b: WriteBatch) returns (d: Delta<NodeRecord>)
    ensures d == PlanNodes(g, b)
  {
    var deleted := SetOf(b.deletedNodeIds);
    var removed: map<NodeId, NodeRecord>, added: map<NodeId, NodeRecord> := map[], map[];
    for i := 0 to |b.nodesUpserted|
      invariant removed == map k | k in g.nodes && k in NodesById(b.nodesUpserted[..i]) :: g.nodes[k]
      invariant added == NodesById(b.nodesUpserted[..i]) - deleted
    {
      var n := b.nodesUpserted[i];
      assert b.nodesUpserted[..i + 1][..i] == b.nodesUpserted[..i];
      if n.id in g.nodes {
        removed := removed[n.id := g.nodes[n.id]];
      }
      if n.id !in deleted {
        added := added[n.id := n];
      }
    }
    assert b.nodesUpserted[..|b.nodesUpserted|] == b.nodesUpserted;
    removed := RemoveStored(g.nodes, removed, b.deletedNodeIds);
    d := Delta(removed, added);
  }

  /** Record the stored versions of the listed ids as removed. */
  method RemoveStored<V>(stored: map<string, V>, removed: map<string, V>, ids: seq<string>) returns (r: map<string, V>)
    ensures r == removed + map k | k in stored && k in ids :: stored[k]
  {
    r := removed;
    for i := 0 to |ids|
      invariant r == removed + map k | k in stored && k in ids[..i] :: stored[k]
    {
      assert ids[..i + 1] == ids[..i] + [ids[i]];
      if ids[i] in stored {
        r := r[ids[i] := stored[ids[i]]];
      }
    }
    assert ids[..|ids|] == ids;
  }

  lemma StayingSnoc(s: seq<EdgeRecord>, i: nat, b: WriteBatch)
    requires i < |s|
    ensures EdgesById(s[..i + 1]) == EdgesById(s[..i])[s[i].id := s[i]]
    ensures EdgesById(Staying(s[..i + 1], b)) ==
            if Stays(s[i], b) then EdgesById(Staying(s[..i], b))[s[i].id := s[i]] else EdgesById(Staying(s[..i], b))
  {
    assert s[..i + 1][..i] == s[..i];
    var front := Staying(s[..i], b);
    assert (front + [s[i]])[..|front|] == front;
  }

  method PlanUpsertedEdges(g: Graph, b: WriteBatch)
    returns (removed: map<EdgeId, EdgeRecord>, added: map<EdgeId, EdgeRecord>)
    ensures removed == map k | k in g.edges && k in EdgesById(b.edgesUpserted) :: g.edges[k]
    ensures added == EdgesById(Staying(b.edgesUpserted, b))
  {
    removed, added := map[], map[];
    for i := 0 to |b.edgesUpserted|
      invariant removed == map k | k in g.edges && k in EdgesById(b.edgesUpserted[..i]) :: g.edges[k]
      invariant added == EdgesById(Staying(b.edgesUpserted[..i], b))
    {
      var e := b.edgesUpserted[i];
      StayingSnoc(b.edgesUpserted, i, b);
      if e.id in g.edges {
        removed := removed[e.id := g.edges[e.id]];
      }
      if e.id !in b.deletedEdgeIds && !Touches(e, SetOf(b.deletedNodeIds)) {
        added := added[e.id := e];
      }
    }
    assert b.edgesUpserted[..|b.edgesUpserted|] == b.edgesUpserted;
  }

  function CascadeRemoved(g: Graph, b: WriteBatch, removed: map<EdgeId, EdgeRecord>,
                          done: set<EdgeId>): map<EdgeId, EdgeRecord>
  {
    removed + map k | k in g.edges && k in done && Cascades(g, b, k) :: g.edges[k]
  }

  function CascadeAdded(g: Graph, b: WriteBatch, added: map<EdgeId, EdgeRecord>,
                        done: set<EdgeId>): map<EdgeId, EdgeRecord>
  {
    map k | k in added && !(k in done && Cascades(g, b, k)) :: added[k]
  }

  lemma CascadeStep(g: Graph, b: WriteBatch, removed: map<EdgeId, EdgeRecord>, added: map<EdgeId, EdgeRecord>,
                    done: set<EdgeId>, k: EdgeId)
    requires k in g.edges
    ensures CascadeRemoved(g, b, removed, done + {k}) ==
            if Cascades(g, b, k) then CascadeRemoved(g, b, removed, done)[k := g.edges[k]]
              else CascadeRemoved(g, b, removed, done)
    ensures CascadeAdded(g, b, added, done + {k}) ==
            if Cascades(g, b, k) then CascadeAdded(g, b, added, done) - {k} else CascadeAdded(g, b, added, done)
  {
  }

  /** The loop of `plan_batch_mutation` over all stored edges. */
  method PlanCascade(g: Graph, b: WriteBatch, removed: map<EdgeId, EdgeRecord>, added: map<EdgeId, EdgeRecord>)
    returns (removed': map<EdgeId, EdgeRecord>, added': map<EdgeId, EdgeRecord>)
    requires Keyed(g)
    ensures removed' == CascadeRemoved(g, b, removed, g.edges.Keys)
    ensures added' == CascadeAdded(g, b, added, g.edges.Keys)
  {
    removed', added' := removed, added;
    if SetOf(b.deletedNodeIds) == {} {
      return;
    }
    var todo := g.edges.Keys;
    while todo != {}
      invariant todo <= g.edges.Keys
      invariant removed' == CascadeRemoved(g, b, removed, g.edges.Keys - todo)
      invariant added' == CascadeAdded(g, b, added, g.edges.Keys - todo)
      decreases todo
    {
      var k :| k in todo;
      CascadeStep(g, b, removed, added, g.edges.Keys - todo, k);
      assert g.edges.Keys - todo + {k} == g.edges.Keys - (todo - {k});
      todo := todo - {k};
      if Cascades(g, b, k) {
        removed', added' := removed'[k := g.edges[k]], added' - {k};
      }
    }
    assert g.edges.Keys - todo == g.edges.Keys;
  }

  /** `plan_batch_mutation`: its loops compute `Plan`, or reject a node that is not normal. */
  method PlanBatchMutation(g: Graph, b: WriteBatch) returns (r: Result<Mutation>)
    requires Keyed(g)
    ensures r == if forall n | n in b.nodesUpserted :: NodeNormal(n) then Ok(Plan(g, b)) else Err(Validation)
  {
    if exists n | n in b.nodesUpserted :: !NodeNormal(n) {
      return Err(Validation);
    }
    var nodes := PlanNodeChanges(g, b);
    var removed, added := PlanUpsertedEdges(g, b);
    removed := RemoveStored(g.edges, removed, b.deletedEdgeIds);
    removed, added := PlanCascade(g, b, removed, added);
    assert Delta(removed, added) == PlanEdges(g, b);
    r := Ok(Mutation(nodes, Delta(removed, added)));
  }

  // ---------------------------------------------------------------- the database

  /** The published snapshot is the live graph, and both indexes agree with it. */
  ghost predicate InStep(live: Graph, published: Snapshotted, index: IndexValue) {
    Keyed(live) && published.graph == live && Agrees(index, live) && Agrees(published.index, live)
  }

  lemma StillInStepIff(g: Graph, b: WriteBatch, v: IndexValue)
    requires Keyed(g) && Agrees(v, Mutated(g, Plan(g, b)))
    ensures InStep(Apply(g, b), Snapshotted(Mutated(g, Plan(g, b)), v), v) <==> PlanExact(g, b)
  {
    PlannedIsAppliedIff(g, b);
    ApplyKeepsKeys(g, b);
  }

  /** Plan a batch and let the engine apply it; either of them may reject it. */
  method PlanAndApply(g: Graph, b: WriteBatch) returns (plan: Result<Mutation>, after: Graph)
    requires Keyed(g)
    ensures plan == if Accepted(g, b) then Ok(Plan(g, b)) else Err(Validation)
    ensures after == if Accepted(g, b) then Apply(g, b) else g
  {
    plan := PlanBatchMutation(g, b);
    if !Accepted(g, b) {
      return Err(Validation), g;
    }
    after := ApplyBatchToMaps(g, b);
  }

  /** The indexes and the snapshot after a planned write. */
  method PublishPlan(base: GraphIndex, published: Snapshotted, b: WriteBatch, plan: Mutation)
    returns (ix: GraphIndex, snapshot: Snapshotted)
    requires InStep(published.graph, published, base.Value()) && plan == Plan(published.graph, b)
    ensures fresh(ix) && snapshot.graph == Mutated(published.graph, Plan(published.graph, b))
    ensures InStep(Apply(published.graph, b), snapshot, ix.Value()) <==> PlanExact(published.graph, b)
  {
    PlanFits(published.graph, b);
    ix := IndexesWithMutation(base, plan, published.graph);
    snapshot := Snapshotted(Mutated(published.graph, plan), ix.Value());
    StillInStepIff(published.graph, b, ix.Value());
  }

  /** The engine's live maps, the index kept beside them, and the published snapshot. */
  class Database {
    var live: Graph
    var indexes: GraphIndex
    var published: Snapshotted

    ghost predicate Fresh()
      reads this, indexes
    {
      InStep(live, published, indexes.Value())
    }

    constructor (g: Graph)
      requires Keyed(g)
      ensures Fresh() && live == g
    {
      live := g;
      var ix := Rebuild(g);
      indexes, published := ix, Snapshotted(g, ix.Value());
    }

    /** `refresh_indexes`. */
    method RefreshIndexes()
      requires Keyed(live)
      modifies this
      ensures Fresh() && live == old(live)
    {
      indexes := Rebuild(live);
      published := Snapshotted(live, indexes.Value());
    }

    /** One write: plan it, let the engine apply it, publish the planned change. The snapshot
        stays in step with the engine if and only if the plan is exact. */
    method ApplyWriteBatch(b: WriteBatch) returns (r: Result<()>)
      requires Fresh()
      modifies this
      ensures r == if Accepted(old(live), b) then Ok(()) else Err(Validation)
      ensures r.Err? ==> unchanged(this)
      ensures r.Ok? ==> live == Apply(old(live), b) && published.graph == Mutated(old(live), Plan(old(live), b))
      ensures r.Ok? ==> (Fresh() <==> PlanExact(old(live), b))
    {
      var plan, after := PlanAndApply(live, b);
      if plan.Err? {
        return Err(Validation);
      }
      var ix, snapshot := PublishPlan(indexes, published, b, plan.value);
      live, indexes, published := after, ix, snapshot;
      r := Ok(());
    }
  }

  lemma ApplyKeepsKeys(g: Graph, b: WriteBatch)
    requires Keyed(g)
    ensures Keyed(Apply(g, b))
  {
    NodesByIdSpec(b.nodesUpserted);
    EdgesByIdSpec(b.edgesUpserted);
    forall k | k in Apply(g, b).nodes ensures Apply(g, b).nodes[k].id == k {
      NodesAfterAt(g.nodes, b, k);
    }
    forall k | k in Apply(g, b).edges ensures Apply(g, b).edges[k].id == k {
      EdgesAfterAt(g.edges, b, k);
    }
  }

  /** A batch that points a stored edge away from a node it deletes: the engine keeps the
      edge, the published snapshot loses it. */
  lemma RescuedEdgeIsUnpublished() returns (g: Graph, b: WriteBatch)
    ensures Sound(g) && Accepted(g, b) && !PlanExact(g, b)
    ensures "e" in Apply(g, b).edges && "e" !in Mutated(g, Plan(g, b)).edges
  {
    var e, moved := EdgeRecord("e", "a", "b", "t", map[]), EdgeRecord("e", "b", "b", "t", map[]);
    var na, nb := NodeRecord("a", "t", map[], map[]), NodeRecord("b", "t", map[], map[]);
    assert "a"[0] != "b"[0];
    g := Graph(map["a" := na, "b" := nb], map["e" := e]);
    b := WriteBatch([], [moved], ["a"], []);
    assert EdgesById([moved]) == map["e" := moved] by {
      assert [moved][..0] == [];
    }
    assert Namespace("a") == Namespace("b") == None by {
      assert "a"[1..] == "" && "b"[1..] == "";
    }
    assert "a" in SetOf(b.deletedNodeIds) && "b" !in SetOf(b.deletedNodeIds);
    EdgesAfterAt(g.edges, b, "e");
    assert Cascades(g, b, "e");
    assert !PlannedRight(g, b, "e");
  }
}
