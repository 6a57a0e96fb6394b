/** Two transactions that both commit, although the second undoes what the first committed. */
module LostUpdates {
  import opened Core
  import opened Versions
  import opened Sessions
  import opened Mvcc
  import opened Isolation
  import opened Engine
  import opened EdgeConflicts

  // ---------------------------------------------------------------- an edge at a deleted node

  /** A session that deleted one node. */
  function OneRemoval(revision: nat, n: NodeId): Session {
    Session(revision, map[n := None], map[], WriteBatch([], [], [n], []), {n}, {})
  }

  /** No stored edge touches the node. */
  ghost predicate Lonely(s: State, n: NodeId) {
    Incident(s.edges.live, {n}) == {}
  }

  lemma RemovalNames(n: NodeId)
    ensures BatchNodeIds(BatchFor(DeleteNode(n))) == {n} && BatchEdgeIds(BatchFor(DeleteNode(n))) == {}
    ensures Merge(EMPTY_BATCH, BatchFor(DeleteNode(n))) == WriteBatch([], [], [n], [])
  {
    assert NodesById([]) == map[] && EdgesById([]) == map[] && SetOf([n]) == {n};
    assert [] + [n] == [n];
  }

  lemma StagedNodeDelete(base: Graph, revision: nat, n: NodeId)
    requires Incident(base.edges, {n}) == {}
    ensures Stage(base, FreshSession(revision), DeleteNode(n)) == Ok(OneRemoval(revision, n))
  {
    assert View(base, FreshSession(revision)).edges == base.edges;
    RemovalNames(n);
    var t := Stage(base, FreshSession(revision), DeleteNode(n)).value;
    assert t.touchedNodes == {n} && t.touchedEdges == {};
    assert t.nodeOverrides == map[n := None] && t.edgeOverrides == map[];
  }

  lemma StageNodeDelete(s: State, x: nat, n: NodeId)
    requires Tables(s) && Lonely(s, n) && Get(s.sessions, x) == Some(FreshSession(s.commitRevision))
    ensures StageStep(s, x, DeleteNode(n)).0 == s.(sessions := s.sessions[x := OneRemoval(s.commitRevision, n)])
  {
    BaseAtNowIsLive(s);
    StagedNodeDelete(Live(s), s.commitRevision, n);
  }

  lemma EdgeCommits(s: State, y: nat, e: EdgeRecord)
    requires Inv(s) && NewEdge(s, e) && Get(s.sessions, y) == Some(OneEdge(s.commitRevision, e, false))
    ensures CommitStep(s, y) == (Committed(s, y), Ok(s.nextLsn))
    ensures Get(Live(Committed(s, y)).edges, e.id) == Some(e)
    ensures Committed(s, y).nodes.lineage == s.nodes.lineage
  {
    SecondCommit(s, y, e, s.commitRevision);
    EdgeIsLive(s, y, e);
    NodesUnstamped(s, y);
  }

  lemma EdgeIsLive(s: State, y: nat, e: EdgeRecord)
    requires Get(s.sessions, y) == Some(OneEdge(s.commitRevision, e, false))
    ensures Get(Live(Committed(s, y)).edges, e.id) == Some(e)
  {
    CommittedIsApplied(s, y);
    OneEdgeBatch(e);
    EdgesAfterAt(s.edges.live, s.sessions[y].staged, e.id);
  }

  lemma NodesUnstamped(s: State, y: nat)
    requires y in s.sessions && BatchNodeIds(s.sessions[y].staged) == {}
    ensures Committed(s, y).nodes.lineage == s.nodes.lineage
  {
  }

  lemma RemovalCommits(s: State, x: nat, e: EdgeRecord, revision: nat)
    requires Get(s.sessions, x) == Some(OneRemoval(revision, e.source)) && Get(s.edges.live, e.id) == Some(e)
    requires forall k | k in s.nodes.lineage :: s.nodes.lineage[k] <= revision
    ensures CommitStep(s, x) == (Committed(s, x), Ok(s.nextLsn)) && e.id !in Live(Committed(s, x)).edges
  {
    RemovalAllowed(s, x, e.source, revision);
    CommittedIsApplied(s, x);
    RemovalDrops(Live(s), e, s.sessions[x].staged);
  }

  lemma RemovalAllowed(s: State, x: nat, n: NodeId, revision: nat)
    requires Get(s.sessions, x) == Some(OneRemoval(revision, n))
    requires forall k | k in s.nodes.lineage :: s.nodes.lineage[k] <= revision
    ensures CommitRefusal(s, x) == None
  {
    assert !s.sessions[x].staged.IsEmpty();
  }

  lemma RemovalDrops(g: Graph, e: EdgeRecord, b: WriteBatch)
    requires Get(g.edges, e.id) == Some(e) && b == WriteBatch([], [], [e.source], [])
    ensures e.id !in Apply(g, b).edges
  {
    EdgesAfterAt(g.edges, b, e.id);
    assert e.source in SetOf(b.deletedNodeIds);
  }

  /** In any state in which an edge is new: one transaction deletes its source, another upserts the
      edge and commits, and then the first commits too. The edge is gone, without a conflict. */
  lemma AttachedEdgeIsLost(s: State, x: nat, y: nat, e: EdgeRecord)
    requires Inv(s) && Ahead(s) && NewEdge(s, e) && x != y
    requires Get(s.sessions, x) == Some(OneRemoval(s.commitRevision, e.source))
    requires Get(s.sessions, y) == Some(OneEdge(s.commitRevision, e, false))
    ensures var s1 := CommitStep(s, y).0;
            && CommitStep(s, y).1.Ok? && CommitStep(s1, x).1.Ok?
            && Get(Live(s1).edges, e.id) == Some(e) && e.id !in Live(CommitStep(s1, x).0).edges
            && x in s1.sessions && e.id !in s1.sessions[x].touchedEdges
  {
    EdgeCommits(s, y, e);
    CommitKeepsOther(s, y, x);
    RemovalCommits(Committed(s, y), x, e, s.commitRevision);
  }

  /** Both transactions begin and stage their operations. */
  function NodeAndEdgeStaged(s: State): State {
    var s2 := BeginStep(BeginStep(s));
    var s3 := StageStep(s2, s.nextOrdinal, DeleteNode(EDGE.source)).0;
    StageStep(s3, s.nextOrdinal + 1, UpsertEdge(EDGE)).0
  }

  lemma BothStaged(s: State, x: nat, y: nat) returns (s': State)
    requires Ready(s, EDGE) && Lonely(s, EDGE.source) && x != y
    requires Get(s.sessions, x) == Get(s.sessions, y) == Some(FreshSession(s.commitRevision))
    ensures s' == StageStep(StageStep(s, x, DeleteNode(EDGE.source)).0, y, UpsertEdge(EDGE)).0 && Ready(s', EDGE)
    ensures Get(s'.sessions, x) == Some(OneRemoval(s'.commitRevision, EDGE.source))
    ensures Get(s'.sessions, y) == Some(OneEdge(s'.commitRevision, EDGE, false))
  {
    var removal, kept := OneRemoval(s.commitRevision, EDGE.source), OneEdge(s.commitRevision, EDGE, false);
    StageNodeDelete(s, x, EDGE.source);
    WithSession(s, x, EDGE, DeleteNode(EDGE.source), removal);
    var s1 := s.(sessions := s.sessions[x := removal]);
    StageEdge(s1, y, EDGE);
    WithSession(s1, y, EDGE, UpsertEdge(EDGE), kept);
    s' := s1.(sessions := s1.sessions[y := kept]);
  }

  /** Such a run exists from a store with two nodes. */
  lemma LostEdgeRun() returns (g: Graph)
    ensures Sound(g)
    ensures var s := NodeAndEdgeStaged(Opened(g, 0, 1));
            var s1 := CommitStep(s, 2).0;
            && CommitStep(s, 2).1.Ok? && CommitStep(s1, 1).1.Ok?
            && "e" in Live(s1).edges && "e" !in Live(CommitStep(s1, 1).0).edges
            && 1 in s1.sessions && "e" !in s1.sessions[1].touchedEdges
  {
    g := TwoNodesSound();
    OpenedInv(g, 0, 1);
    TwoBegun(Opened(g, 0, 1));
    var s := BothStaged(BeginStep(BeginStep(Opened(g, 0, 1))), 1, 2);
    AttachedEdgeIsLost(s, 1, 2, EDGE);
  }

  // ---------------------------------------------------------------- one node after a compaction

  /** A session that upserted one node. */
  function OneNode(revision: nat, n: NodeRecord): Session {
    Session(revision, map[n.id := Some(n)], map[], WriteBatch([n], [], [], []), {n.id}, {})
  }

  lemma NodeAlone(n: NodeRecord)
    ensures NodesById([n]) == map[n.id := n]
  {
    assert [n][..0] == [];
  }

  lemma NodeNames(n: NodeRecord)
    ensures BatchNodeIds(BatchFor(UpsertNode(n))) == {n.id} && BatchEdgeIds(BatchFor(UpsertNode(n))) == {}
    ensures Merge(EMPTY_BATCH, BatchFor(UpsertNode(n))) == WriteBatch([n], [], [], [])
  {
    NodeAlone(n);
    assert EdgesById([]) == map[] && [] + [n] == [n];
  }

  lemma StageNode(s: State, x: nat, n: NodeRecord)
    requires Get(s.sessions, x) == Some(FreshSession(s.commitRevision))
    ensures StageStep(s, x, UpsertNode(n)).0 == s.(sessions := s.sessions[x := OneNode(s.commitRevision, n)])
  {
    NodeNames(n);
    var t := Stage(BaseAt(s, s.commitRevision), FreshSession(s.commitRevision), UpsertNode(n)).value;
    assert t.touchedNodes == {n.id} && t.touchedEdges == {};
    assert t.nodeOverrides == map[n.id := Some(n)];
  }

  /** A session that upserted one node commits unless the lineage of the node lies above its
      start. */
  lemma NodeCommits(s: State, x: nat, n: NodeRecord, revision: nat)
    requires Get(s.sessions, x) == Some(OneNode(revision, n)) && NodeNormal(n)
    requires n.id in s.nodes.lineage ==> s.nodes.lineage[n.id] <= revision
    ensures CommitStep(s, x) == (Committed(s, x), Ok(s.nextLsn))
    ensures Get(Live(Committed(s, x)).nodes, n.id) == Some(n)
  {
    NodeAllowed(s, x, n, revision);
    CommittedIsApplied(s, x);
    NodeAlone(n);
    NodesAfterAt(s.nodes.live, WriteBatch([n], [], [], []), n.id);
  }

  lemma NodeAllowed(s: State, x: nat, n: NodeRecord, revision: nat)
    requires Get(s.sessions, x) == Some(OneNode(revision, n)) && NodeNormal(n)
    requires n.id in s.nodes.lineage ==> s.nodes.lineage[n.id] <= revision
    ensures CommitRefusal(s, x) == None
  {
    assert !s.sessions[x].staged.IsEmpty();
  }

  lemma NodeStamped(s: State, x: nat, n: NodeRecord, revision: nat)
    requires Get(s.sessions, x) == Some(OneNode(revision, n)) && CommitStep(s, x).1.Ok?
    ensures Get(Committed(s, x).nodes.lineage, n.id) == Some(s.nextLsn)
  {
    NodeAlone(n);
    CommitStampsNodes(s, x, n.id);
  }

  lemma OtherStays(s: State, x: nat, y: nat)
    requires x in s.sessions && y in s.sessions && x != y
    ensures Get(Committed(s, x).sessions, y) == Get(s.sessions, y)
  {
  }

  /** First one transaction commits its version of a node, then the other commits another. */
  ghost predicate LastOneWins(s: State, x: nat, y: nat, n: NodeRecord, m: NodeRecord) {
    exists s1, s2 ::
      && CommitStep(s, x) == (s1, Ok(s.nextLsn)) && CommitStep(s1, y) == (s2, Ok(s1.nextLsn))
      && Get(Live(s1).nodes, n.id) == Some(n) && Get(Live(s2).nodes, n.id) == Some(m)
  }

  lemma BothNodesCommit(s: State, x: nat, y: nat, n: NodeRecord, m: NodeRecord, revision: nat)
    requires n.id == m.id && NodeNormal(n) && NodeNormal(m) && x != y && s.nextLsn <= revision
    requires forall k | k in s.nodes.lineage :: s.nodes.lineage[k] <= revision
    requires Get(s.sessions, x) == Some(OneNode(revision, n)) && Get(s.sessions, y) == Some(OneNode(revision, m))
    ensures LastOneWins(s, x, y, n, m)
  {
    NodeCommits(s, x, n, revision);
    NodeStamped(s, x, n, revision);
    OtherStays(s, x, y);
    NodeCommits(Committed(s, x), y, m, revision);
  }

  /** Two transactions upserted one node; a compaction restarts the log numbering; then both
      commit, and the second silently replaces what the first committed. */
  lemma CompactionHidesConflict(s: State, x: nat, y: nat, n: NodeRecord, m: NodeRecord)
    requires Inv(s) && s.commitRevision >= 1 && n.id == m.id && NodeNormal(n) && NodeNormal(m) && x != y
    requires Get(s.sessions, x) == Some(OneNode(s.commitRevision, n))
    requires Get(s.sessions, y) == Some(OneNode(s.commitRevision, m))
    ensures LastOneWins(Step(s, Compact).0, x, y, n, m)
  {
    var s1 := Renumbered(s);
    BothNodesCommit(s1, x, y, n, m, s.commitRevision);
  }

  lemma Renumbered(s: State) returns (s1: State)
    requires Inv(s)
    ensures s1 == Step(s, Compact).0 && s1.nextLsn == 1 && s1.sessions == s.sessions
    ensures forall k | k in s1.nodes.lineage :: s1.nodes.lineage[k] <= s.commitRevision
  {
    s1 := s.(nextLsn := 1);
  }

  /** Both transactions begin and upsert the node. */
  function NodeStagedTwice(s: State, n: NodeRecord, m: NodeRecord): State {
    var s3 := StageStep(BeginStep(BeginStep(s)), s.nextOrdinal, UpsertNode(n)).0;
    StageStep(s3, s.nextOrdinal + 1, UpsertNode(m)).0
  }

  lemma StagedTwice(s: State, n: NodeRecord, m: NodeRecord) returns (s': State)
    requires Inv(s)
    ensures s' == NodeStagedTwice(s, n, m) && Inv(s') && s'.commitRevision == s.commitRevision
    ensures Get(s'.sessions, s.nextOrdinal) == Some(OneNode(s.commitRevision, n))
    ensures Get(s'.sessions, s.nextOrdinal + 1) == Some(OneNode(s.commitRevision, m))
  {
    var s2 := TwoFresh(s);
    s' := TwoStaged(s2, s.nextOrdinal, s.nextOrdinal + 1, n, m);
  }

  lemma TwoStaged(s: State, x: nat, y: nat, n: NodeRecord, m: NodeRecord) returns (s': State)
    requires Inv(s) && x != y
    requires Get(s.sessions, x) == Get(s.sessions, y) == Some(FreshSession(s.commitRevision))
    ensures s' == StageStep(StageStep(s, x, UpsertNode(n)).0, y, UpsertNode(m)).0
    ensures Inv(s') && s'.commitRevision == s.commitRevision
    ensures Get(s'.sessions, x) == Some(OneNode(s.commitRevision, n))
    ensures Get(s'.sessions, y) == Some(OneNode(s.commitRevision, m))
  {
    var s1 := NodeStaged(s, x, n);
    s' := NodeStaged(s1, y, m);
  }

  lemma TwoFresh(s: State) returns (s': State)
    requires Inv(s)
    ensures s' == BeginStep(BeginStep(s)) && Inv(s') && s'.commitRevision == s.commitRevision
    ensures Get(s'.sessions, s.nextOrdinal) == Some(FreshSession(s.commitRevision))
    ensures Get(s'.sessions, s.nextOrdinal + 1) == Some(FreshSession(s.commitRevision))
  {
    BeginStepOk(s);
    BeginStepOk(BeginStep(s));
    s' := BeginStep(BeginStep(s));
  }

  lemma NodeStaged(s: State, x: nat, n: NodeRecord) returns (s': State)
    requires Inv(s) && Get(s.sessions, x) == Some(FreshSession(s.commitRevision))
    ensures s' == StageStep(s, x, UpsertNode(n)).0 && Inv(s') && s'.commitRevision == s.commitRevision
    ensures s'.sessions == s.sessions[x := OneNode(s.commitRevision, n)]
  {
    StageNode(s, x, n);
    StageStepOk(s, x, UpsertNode(n));
    s' := s.(sessions := s.sessions[x := OneNode(s.commitRevision, n)]);
  }

  /** Such a run exists from every store with a revision, for any two versions of one node. */
  lemma LostNodeRun(g: Graph, revision: nat, n: NodeRecord, m: NodeRecord)
    requires Sound(g) && revision >= 1 && n.id == m.id && NodeNormal(n) && NodeNormal(m)
    ensures LastOneWins(Step(NodeStagedTwice(Opened(g, revision, revision + 1), n, m), Compact).0, 1, 2, n, m)
  {
    OpenedInv(g, revision, revision + 1);
    var s := StagedTwice(Opened(g, revision, revision + 1), n, m);
    CompactionHidesConflict(s, 1, 2, n, m);
  }
}
