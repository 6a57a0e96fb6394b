/** Two transactions on one new edge, of which the first leaves no trace. */
module EdgeConflicts {
  import opened Core
  import opened Versions
  import opened Sessions
  import opened Mvcc
  import opened Isolation
  import opened Engine

  /** A session that upserted one edge, and perhaps deleted it again. */
  function OneEdge(revision: nat, e: EdgeRecord, deleted: bool): Session {
    Session(revision, map[], map[e.id := if deleted then None else Some(e)],
            WriteBatch([], [e], [], if deleted then [e.id] else []), {}, {e.id})
  }

  lemma OneEdgeBatch(e: EdgeRecord)
    ensures EdgesById([e]) == map[e.id := e]
  {
    assert [e][..0] == [];
  }

  /** An edge that could be stored, and of which nothing is known yet. */
  ghost predicate NewEdge(s: State, e: EdgeRecord) {
    && e.source in s.nodes.live && e.target in s.nodes.live && OneNamespace(e)
    && e.id !in s.edges.live && e.id !in s.edges.lineage
  }

  // ---------------------------------------------------------------- staging

  lemma UpsertNames(e: EdgeRecord)
    ensures BatchEdgeIds(BatchFor(UpsertEdge(e))) == {e.id} && BatchNodeIds(BatchFor(UpsertEdge(e))) == {}
    ensures Merge(EMPTY_BATCH, BatchFor(UpsertEdge(e))) == WriteBatch([], [e], [], [])
  {
    OneEdgeBatch(e);
    assert [] + [e] == [e];
    assert NodesById([]) == map[];
  }

  lemma DeleteNames(e: EdgeRecord)
    ensures BatchEdgeIds(BatchFor(DeleteEdge(e.id))) == {e.id} && BatchNodeIds(BatchFor(DeleteEdge(e.id))) == {}
    ensures Merge(WriteBatch([], [e], [], []), BatchFor(DeleteEdge(e.id))) == WriteBatch([], [e], [], [e.id])
  {
    assert [] + [e.id] == [e.id] && [e] + [] == [e];
    assert EdgesById([]) == map[] && NodesById([]) == map[];
    assert SetOf([e.id]) == {e.id};
  }

  lemma StagedEdge(base: Graph, revision: nat, e: EdgeRecord)
    requires e.source in base.nodes && e.target in base.nodes
    ensures Stage(base, FreshSession(revision), UpsertEdge(e)) == Ok(OneEdge(revision, e, false))
  {
    UpsertNames(e);
    assert View(base, FreshSession(revision)).nodes == base.nodes;
    var t := Stage(base, FreshSession(revision), UpsertEdge(e)).value;
    assert t.touchedNodes == {} && t.touchedEdges == {e.id};
    assert t.edgeOverrides == map[e.id := Some(e)];
  }

  lemma StagedRemoval(base: Graph, revision: nat, e: EdgeRecord)
    ensures Stage(base, OneEdge(revision, e, false), DeleteEdge(e.id)) == Ok(OneEdge(revision, e, true))
  {
    DeleteNames(e);
    var t := Stage(base, OneEdge(revision, e, false), DeleteEdge(e.id)).value;
    assert t.touchedNodes == {} && t.touchedEdges == {e.id};
    assert t.edgeOverrides == map[e.id := None];
  }

  lemma StageEdge(s: State, x: nat, e: EdgeRecord)
    requires Tables(s) && NewEdge(s, e) && Get(s.sessions, x) == Some(FreshSession(s.commitRevision))
    ensures StageStep(s, x, UpsertEdge(e)).0 == s.(sessions := s.sessions[x := OneEdge(s.commitRevision, e, false)])
  {
    BaseAtNowIsLive(s);
    StagedEdge(Live(s), s.commitRevision, e);
  }

  lemma StageRemoval(s: State, x: nat, e: EdgeRecord)
    requires Get(s.sessions, x) == Some(OneEdge(s.commitRevision, e, false))
    ensures StageStep(s, x, DeleteEdge(e.id)).0 == s.(sessions := s.sessions[x := OneEdge(s.commitRevision, e, true)])
  {
    StagedRemoval(BaseAt(s, s.commitRevision), s.commitRevision, e);
  }

  // ---------------------------------------------------------------- committing

  lemma OneEdgeAccepted(g: Graph, e: EdgeRecord, revision: nat, deleted: bool)
    requires e.source in g.nodes && e.target in g.nodes && OneNamespace(e)
    ensures Accepted(g, OneEdge(revision, e, deleted).staged)
  {
  }

  lemma FirstCommit(s: State, x: nat, e: EdgeRecord)
    requires Inv(s) && NewEdge(s, e) && Get(s.sessions, x) == Some(OneEdge(s.commitRevision, e, true))
    ensures CommitStep(s, x) == (Committed(s, x), Ok(s.nextLsn)) && !LeavesTrace(s, x, e.id)
    ensures NewEdge(Committed(s, x), e)
  {
    var t := s.sessions[x];
    OneEdgeAccepted(Live(s), e, s.commitRevision, true);
    OneEdgeBatch(e);
    EdgesAfterAt(s.edges.live, t.staged, e.id);
    CommittedEdgeLineage(s, x, e.id);
    CommittedIsApplied(s, x);
    NodesAfterAt(s.nodes.live, t.staged, e.source);
    NodesAfterAt(s.nodes.live, t.staged, e.target);
  }

  lemma SecondCommit(s: State, y: nat, e: EdgeRecord, revision: nat)
    requires NewEdge(s, e) && Get(s.sessions, y) == Some(OneEdge(revision, e, false))
    ensures CommitStep(s, y).1 == Ok(s.nextLsn)
  {
    OneEdgeAccepted(Live(s), e, revision, false);
  }

  /** In any state in which an edge is new: one transaction upserts and deletes it, another
      upserts it, and both commit, although both touched the edge. */
  lemma BothCommit(s: State, x: nat, y: nat, e: EdgeRecord)
    requires Inv(s) && Ahead(s) && NewEdge(s, e) && x != y
    requires Get(s.sessions, x) == Some(OneEdge(s.commitRevision, e, true))
    requires Get(s.sessions, y) == Some(OneEdge(s.commitRevision, e, false))
    ensures e.id in s.sessions[x].touchedEdges && e.id in s.sessions[y].touchedEdges
    ensures CommitStep(s, x).1.Ok? && CommitStep(CommitStep(s, x).0, y).1.Ok?
  {
    FirstCommit(s, x, e);
    CommitKeepsOther(s, x, y);
    SecondCommit(Committed(s, x), y, e, s.commitRevision);
  }

  // ---------------------------------------------------------------- from a store with two nodes

  const EDGE := EdgeRecord("e", "a", "b", "t", map[])

  lemma TwoNodesSound() returns (g: Graph)
    ensures Sound(g) && g.edges == map[] && NewEdge(Opened(g, 0, 1), EDGE)
  {
    g := Graph(map["a" := Plain("a", "t")]["b" := Plain("b", "t")], map[]);
    assert Namespace("a") == Namespace("b") == None by {
      assert "a"[1..] == "" && "b"[1..] == "";
    }
  }

  /** The state after both transactions began and staged their operations. */
  function Staged(s: State): State {
    var s2 := BeginStep(BeginStep(s));
    StageAll(s2, s.nextOrdinal, s.nextOrdinal + 1)
  }

  function StageAll(s: State, x: nat, y: nat): State {
    var s1 := StageStep(s, x, UpsertEdge(EDGE)).0;
    var s2 := StageStep(s1, x, DeleteEdge(EDGE.id)).0;
    StageStep(s2, y, UpsertEdge(EDGE)).0
  }

  ghost predicate Ready(s: State, e: EdgeRecord) {
    Inv(s) && Ahead(s) && NewEdge(s, e)
  }

  lemma WithSession(s: State, x: nat, e: EdgeRecord, op: Operation, t: Session)
    requires Ready(s, e) && StageStep(s, x, op).0 == s.(sessions := s.sessions[x := t])
    ensures Ready(s.(sessions := s.sessions[x := t]), e)
  {
    StageStepOk(s, x, op);
  }

  lemma AllStaged(s: State, x: nat, y: nat) returns (s': State)
    requires Ready(s, EDGE) && x != y
    requires Get(s.sessions, x) == Get(s.sessions, y) == Some(FreshSession(s.commitRevision))
    ensures s' == StageAll(s, x, y) && Ready(s', EDGE)
    ensures Get(s'.sessions, x) == Some(OneEdge(s'.commitRevision, EDGE, true))
    ensures Get(s'.sessions, y) == Some(OneEdge(s'.commitRevision, EDGE, false))
  {
    var kept, gone := OneEdge(s.commitRevision, EDGE, false), OneEdge(s.commitRevision, EDGE, true);
    StageEdge(s, x, EDGE);
    WithSession(s, x, EDGE, UpsertEdge(EDGE), kept);
    var s1 := s.(sessions := s.sessions[x := kept]);
    StageRemoval(s1, x, EDGE);
    WithSession(s1, x, EDGE, DeleteEdge(EDGE.id), gone);
    var s2 := s1.(sessions := s1.sessions[x := gone]);
    StageEdge(s2, y, EDGE);
    WithSession(s2, y, EDGE, UpsertEdge(EDGE), kept);
    s' := s2.(sessions := s2.sessions[y := kept]);
  }

  lemma Begun(s: State)
    requires Ready(s, EDGE)
    ensures var s' := BeginStep(s);
            && Ready(s', EDGE) && s'.nextOrdinal == s.nextOrdinal + 1 && s'.commitRevision == s.commitRevision
            && s'.sessions == s.sessions[s.nextOrdinal := FreshSession(s.commitRevision)]
  {
    BeginStepOk(s);
  }

  lemma TwoBegun(s: State)
    requires Ready(s, EDGE)
    ensures var s' := BeginStep(BeginStep(s));
            && Ready(s', EDGE)
            && Get(s'.sessions, s.nextOrdinal) == Some(FreshSession(s'.commitRevision))
            && Get(s'.sessions, s.nextOrdinal + 1) == Some(FreshSession(s'.commitRevision))
  {
    Begun(s);
    Begun(BeginStep(s));
  }

  /** The failing run exists: a store with nodes "a" and "b", two transactions on edge "e". */
  lemma EdgeConflictIsMissed() returns (g: Graph)
    ensures Sound(g)
    ensures var s := Staged(Opened(g, 0, 1));
            && 1 in s.sessions && 2 in s.sessions
            && "e" in s.sessions[1].touchedEdges && "e" in s.sessions[2].touchedEdges
            && CommitStep(s, 1).1.Ok? && CommitStep(CommitStep(s, 1).0, 2).1.Ok?
  {
    g := TwoNodesSound();
    OpenedInv(g, 0, 1);
    TwoBegun(Opened(g, 0, 1));
    var s := AllStaged(BeginStep(BeginStep(Opened(g, 0, 1))), 1, 2);
    BothCommit(s, 1, 2, EDGE);
  }
}
