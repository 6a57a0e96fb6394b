/** A transaction from begin to commit, used by the id that begin answers. */
module WholeTransactions {
  import opened Core
  import opened Versions
  import opened Sessions
  import opened Mvcc
  import opened Isolation
  import opened LostUpdates

  /** Begin answers an id that no open session has, and under it opens an empty session at the
      current revision. */
  lemma BeginAnswersNewId(s: State) returns (s1: State, x: nat)
    requires Inv(s)
    ensures Step(s, Begin) == (s1, Ok(x)) && x !in s.sessions && Inv(s1)
    ensures s1.sessions == s.sessions[x := Session(s.commitRevision, map[], map[], WriteBatch([], [], [], []), {}, {})]
    ensures Live(s1) == Live(s) && s1.commitRevision == s.commitRevision && s1.nextLsn == s.nextLsn
  {
    BeginStepOk(s);
    s1, x := BeginStep(s), s.nextOrdinal;
    assert x in s.sessions ==> SessionOk(s, x, s.sessions[x]);
  }

  lemma NodeStagedUnder(s: State, x: nat, n: NodeRecord) returns (s1: State)
    requires Inv(s) && Get(s.sessions, x) == Some(FreshSession(s.commitRevision))
    ensures Step(s, StageOp(x, UpsertNode(n))) == (s1, Ok(x)) && Inv(s1)
    ensures s1 == s.(sessions := s.sessions[x := OneNode(s.commitRevision, n)])
  {
    s1 := NodeStaged(s, x, n);
    StageNode(s, x, n);
  }

  lemma OnlyNodeApplied(g: Graph, n: NodeRecord)
    ensures Apply(g, WriteBatch([n], [], [], [])) == Graph(g.nodes[n.id := n], g.edges)
  {
    var b := WriteBatch([n], [], [], []);
    NodeAlone(n);
    assert EdgesById(b.edgesUpserted) == map[] && SetOf(b.deletedNodeIds) == {};
    SameByGet(EdgesAfter(g.edges, b), g.edges);
    SameByGet(NodesAfter(g.nodes, b), g.nodes[n.id := n]);
  }

  lemma NodeCommittedUnder(s: State, x: nat, n: NodeRecord, others: map<nat, Session>) returns (s1: State)
    requires Inv(s) && NodeNormal(n) && x !in others && s.sessions == others[x := OneNode(s.commitRevision, n)]
    ensures Step(s, CommitTx(x)) == (s1, Ok(s.nextLsn))
    ensures Live(s1) == Graph(s.nodes.live[n.id := n], s.edges.live) && s1.sessions == others
  {
    if n.id in s.nodes.lineage {
      LineageBelow(s, n.id);
    }
    NodeCommits(s, x, n, s.commitRevision);
    CommittedIsApplied(s, x);
    OnlyNodeApplied(Live(s), n);
    PutAndTakenOut(others, x, OneNode(s.commitRevision, n));
    CommittedCloses(s, x);
    s1 := Committed(s, x);
    CommitIsStep(s, x);
  }

  lemma CommitIsStep(s: State, x: nat)
    ensures Step(s, CommitTx(x)) == CommitStep(s, x)
  {
  }

  lemma PutAndTakenOut(m: map<nat, Session>, x: nat, t: Session)
    requires x !in m
    ensures m[x := t] - {x} == m
  {
  }

  lemma LineageBelow(s: State, k: NodeId)
    requires Inv(s) && k in s.nodes.lineage
    ensures s.nodes.lineage[k] <= s.commitRevision
  {
  }

  lemma CommittedCloses(s: State, x: nat)
    requires x in s.sessions
    ensures Committed(s, x).sessions == s.sessions - {x}
  {
  }

  lemma PutTwice(m: map<nat, Session>, x: nat, t: Session, t': Session)
    ensures m[x := t][x := t'] == m[x := t']
  {
  }

  /** Begin, upsert a node under the answered id, commit under it: every call succeeds, the node
      and nothing else has changed, and the other sessions are as they were. */
  lemma BegunTransactionCommits(s: State, n: NodeRecord)
    returns (x: nat, s1: State, s2: State, s3: State)
    requires Inv(s) && NodeNormal(n)
    ensures Step(s, Begin) == (s1, Ok(x)) && x !in s.sessions && x in s1.sessions
    ensures Step(s1, StageOp(x, UpsertNode(n))) == (s2, Ok(x))
    ensures Step(s2, CommitTx(x)) == (s3, Ok(s.nextLsn))
    ensures Live(s3) == Graph(s.nodes.live[n.id := n], s.edges.live) && s3.sessions == s.sessions
  {
    s1, x := BeginAnswersNewId(s);
    s2 := NodeStagedUnder(s1, x, n);
    PutTwice(s.sessions, x, FreshSession(s.commitRevision), OneNode(s.commitRevision, n));
    s3 := NodeCommittedUnder(s2, x, n, s.sessions);
  }

  /** Begin and roll back: the state is as before, but for the used id and, if no other session is
      open, history that nobody reads. */
  lemma BegunTransactionRollsBack(s: State) returns (x: nat, s1: State, s2: State)
    requires Inv(s)
    ensures Step(s, Begin) == (s1, Ok(x)) && Step(s1, Rollback(x)) == (s2, Ok(x))
    ensures s2.sessions == s.sessions && Live(s2) == Live(s)
    ensures s.sessions != map[] ==> s2 == s.(nextOrdinal := s2.nextOrdinal)
  {
    s1, x := BeginAnswersNewId(s);
    assert s1.sessions - {x} == s.sessions;
    s2 := RollbackStep(s1, x).0;
  }
}
