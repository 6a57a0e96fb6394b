/** What the snapshot transactions of `Mvcc` promise over whole runs. */
module Isolation {
  import opened Core
  import opened Versions
  import opened Sessions
  import opened Mvcc

  // ---------------------------------------------------------------- runs

  lemma {:induction false} RunKeepsInv(s: State, es: seq<Event>)
    requires Inv(s) && Guarded(s, es)
    ensures Inv(Run(s, es))
    decreases |es|
  {
    if es != [] {
      EveryStepOk(s, es[0]);
      RunKeepsInv(Step(s, es[0]).0, es[1..]);
    }
  }

  /** Transaction ids are never reused: a closed session stays closed. */
  lemma {:induction false} ClosedStaysClosed(s: State, es: seq<Event>, x: nat)
    requires Inv(s) && Guarded(s, es)
    requires x < s.nextOrdinal && x !in s.sessions
    ensures x !in Run(s, es).sessions
    decreases |es|
  {
    if es != [] {
      EveryStepOk(s, es[0]);
      ClosedStaysClosed(Step(s, es[0]).0, es[1..], x);
    }
  }

  /** Snapshot stability: however a run goes on, a session that is still open has the start
      revision and the start graph it had. */
  lemma {:induction false} SnapshotsAreStable(s: State, es: seq<Event>, x: nat)
    requires Inv(s) && Guarded(s, es)
    requires x in s.sessions && x in Run(s, es).sessions
    ensures Run(s, es).sessions[x].startedAt == s.sessions[x].startedAt
    ensures BaseAt(Run(s, es), s.sessions[x].startedAt) == BaseAt(s, s.sessions[x].startedAt)
    ensures s.sessions[x].touchedNodes <= Run(s, es).sessions[x].touchedNodes
    ensures s.sessions[x].touchedEdges <= Run(s, es).sessions[x].touchedEdges
    decreases |es|
  {
    if es != [] {
      var s1 := Step(s, es[0]).0;
      EveryStepOk(s, es[0]);
      if x !in s1.sessions {
        assert SessionOk(s, x, s.sessions[x]);
        ClosedStaysClosed(s1, es[1..], x);
      }
      SnapshotsAreStable(s1, es[1..], x);
    }
  }

  /** Every read of an open session at its start revision returns, for every key, the value
      that was live when it began. */
  lemma ReadsAreFromBegin(s: State, es: seq<Event>, k: string)
    requires Inv(s) && Guarded(BeginStep(s), es)
    requires s.nextOrdinal in Run(BeginStep(s), es).sessions
    ensures var s' := Run(BeginStep(s), es);
            var R := s'.sessions[s.nextOrdinal].startedAt;
            VisibleAt(s'.nodes, k, R) == Get(s.nodes.live, k) && VisibleAt(s'.edges, k, R) == Get(s.edges.live, k)
  {
    var s1 := BeginStep(s);
    var s', x, R := Run(s1, es), s.nextOrdinal, s.commitRevision;
    BeginStepOk(s);
    SnapshotsAreStable(s1, es, x);
    RunKeepsInv(s1, es);
    BaseAtNowIsLive(s);
    assert BaseAt(s1, R) == BaseAt(s, R);
    SnapshotAt(s'.nodes, map[], s'.commitRevision, R, k);
    SnapshotAt(s'.edges, map[], s'.commitRevision, R, k);
  }

  // ---------------------------------------------------------------- runs without a compaction

  lemma StepKeepsAhead(s: State, ev: Event)
    requires Ahead(s) && !ev.Compact?
    ensures Ahead(Step(s, ev).0)
  {
  }

  /** Only a completed compaction can bring a write behind the last committed revision. */
  lemma {:induction false} RunWithoutCompactionIsGuarded(s: State, es: seq<Event>)
    requires Ahead(s) && forall ev | ev in es :: !ev.Compact?
    ensures Guarded(s, es) && Ahead(Run(s, es))
    decreases |es|
  {
    if es != [] {
      StepKeepsAhead(s, es[0]);
      RunWithoutCompactionIsGuarded(Step(s, es[0]).0, es[1..]);
    }
  }

  // ---------------------------------------------------------------- no lost updates

  lemma UnchangedSince<V>(t: Table<V>, ids: set<string>, now: nat, R: nat, k: string)
    requires TableInv(t, now) && !ChangedSince(t.lineage, ids, R) && k in ids
    ensures Get(t.live, k) == Get(Snapshot(t, map[], R), k)
  {
    SnapshotAt(t, map[], now, R, k);
    if k !in t.lineage {
      AllAbsentIsNone(HistoryOf(t.versions, k), R);
    }
  }

  /** A commit succeeds only if every touched node and edge still has its begin-time value. */
  lemma NoLostUpdates(s: State, x: nat)
    requires Inv(s) && CommitStep(s, x).1.Ok?
    ensures var t := s.sessions[x];
            && (forall k | k in t.touchedNodes :: Get(s.nodes.live, k) == Get(BaseAt(s, t.startedAt).nodes, k))
            && (forall k | k in t.touchedEdges :: Get(s.edges.live, k) == Get(BaseAt(s, t.startedAt).edges, k))
  {
    var t := s.sessions[x];
    forall k | k in t.touchedNodes ensures Get(s.nodes.live, k) == Get(BaseAt(s, t.startedAt).nodes, k) {
      UnchangedSince(s.nodes, t.touchedNodes, s.commitRevision, t.startedAt, k);
    }
    forall k | k in t.touchedEdges ensures Get(s.edges.live, k) == Get(BaseAt(s, t.startedAt).edges, k) {
      UnchangedSince(s.edges, t.touchedEdges, s.commitRevision, t.startedAt, k);
    }
  }

  // ---------------------------------------------------------------- what a commit takes along

  /** A commit changes a node or an edge only if it still holds its begin-time value. */
  ghost predicate ChangesOnlyKnown(s: State, x: nat)
    requires x in s.sessions
  {
    var base, after := BaseAt(s, s.sessions[x].startedAt), Live(Committed(s, x));
    && (forall k :: Get(after.nodes, k) != Get(s.nodes.live, k) ==> Get(s.nodes.live, k) == Get(base.nodes, k))
    && (forall k :: Get(after.edges, k) != Get(s.edges.live, k) ==> Get(s.edges.live, k) == Get(base.edges, k))
  }

  /** Every stored edge at a node that the session deletes is one that it touched. */
  ghost predicate CascadeKnown(s: State, x: nat)
    requires x in s.sessions
  {
    forall k | k in s.edges.live && Touches(s.edges.live[k], SetOf(s.sessions[x].staged.deletedNodeIds)) ::
      k in s.sessions[x].touchedEdges
  }

  lemma ChangedNodeIsTouched(s: State, x: nat, k: NodeId)
    requires x in s.sessions && BatchNodeIds(s.sessions[x].staged) <= s.sessions[x].touchedNodes
    ensures Get(Live(Committed(s, x)).nodes, k) != Get(s.nodes.live, k) ==> k in s.sessions[x].touchedNodes
  {
    CommittedIsApplied(s, x);
    NodesAfterAt(s.nodes.live, s.sessions[x].staged, k);
  }

  lemma ChangedEdgeIs(s: State, x: nat, k: EdgeId)
    requires x in s.sessions && BatchEdgeIds(s.sessions[x].staged) <= s.sessions[x].touchedEdges
    requires k !in s.sessions[x].touchedEdges
    ensures Get(Live(Committed(s, x)).edges, k) != Get(s.edges.live, k) <==>
            k in s.edges.live && Touches(s.edges.live[k], SetOf(s.sessions[x].staged.deletedNodeIds))
  {
    CommittedIsApplied(s, x);
    EdgesAfterAt(s.edges.live, s.sessions[x].staged, k);
  }

  lemma StrangeEdgeIsLost(s: State, x: nat, k: EdgeId)
    requires x in s.sessions && SessionInv(BaseAt(s, s.sessions[x].startedAt), s.sessions[x])
    requires k in s.edges.live && Touches(s.edges.live[k], SetOf(s.sessions[x].staged.deletedNodeIds))
    requires k !in s.sessions[x].touchedEdges
    ensures Get(Live(Committed(s, x)).edges, k) != Get(s.edges.live, k)
    ensures Get(s.edges.live, k) != Get(BaseAt(s, s.sessions[x].startedAt).edges, k)
  {
    ChangedEdgeIs(s, x, k);
  }

  /** A successful commit changes only what still holds its begin-time value exactly when no
      stored edge that the session never touched hangs on a node that it deletes. */
  lemma CommitChangesOnlyKnownIff(s: State, x: nat)
    requires Inv(s) && CommitStep(s, x).1.Ok?
    requires SessionInv(BaseAt(s, s.sessions[x].startedAt), s.sessions[x])
    ensures ChangesOnlyKnown(s, x) <==> CascadeKnown(s, x)
  {
    if CascadeKnown(s, x) {
      KnownCascade(s, x);
    } else {
      UnknownCascade(s, x);
    }
  }

  lemma KnownCascade(s: State, x: nat)
    requires Inv(s) && CommitStep(s, x).1.Ok? && TouchesRecorded(s.sessions[x]) && CascadeKnown(s, x)
    ensures ChangesOnlyKnown(s, x)
  {
    NoLostUpdates(s, x);
    OnlyTouchedChange(s, x);
  }

  lemma UnknownCascade(s: State, x: nat)
    requires x in s.sessions && SessionInv(BaseAt(s, s.sessions[x].startedAt), s.sessions[x]) && !CascadeKnown(s, x)
    ensures !ChangesOnlyKnown(s, x)
  {
    var t := s.sessions[x];
    var k :| k in s.edges.live && Touches(s.edges.live[k], SetOf(t.staged.deletedNodeIds)) && k !in t.touchedEdges;
    StrangeEdgeIsLost(s, x, k);
  }

  lemma OnlyTouchedChange(s: State, x: nat)
    requires x in s.sessions && TouchesRecorded(s.sessions[x]) && CascadeKnown(s, x)
    ensures var t, after := s.sessions[x], Live(Committed(s, x));
            && (forall k :: Get(after.nodes, k) != Get(s.nodes.live, k) ==> k in t.touchedNodes)
            && (forall k :: Get(after.edges, k) != Get(s.edges.live, k) ==> k in t.touchedEdges)
  {
    forall k ensures Get(Live(Committed(s, x)).nodes, k) != Get(s.nodes.live, k) ==> k in s.sessions[x].touchedNodes {
      ChangedNodeIsTouched(s, x, k);
    }
    forall k ensures Get(Live(Committed(s, x)).edges, k) != Get(s.edges.live, k) ==> k in s.sessions[x].touchedEdges {
      if k !in s.sessions[x].touchedEdges {
        ChangedEdgeIs(s, x, k);
      }
    }
  }

  lemma {:induction false} LineageStaysAbove(s: State, es: seq<Event>)
    requires Inv(s) && Guarded(s, es)
    ensures NotBefore(s.nodes.lineage, Run(s, es).nodes.lineage)
    ensures NotBefore(s.edges.lineage, Run(s, es).edges.lineage)
    decreases |es|
  {
    if es != [] {
      EveryStepOk(s, es[0]);
      LineageStaysAbove(Step(s, es[0]).0, es[1..]);
    }
  }

  lemma CommitStampsNodes(s: State, x: nat, k: NodeId)
    requires CommitStep(s, x).1.Ok? && k in BatchNodeIds(s.sessions[x].staged)
    ensures k in Committed(s, x).nodes.lineage && Committed(s, x).nodes.lineage[k] == s.nextLsn
  {
    var w := Written(s.(sessions := s.sessions - {x}), s.sessions[x].staged, |s.sessions| > 1);
    assert w.nodes.lineage == Stamp(s.nodes.lineage, BatchNodeIds(s.sessions[x].staged), s.nextLsn);
  }

  /** After a commit, a node it touched is a conflict for another open session exactly when the
      commit is numbered above that session's start. */
  lemma NodeConflictIff(s: State, x: nat, y: nat, k: NodeId)
    requires Inv(s) && x != y && y in s.sessions && CommitStep(s, x).1.Ok? && k in s.sessions[x].touchedNodes
    ensures var s1 := Committed(s, x);
            && y in s1.sessions && s1.sessions[y] == s.sessions[y]
            && (k in s1.nodes.lineage && s1.nodes.lineage[k] > s1.sessions[y].startedAt <==>
                s.nextLsn > s.sessions[y].startedAt)
  {
    assert SessionOk(s, x, s.sessions[x]);
    CommitStampsNodes(s, x, k);
  }

  lemma StaleCannotCommit(s: State, y: nat, k: NodeId)
    requires y in s.sessions && k in s.sessions[y].touchedNodes
    requires k in s.nodes.lineage && s.nodes.lineage[k] > s.sessions[y].startedAt
    ensures CommitStep(s, y) == (s, Err(Conflict))
  {
    assert ChangedSince(s.nodes.lineage, s.sessions[y].touchedNodes, s.sessions[y].startedAt);
  }

  lemma CommitKeepsOther(s: State, x: nat, y: nat)
    requires Inv(s) && Ahead(s) && CommitRefusal(s, x) == None && x != y && y in s.sessions
    ensures var s1 := Committed(s, x); Inv(s1) && y in s1.sessions && s1.sessions[y] == s.sessions[y]
  {
    CommitStepOk(s, x);
  }

  lemma CommitOutdatesOther(s: State, x: nat, y: nat, k: NodeId)
    requires Inv(s) && Ahead(s) && x != y && y in s.sessions && CommitStep(s, x).1.Ok?
    requires k in s.sessions[x].touchedNodes
    ensures var s1 := Committed(s, x);
            && Inv(s1) && y in s1.sessions && s1.sessions[y] == s.sessions[y]
            && k in s1.nodes.lineage && s1.nodes.lineage[k] > s.sessions[y].startedAt
  {
    CommitKeepsOther(s, x, y);
    assert SessionOk(s, x, s.sessions[x]) && SessionOk(s, y, s.sessions[y]);
    CommitStampsNodes(s, x, k);
  }

  /** First committer wins: of two open sessions that touched a common node, once one has
      committed the other can never commit, whatever happens in between. */
  lemma FirstCommitterWins(s: State, x: nat, y: nat, k: NodeId, es: seq<Event>)
    requires Inv(s) && Ahead(s) && x != y && y in s.sessions
    requires CommitStep(s, x).1.Ok?
    requires k in s.sessions[x].touchedNodes && k in s.sessions[y].touchedNodes
    requires Guarded(Committed(s, x), es)
    ensures var s' := Run(Committed(s, x), es);
            CommitStep(s', y) == (s', Err(if y in s'.sessions then Conflict else NotFound))
  {
    CommitOutdatesOther(s, x, y, k);
    var s1 := Committed(s, x);
    if y in Run(s1, es).sessions {
      LineageStaysAbove(s1, es);
      SnapshotsAreStable(s1, es, y);
      StaleCannotCommit(Run(s1, es), y, k);
    }
  }

  // ---------------------------------------------------------------- conflicts on edges

  /** A committing session leaves a trace of an edge if it stays stored or had a lineage; an edge
      that one transaction both creates and deletes leaves none. */
  predicate LeavesTrace(s: State, x: nat, k: EdgeId)
    requires x in s.sessions
  {
    k in EdgesAfter(s.edges.live, s.sessions[x].staged) || k in s.edges.lineage
  }

  lemma TouchedEdgeIsEffect(s: State, x: nat, k: EdgeId)
    requires x in s.sessions && TableInv(s.edges, s.commitRevision) && Keyed(Live(s))
    requires !ChangedSince(s.edges.lineage, s.sessions[x].touchedEdges, s.sessions[x].startedAt)
    requires k in s.sessions[x].touchedEdges
    requires TouchesExplained(BaseAt(s, s.sessions[x].startedAt), s.sessions[x])
    ensures k in EffectEdgeIds(s.edges.live, s.sessions[x].staged)
  {
    var t := s.sessions[x];
    if k !in BatchEdgeIds(t.staged) {
      UnchangedSince(s.edges, t.touchedEdges, s.commitRevision, t.startedAt, k);
      assert k in s.edges.live && s.edges.live[k].id == k;
    }
  }

  lemma CommittedEdgeLineage(s: State, x: nat, k: EdgeId)
    requires x in s.sessions && k in EffectEdgeIds(s.edges.live, s.sessions[x].staged)
    ensures Get(Committed(s, x).edges.lineage, k) == if LeavesTrace(s, x, k) then Some(s.nextLsn) else None
  {
    var t := s.sessions[x];
    var w := Written(s.(sessions := s.sessions - {x}), t.staged, |s.sessions| > 1);
    assert w.edges.lineage == Stamp(s.edges.lineage, StampedEdgeIds(s.edges, t.staged), s.nextLsn);
  }

  /** After a commit, a touched edge, cascaded ones included, is a conflict for another open
      session exactly when it leaves a trace. */
  lemma EdgeConflictIff(s: State, x: nat, y: nat, k: EdgeId)
    requires Inv(s) && Ahead(s) && x != y && y in s.sessions && CommitStep(s, x).1.Ok?
    requires TouchesExplained(BaseAt(s, s.sessions[x].startedAt), s.sessions[x]) && k in s.sessions[x].touchedEdges
    ensures var after := Committed(s, x).edges.lineage;
            k in after && after[k] > s.sessions[y].startedAt <==> LeavesTrace(s, x, k)
  {
    assert SessionOk(s, y, s.sessions[y]);
    TouchedEdgeIsEffect(s, x, k);
    CommittedEdgeLineage(s, x, k);
  }

  lemma StaleEdgeCannotCommit(s: State, y: nat, k: EdgeId)
    requires y in s.sessions && k in s.sessions[y].touchedEdges
    requires k in s.edges.lineage && s.edges.lineage[k] > s.sessions[y].startedAt
    ensures CommitStep(s, y) == (s, Err(Conflict))
  {
    assert ChangedSince(s.edges.lineage, s.sessions[y].touchedEdges, s.sessions[y].startedAt);
  }

  /** First committer wins on edges: of two open sessions that touched a common edge, once one
      has committed and left a trace of the edge, the other can never commit. */
  lemma FirstCommitterWinsOnEdges(s: State, x: nat, y: nat, k: EdgeId, es: seq<Event>)
    requires Inv(s) && Ahead(s) && Consistent(s) && x != y && y in s.sessions
    requires CommitStep(s, x).1.Ok? && LeavesTrace(s, x, k)
    requires k in s.sessions[x].touchedEdges && k in s.sessions[y].touchedEdges
    requires Guarded(Committed(s, x), es)
    ensures var s' := Run(Committed(s, x), es);
            CommitStep(s', y) == (s', Err(if y in s'.sessions then Conflict else NotFound))
  {
    EdgeConflictIff(s, x, y, k);
    CommitKeepsOther(s, x, y);
    var s1 := Committed(s, x);
    if y in Run(s1, es).sessions {
      LineageStaysAbove(s1, es);
      SnapshotsAreStable(s1, es, y);
      StaleEdgeCannotCommit(Run(s1, es), y, k);
    }
  }

  // ---------------------------------------------------------------- consistent views

  /** Every open session is consistent with its start graph. */
  ghost predicate Consistent(s: State) {
    forall x | x in s.sessions :: SessionInv(BaseAt(s, s.sessions[x].startedAt), s.sessions[x])
  }

  lemma FreshConsistent(s: State)
    requires Inv(s)
    ensures SessionInv(BaseAt(BeginStep(s), s.commitRevision), FreshSession(s.commitRevision))
  {
    BaseAtNowIsLive(s);
    assert BaseAt(BeginStep(s), s.commitRevision) == BaseAt(s, s.commitRevision);
    FreshSessionInv(Live(s), s.commitRevision);
  }

  lemma SessionKept(s: State, ev: Event, x: nat)
    requires x in s.sessions && x in Step(s, ev).0.sessions && !(ev.StageOp? && ev.tx == x)
    requires x < s.nextOrdinal
    ensures Step(s, ev).0.sessions[x] == s.sessions[x]
  {
  }

  lemma StageConsistent(s: State, x: nat, op: Operation)
    requires x in s.sessions && x in StageStep(s, x, op).0.sessions
    requires SessionInv(BaseAt(s, s.sessions[x].startedAt), s.sessions[x])
    ensures var s' := StageStep(s, x, op).0; SessionInv(BaseAt(s', s'.sessions[x].startedAt), s'.sessions[x])
  {
    var t := s.sessions[x];
    var s' := StageStep(s, x, op).0;
    assert BaseAt(s', t.startedAt) == BaseAt(s, t.startedAt);
    StageKeepsSession(BaseAt(s, t.startedAt), t, op);
  }

  lemma OtherConsistent(s: State, ev: Event, x: nat)
    requires Inv(s) && (ev.Direct? || ev.CommitTx? ==> Ahead(s))
    requires x in s.sessions && x in Step(s, ev).0.sessions && !(ev.StageOp? && ev.tx == x)
    requires SessionInv(BaseAt(s, s.sessions[x].startedAt), s.sessions[x])
    ensures var s' := Step(s, ev).0; SessionInv(BaseAt(s', s'.sessions[x].startedAt), s'.sessions[x])
  {
    EveryStepOk(s, ev);
    assert SessionOk(s, x, s.sessions[x]);
    SessionKept(s, ev, x);
  }

  lemma OnlyBeginOpens(s: State, ev: Event, x: nat)
    requires x in Step(s, ev).0.sessions && x !in s.sessions
    ensures ev.Begin? && x == s.nextOrdinal
  {
  }

  lemma StepKeepsConsistent(s: State, ev: Event)
    requires Inv(s) && Consistent(s) && (ev.Direct? || ev.CommitTx? ==> Ahead(s))
    ensures Consistent(Step(s, ev).0)
  {
    var s' := Step(s, ev).0;
    forall x | x in s'.sessions ensures SessionInv(BaseAt(s', s'.sessions[x].startedAt), s'.sessions[x]) {
      if x !in s.sessions {
        OnlyBeginOpens(s, ev, x);
        FreshConsistent(s);
      } else if ev.StageOp? && ev.tx == x {
        StageConsistent(s, x, ev.op);
      } else {
        OtherConsistent(s, ev, x);
      }
    }
  }

  lemma {:induction false} RunKeepsConsistent(s: State, es: seq<Event>)
    requires Inv(s) && Consistent(s) && Guarded(s, es)
    ensures Consistent(Run(s, es))
    decreases |es|
  {
    if es != [] {
      EveryStepOk(s, es[0]);
      StepKeepsConsistent(s, es[0]);
      RunKeepsConsistent(Step(s, es[0]).0, es[1..]);
    }
  }

  // ---------------------------------------------------------------- commits and queries

  lemma NothingChangedSinceNow(lineage: map<string, nat>, ids: set<string>, now: nat)
    requires forall k | k in lineage :: lineage[k] <= now
    ensures !ChangedSince(lineage, ids, now)
  {
  }

  lemma UncontendedIsAccepted(s: State, x: nat)
    requires Tables(s) && x in s.sessions && s.commitRevision == s.sessions[x].startedAt
    requires SessionInv(Live(s), s.sessions[x]) && !s.sessions[x].staged.IsEmpty() && BatchNormal(s.sessions[x].staged)
    ensures CommitRefusal(s, x) == None
  {
    var t := s.sessions[x];
    NothingChangedSinceNow(s.nodes.lineage, t.touchedNodes, s.commitRevision);
    NothingChangedSinceNow(s.edges.lineage, t.touchedEdges, s.commitRevision);
  }

  lemma CommittedIsApplied(s: State, x: nat)
    requires x in s.sessions
    ensures Live(Committed(s, x)) == Apply(Live(s), s.sessions[x].staged)
  {
  }

  /** With no commit since it began, a session of normal operations always commits, and what
      becomes live is what it showed exactly when it shows nothing it also deleted. */
  lemma UncontendedCommit(s: State, x: nat)
    requires Inv(s) && Ahead(s) && x in s.sessions
    requires SessionInv(BaseAt(s, s.sessions[x].startedAt), s.sessions[x])
    requires s.commitRevision == s.sessions[x].startedAt
    requires !s.sessions[x].staged.IsEmpty() && BatchNormal(s.sessions[x].staged)
    ensures CommitStep(s, x) == (Committed(s, x), Ok(s.nextLsn))
    ensures Live(Committed(s, x)) == View(Live(s), s.sessions[x]) <==> NothingRevived(Live(s), s.sessions[x])
  {
    BaseAtNowIsLive(s);
    UncontendedIsAccepted(s, x);
    CommittedIsApplied(s, x);
    CommitsWhatItShowed(Live(s), s.sessions[x]);
  }

  lemma SnapshotIsOverlaid<V>(t: Table<V>, overrides: map<string, Option<V>>, now: nat, R: nat)
    requires TableInv(t, now)
    ensures Snapshot(t, overrides, R) == Overlaid(Snapshot(t, map[], R), overrides)
  {
    forall k ensures Get(Snapshot(t, overrides, R), k) == Get(Overlaid(Snapshot(t, map[], R), overrides), k) {
      SnapshotAt(t, overrides, now, R, k);
      SnapshotAt(t, map[], now, R, k);
      OverlaidAt(Snapshot(t, map[], R), overrides, k);
    }
    SameByGet(Snapshot(t, overrides, R), Overlaid(Snapshot(t, map[], R), overrides));
  }

  /** What a transaction query sees: patching the live maps with the session's delta gives
      its snapshot, which is the graph its staged operations show. */
  lemma DeltaGivesView(s: State, x: nat)
    requires Inv(s) && x in s.sessions
    ensures var t := s.sessions[x];
            var v := View(BaseAt(s, t.startedAt), t);
            && Patched(s.nodes.live, DeltaFromCurrent(s.nodes, t.nodeOverrides, t.startedAt)) == v.nodes
            && Patched(s.edges.live, DeltaFromCurrent(s.edges, t.edgeOverrides, t.startedAt)) == v.edges
            && Snapshot(s.nodes, t.nodeOverrides, t.startedAt) == v.nodes
            && Snapshot(s.edges, t.edgeOverrides, t.startedAt) == v.edges
  {
    var t := s.sessions[x];
    DeltaMaterialises(s.nodes, t.nodeOverrides, s.commitRevision, t.startedAt);
    DeltaMaterialises(s.edges, t.edgeOverrides, s.commitRevision, t.startedAt);
    SnapshotIsOverlaid(s.nodes, t.nodeOverrides, s.commitRevision, t.startedAt);
    SnapshotIsOverlaid(s.edges, t.edgeOverrides, s.commitRevision, t.startedAt);
  }

  // ---------------------------------------------------------------- the numbering guard

  lemma ProbeIsWritten(s: State, nodeType: string)
    ensures Accepted(Live(s), ProbeBatch(nodeType))
    ensures var s' := Written(s, ProbeBatch(nodeType), true);
            "probe" in s'.nodes.lineage && s'.nodes.lineage["probe"] == s.nextLsn &&
            Get(s'.nodes.live, "probe") == Some(Probe(nodeType))
  {
    ProbeAccepted(Live(s), nodeType);
    assert "probe" in BatchNodeIds(ProbeBatch(nodeType));
  }

  lemma ProbeVisible(s: State, nodeType: string, R: nat)
    requires s.nextLsn <= R
    ensures Accepted(Live(s), ProbeBatch(nodeType))
    ensures VisibleAt(Written(s, ProbeBatch(nodeType), true).nodes, "probe", R) == Some(Probe(nodeType))
  {
    ProbeIsWritten(s, nodeType);
  }

  /** A batch, written next, changes nothing that a reader at `R` sees under a key, of nodes or
      of edges. */
  predicate Spares(s: State, b: WriteBatch, R: nat, k: string) {
    && VisibleAt(Written(s, b, true).nodes, k, R) == VisibleAt(s.nodes, k, R)
    && VisibleAt(Written(s, b, true).edges, k, R) == VisibleAt(s.edges, k, R)
  }

  ghost predicate NextWriteSpares(s: State, R: nat) {
    forall b, k | Accepted(Live(s), b) :: Spares(s, b, R, k)
  }

  lemma WriteAboveSpares(s: State, b: WriteBatch, R: nat, k: string)
    requires Keyed(Live(s)) && s.nextLsn > R
    ensures Spares(s, b, R, k)
  {
    NodesCovered(s, b);
    EdgesCovered(s, b);
    CommitKeepsVisible(s.nodes, NodesAfter(s.nodes.live, b), BatchNodeIds(b), BatchNodeIds(b), s.nextLsn, R, k);
    CommitKeepsVisible(s.edges, EdgesAfter(s.edges.live, b), EffectEdgeIds(s.edges.live, b), StampedEdgeIds(s.edges, b),
                       s.nextLsn, R, k);
  }

  lemma WriteBelowDisturbs(s: State, R: nat)
    requires s.nextLsn <= R
    ensures exists b | Accepted(Live(s), b) :: !Spares(s, b, R, "probe")
  {
    assert Probe("a").nodeType[0] != Probe("b").nodeType[0];
    var b := if VisibleAt(s.nodes, "probe", R) == Some(Probe("a")) then ProbeBatch("b") else ProbeBatch("a");
    ProbeVisible(s, "a", R);
    ProbeVisible(s, "b", R);
    assert !Spares(s, b, R, "probe");
  }

  /** The next write disturbs no reader at revision `R`, whatever it writes, exactly when its
      log sequence number lies above `R`. */
  lemma WritesSpareReaderIff(s: State, R: nat)
    requires Keyed(Live(s))
    ensures NextWriteSpares(s, R) <==> s.nextLsn > R
  {
    if s.nextLsn > R {
      forall b, k | Accepted(Live(s), b) ensures Spares(s, b, R, k) {
        WriteAboveSpares(s, b, R, k);
      }
    } else {
      WriteBelowDisturbs(s, R);
    }
  }

  lemma RestartedWriteHides(s: State, b: WriteBatch, k: NodeId)
    requires s.nextLsn == 1 && s.nodes.versions == map[] && k !in BatchNodeIds(b)
    requires k in s.nodes.live && k in s.nodes.lineage && s.nodes.lineage[k] > 1
    ensures var s' := Written(s, b, false);
            s'.commitRevision == 1 && k in s'.nodes.live && k !in Snapshot(s'.nodes, map[], 1)
  {
    var s' := Written(s, b, false);
    NodesAfterAt(s.nodes.live, b, k);
    assert s'.nodes.lineage[k] == s.nodes.lineage[k];
    assert VisibleAt(s'.nodes, k, 1) == None;
  }

  /** A completed compaction breaks the guard: after it and one accepted write, a new session
      does not see a stored node whose last change was numbered above that write. */
  lemma CompactionBlindsReaders(s: State, b: WriteBatch, k: NodeId)
    requires Inv(s) && s.sessions == map[] && s.nodes.versions == map[]
    requires Accepted(Live(s), b) && k !in BatchNodeIds(b)
    requires k in s.nodes.live && s.nodes.lineage[k] > 1
    ensures var s1 := Step(s, Compact).0;
            var s' := Write(s1, b, false).0;
            k in Live(s').nodes && k !in BaseAt(s', s'.commitRevision).nodes
  {
    var s1 := s.(nextLsn := 1);
    assert Step(s, Compact).0 == s1 && Live(s1) == Live(s);
    RestartedWriteHides(s1, b, k);
  }
}
