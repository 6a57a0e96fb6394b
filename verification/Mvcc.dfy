/** Snapshot transactions of the storage engine: every run of begin, stage, commit, rollback,
    direct writes, other log records and compactions. */
module Mvcc {
  import opened Core
  import opened Versions
  import opened Sessions

  datatype State = State(
    nodes: Table<NodeRecord>,
    edges: Table<EdgeRecord>,
    commitRevision: nat,
    nextLsn: nat,
    nextOrdinal: nat,
    sessions: map<nat, Session>)

  function Live(s: State): Graph {
    Graph(s.nodes.live, s.edges.live)
  }

  /** The graph visible at a revision, before any override of a session. */
  function BaseAt(s: State, revision: nat): Graph {
    Graph(Snapshot(s.nodes, map[], revision), Snapshot(s.edges, map[], revision))
  }

  // ---------------------------------------------------------------- writes

  /** `batch_effects`: the edges a batch names and those its node deletes cascade to. */
  function EffectEdgeIds(edges: map<EdgeId, EdgeRecord>, b: WriteBatch): set<EdgeId> {
    BatchEdgeIds(b) + set k | k in edges && Touches(edges[k], SetOf(b.deletedNodeIds)) :: edges[k].id
  }

  /** The edges whose lineage moves: those stored after the batch or ever stored before. */
  function StampedEdgeIds(t: Table<EdgeRecord>, b: WriteBatch): set<EdgeId> {
    set k | k in EffectEdgeIds(t.live, b) && (k in EdgesAfter(t.live, b) || k in t.lineage)
  }

  /** The state after an accepted batch. */
  function Written(s: State, b: WriteBatch, readers: bool): State {
    s.(nodes := Commit(s.nodes, NodesAfter(s.nodes.live, b), BatchNodeIds(b), BatchNodeIds(b), s.nextLsn, readers),
       edges := Commit(s.edges, EdgesAfter(s.edges.live, b), EffectEdgeIds(s.edges.live, b), StampedEdgeIds(s.edges, b),
                       s.nextLsn, readers),
       commitRevision := s.nextLsn,
       nextLsn := s.nextLsn + 1)
  }

  /** `apply_write_batch_with_snapshot_readers`. */
  function Write(s: State, b: WriteBatch, readers: bool): (State, Result<nat>) {
    if Accepted(Live(s), b) then (Written(s, b, readers), Ok(s.nextLsn)) else (s, Err(Validation))
  }

  // ---------------------------------------------------------------- transactions

  /** `clear_version_history_if_unused`. */
  function ClearIfUnused(s: State): State {
    if s.sessions == map[] then s.(nodes := s.nodes.(versions := map[]), edges := s.edges.(versions := map[])) else s
  }

  predicate ChangedSince(lineage: map<string, nat>, ids: set<string>, revision: nat) {
    exists k | k in ids :: k in lineage && lineage[k] > revision
  }

  datatype Event =
    | Begin
    | StageOp(tx: nat, op: Operation)
    | CommitTx(tx: nat)
    | Rollback(tx: nat)
    | Direct(batch: WriteBatch)
    | OtherLogRecord
    | Compact

  function BeginStep(s: State): State {
    s.(nextOrdinal := s.nextOrdinal + 1, sessions := s.sessions[s.nextOrdinal := FreshSession(s.commitRevision)])
  }

  /** `stage_transaction_operation`: a refused operation drops the session. */
  function StageStep(s: State, x: nat, op: Operation): (State, Result<nat>) {
    if x !in s.sessions then (s, Err(NotFound))
    else
      match Stage(BaseAt(s, s.sessions[x].startedAt), s.sessions[x], op)
      case Err(e) => (s.(sessions := s.sessions - {x}), Err(e))
      case Ok(t) => (s.(sessions := s.sessions[x := t]), Ok(x))
  }

  /** The committing session is no snapshot reader of its own batch. */
  function Committed(s: State, x: nat): State
    requires x in s.sessions
  {
    ClearIfUnused(Written(s.(sessions := s.sessions - {x}), s.sessions[x].staged, |s.sessions| > 1))
  }

  /** `commit_transaction`: why a commit is refused, if it is. */
  function CommitRefusal(s: State, x: nat): Option<Error> {
    if x !in s.sessions then Some(NotFound)
    else if ChangedSince(s.nodes.lineage, s.sessions[x].touchedNodes, s.sessions[x].startedAt) then Some(Conflict)
    else if ChangedSince(s.edges.lineage, s.sessions[x].touchedEdges, s.sessions[x].startedAt) then Some(Conflict)
    else if !Accepted(Live(s), s.sessions[x].staged) then Some(Validation)
    else None
  }

  function CommitStep(s: State, x: nat): (State, Result<nat>) {
    match CommitRefusal(s, x)
    case Some(e) => (s, Err(e))
    case None => (Committed(s, x), Ok(s.nextLsn))
  }

  function RollbackStep(s: State, x: nat): (State, Result<nat>) {
    if x !in s.sessions then (s, Err(NotFound))
    else (ClearIfUnused(s.(sessions := s.sessions - {x})), Ok(x))
  }

  function Step(s: State, ev: Event): (State, Result<nat>) {
    match ev
    case Begin => (BeginStep(s), Ok(s.nextOrdinal))
    case StageOp(x, op) => StageStep(s, x, op)
    case CommitTx(x) => CommitStep(s, x)
    case Rollback(x) => RollbackStep(s, x)
    case Direct(b) => Write(s, b, |s.sessions| > 0)
    case OtherLogRecord => (s.(nextLsn := s.nextLsn + 1), Ok(s.nextLsn))
    case Compact => (s.(nextLsn := 1), Ok(0))
  }

  function Run(s: State, es: seq<Event>): State
    decreases |es|
  {
    if es == [] then s else Run(Step(s, es[0]).0, es[1..])
  }

  /** Every write of the run gets a log sequence number above the last committed revision.
      Only a completed compaction, which restarts the numbering at 1, can break this. */
  ghost predicate Ahead(s: State) {
    s.nextLsn > s.commitRevision
  }

  ghost predicate Guarded(s: State, es: seq<Event>)
    decreases |es|
  {
    es == [] ||
    ((es[0].Direct? || es[0].CommitTx? ==> Ahead(s)) && Guarded(Step(s, es[0]).0, es[1..]))
  }

  // ---------------------------------------------------------------- the invariant

  ghost predicate Tables(s: State) {
    && Sound(Live(s))
    && TableInv(s.nodes, s.commitRevision)
    && TableInv(s.edges, s.commitRevision)
  }

  ghost predicate SessionOk(s: State, x: nat, t: Session) {
    x < s.nextOrdinal && t.startedAt <= s.commitRevision && t.touchedNodes == BatchNodeIds(t.staged)
  }

  ghost predicate Inv(s: State) {
    Tables(s) && forall x | x in s.sessions :: SessionOk(s, x, s.sessions[x])
  }

  lemma NodesCovered(s: State, b: WriteBatch)
    ensures Covers(s.nodes, NodesAfter(s.nodes.live, b), BatchNodeIds(b), BatchNodeIds(b))
  {
    forall k | k !in BatchNodeIds(b) ensures Get(NodesAfter(s.nodes.live, b), k) == Get(s.nodes.live, k) {
      NodesAfterAt(s.nodes.live, b, k);
    }
  }

  lemma EdgesCovered(s: State, b: WriteBatch)
    requires Keyed(Live(s))
    ensures Covers(s.edges, EdgesAfter(s.edges.live, b), EffectEdgeIds(s.edges.live, b), StampedEdgeIds(s.edges, b))
  {
    var touched := EffectEdgeIds(s.edges.live, b);
    forall k | k !in touched ensures Get(EdgesAfter(s.edges.live, b), k) == Get(s.edges.live, k) {
      EdgesAfterAt(s.edges.live, b, k);
      assert k in s.edges.live ==> s.edges.live[k].id == k;
    }
  }

  lemma WriteKeepsTables(s: State, b: WriteBatch, readers: bool)
    requires Tables(s) && Ahead(s) && Accepted(Live(s), b)
    ensures Tables(Written(s, b, readers))
  {
    NodesCovered(s, b);
    EdgesCovered(s, b);
    CommitKeepsTableInv(s.nodes, NodesAfter(s.nodes.live, b), BatchNodeIds(b), BatchNodeIds(b),
                        s.commitRevision, s.nextLsn, s.nextLsn, readers);
    CommitKeepsTableInv(s.edges, EdgesAfter(s.edges.live, b), EffectEdgeIds(s.edges.live, b),
                        StampedEdgeIds(s.edges, b),
                        s.commitRevision, s.nextLsn, s.nextLsn, readers);
    ApplyKeepsSound(Live(s), b);
    assert Live(Written(s, b, readers)) == Apply(Live(s), b);
  }

  /** A write numbered above `R` leaves the graph visible at `R` as it was. */
  lemma WriteKeepsBase(s: State, b: WriteBatch, R: nat)
    requires Tables(s) && R < s.nextLsn
    ensures BaseAt(Written(s, b, true), R) == BaseAt(s, R)
  {
    NodesCovered(s, b);
    EdgesCovered(s, b);
    var after := if s.commitRevision < s.nextLsn then s.nextLsn else s.commitRevision;
    CommitKeepsSnapshot(s.nodes, NodesAfter(s.nodes.live, b), BatchNodeIds(b), BatchNodeIds(b),
                        s.commitRevision, s.nextLsn, after, R);
    CommitKeepsSnapshot(s.edges, EdgesAfter(s.edges.live, b), EffectEdgeIds(s.edges.live, b),
                        StampedEdgeIds(s.edges, b),
                        s.commitRevision, s.nextLsn, after, R);
  }

  lemma BaseAtNowIsLive(s: State)
    requires Tables(s)
    ensures BaseAt(s, s.commitRevision) == Live(s)
  {
    CurrentSnapshotIsLive(s.nodes, s.commitRevision);
    CurrentSnapshotIsLive(s.edges, s.commitRevision);
  }

  // ---------------------------------------------------------------- every step keeps the invariant

  lemma SessionsAfterWrite(s: State, b: WriteBatch, readers: bool, x: nat)
    requires Inv(s) && Ahead(s) && Accepted(Live(s), b)
    requires x in s.sessions && readers
    ensures BaseAt(Written(s, b, readers), s.sessions[x].startedAt) == BaseAt(s, s.sessions[x].startedAt)
    ensures SessionOk(Written(s, b, readers), x, s.sessions[x])
  {
    assert SessionOk(s, x, s.sessions[x]);
    WriteKeepsBase(s, b, s.sessions[x].startedAt);
  }

  lemma WriteKeepsInv(s: State, b: WriteBatch, readers: bool)
    requires Inv(s) && Ahead(s) && Accepted(Live(s), b)
    requires readers || s.sessions == map[]
    ensures Inv(Written(s, b, readers))
  {
    WriteKeepsTables(s, b, readers);
    forall x | x in s.sessions ensures SessionOk(Written(s, b, readers), x, s.sessions[x]) {
      SessionsAfterWrite(s, b, readers, x);
    }
  }

  lemma CloseKeepsInv(s: State)
    requires Inv(s)
    ensures Inv(ClearIfUnused(s))
  {
    if s.sessions == map[] {
      assert Live(ClearIfUnused(s)) == Live(s);
    }
  }

  /** What one step leaves alone: a session that stays open keeps its start graph, its
      touched nodes only grow, a closed session never returns, and lineage never goes back. */
  ghost predicate KeepsBases(s: State, s': State) {
    forall x | x in s.sessions && x in s'.sessions ::
      s'.sessions[x].startedAt == s.sessions[x].startedAt &&
      s.sessions[x].touchedNodes <= s'.sessions[x].touchedNodes &&
      s.sessions[x].touchedEdges <= s'.sessions[x].touchedEdges &&
      BaseAt(s', s.sessions[x].startedAt) == BaseAt(s, s.sessions[x].startedAt)
  }

  ghost predicate NotBefore(a: map<string, nat>, b: map<string, nat>) {
    forall k | k in a :: k in b && a[k] <= b[k]
  }

  ghost predicate Forward(s: State, s': State) {
    && s.nextOrdinal <= s'.nextOrdinal
    && (forall x | x in s'.sessions :: x in s.sessions || s.nextOrdinal <= x < s'.nextOrdinal)
    && NotBefore(s.nodes.lineage, s'.nodes.lineage) && NotBefore(s.edges.lineage, s'.edges.lineage)
  }

  lemma DropKeepsInv(s: State, x: nat)
    requires Inv(s)
    ensures Inv(s.(sessions := s.sessions - {x}))
  {
    var s' := s.(sessions := s.sessions - {x});
    forall y | y in s'.sessions ensures SessionOk(s', y, s'.sessions[y]) {
      assert SessionOk(s, y, s.sessions[y]);
    }
  }

  lemma StampIsForward(lineage: map<string, nat>, stamped: set<string>, revision: nat)
    requires forall k | k in lineage :: lineage[k] <= revision
    ensures NotBefore(lineage, Stamp(lineage, stamped, revision))
  {
  }

  lemma WriteForward(s: State, b: WriteBatch, readers: bool)
    requires Tables(s) && Ahead(s)
    ensures Forward(s, Written(s, b, readers))
  {
    StampIsForward(s.nodes.lineage, BatchNodeIds(b), s.nextLsn);
    StampIsForward(s.edges.lineage, StampedEdgeIds(s.edges, b), s.nextLsn);
  }

  lemma WriteKeepsBases(s: State, b: WriteBatch, readers: bool)
    requires Inv(s) && Ahead(s) && Accepted(Live(s), b)
    requires readers || s.sessions == map[]
    ensures KeepsBases(s, Written(s, b, readers))
  {
    forall x | x in s.sessions
      ensures BaseAt(Written(s, b, readers), s.sessions[x].startedAt) == BaseAt(s, s.sessions[x].startedAt) {
      SessionsAfterWrite(s, b, readers, x);
    }
  }

  /** What every step guarantees. */
  ghost predicate StepOk(s: State, s': State) {
    Inv(s') && KeepsBases(s, s') && Forward(s, s')
  }

  lemma DirectStepOk(s: State, b: WriteBatch)
    requires Inv(s) && Ahead(s)
    ensures StepOk(s, Write(s, b, |s.sessions| > 0).0)
  {
    if Accepted(Live(s), b) {
      WriteKeepsInv(s, b, |s.sessions| > 0);
      WriteKeepsBases(s, b, |s.sessions| > 0);
      WriteForward(s, b, |s.sessions| > 0);
    }
  }

  lemma DropCount<V>(m: map<nat, V>, x: nat)
    requires x in m
    ensures |m| > 1 || m - {x} == map[]
  {
    assert (m - {x}).Keys == m.Keys - {x};
    assert |m.Keys - {x}| == |m.Keys| - 1;
  }

  lemma Compose(s: State, mid: State, s': State)
    requires KeepsBases(s, mid) && Forward(s, mid) && KeepsBases(mid, s') && Forward(mid, s')
    requires s'.sessions.Keys <= mid.sessions.Keys <= s.sessions.Keys
    ensures KeepsBases(s, s') && Forward(s, s')
  {
  }

  /** Steps that touch no table only have to account for the sessions. */
  lemma SameTables(s: State, s': State)
    requires s'.nodes == s.nodes && s'.edges == s.edges && s.nextOrdinal <= s'.nextOrdinal
    requires forall x | x in s'.sessions :: x in s.sessions || s.nextOrdinal <= x < s'.nextOrdinal
    requires forall x | x in s.sessions && x in s'.sessions ::
               s'.sessions[x].startedAt == s.sessions[x].startedAt &&
               s.sessions[x].touchedNodes <= s'.sessions[x].touchedNodes &&
               s.sessions[x].touchedEdges <= s'.sessions[x].touchedEdges
    ensures KeepsBases(s, s') && Forward(s, s')
  {
    forall x | x in s.sessions && x in s'.sessions
      ensures BaseAt(s', s.sessions[x].startedAt) == BaseAt(s, s.sessions[x].startedAt)
    {
    }
  }

  lemma CloseStepOk(s: State)
    requires Inv(s)
    ensures StepOk(s, ClearIfUnused(s))
  {
    CloseKeepsInv(s);
  }

  lemma CommitStepOk(s: State, x: nat)
    requires Inv(s) && Ahead(s) && CommitRefusal(s, x) == None
    ensures StepOk(s, Committed(s, x))
  {
    var b, readers := s.sessions[x].staged, |s.sessions| > 1;
    var others := s.(sessions := s.sessions - {x});
    assert Live(others) == Live(s);
    DropCount(s.sessions, x);
    DropKeepsInv(s, x);
    SameTables(s, others);
    WriteKeepsInv(others, b, readers);
    WriteKeepsBases(others, b, readers);
    WriteForward(others, b, readers);
    var w := Written(others, b, readers);
    CloseStepOk(w);
    Compose(s, others, w);
    Compose(s, w, ClearIfUnused(w));
  }

  lemma AddSession(s: State, t: Session)
    requires Inv(s) && t.startedAt <= s.commitRevision && t.touchedNodes == BatchNodeIds(t.staged)
    ensures StepOk(s, s.(nextOrdinal := s.nextOrdinal + 1, sessions := s.sessions[s.nextOrdinal := t]))
  {
    var s' := s.(nextOrdinal := s.nextOrdinal + 1, sessions := s.sessions[s.nextOrdinal := t]);
    assert s.nextOrdinal !in s.sessions by {
      assert s.nextOrdinal in s.sessions ==> SessionOk(s, s.nextOrdinal, s.sessions[s.nextOrdinal]);
    }
    SameTables(s, s');
    assert Live(s') == Live(s);
    assert SessionOk(s', s.nextOrdinal, t);
    forall x | x in s.sessions ensures SessionOk(s', x, s.sessions[x]) {
      assert SessionOk(s, x, s.sessions[x]);
    }
  }

  lemma BeginStepOk(s: State)
    requires Inv(s)
    ensures StepOk(s, BeginStep(s))
  {
    AddSession(s, FreshSession(s.commitRevision));
  }

  lemma ReplaceSession(s: State, x: nat, t: Session)
    requires Inv(s) && x in s.sessions && SessionOk(s, x, t)
    requires t.startedAt == s.sessions[x].startedAt
    requires s.sessions[x].touchedNodes <= t.touchedNodes && s.sessions[x].touchedEdges <= t.touchedEdges
    ensures StepOk(s, s.(sessions := s.sessions[x := t]))
  {
    var s' := s.(sessions := s.sessions[x := t]);
    SameTables(s, s');
    assert Live(s') == Live(s);
    forall y | y in s'.sessions ensures SessionOk(s', y, s'.sessions[y]) {
      assert SessionOk(s, y, s.sessions[y]);
    }
  }

  lemma StageStepOk(s: State, x: nat, op: Operation)
    requires Inv(s)
    ensures StepOk(s, StageStep(s, x, op).0)
  {
    if x in s.sessions {
      var t := s.sessions[x];
      assert SessionOk(s, x, t);
      match Stage(BaseAt(s, t.startedAt), t, op)
      case Err(_) =>
        DropKeepsInv(s, x);
        SameTables(s, s.(sessions := s.sessions - {x}));
      case Ok(t') =>
        MergedNodeIds(t.staged, op);
        ReplaceSession(s, x, t');
    } else {
      SameTables(s, s);
    }
  }

  lemma RollbackStepOk(s: State, x: nat)
    requires Inv(s)
    ensures StepOk(s, RollbackStep(s, x).0)
  {
    if x in s.sessions {
      var others := s.(sessions := s.sessions - {x});
      DropKeepsInv(s, x);
      SameTables(s, others);
      CloseStepOk(others);
      Compose(s, others, ClearIfUnused(others));
    } else {
      SameTables(s, s);
    }
  }

  lemma RenumberStepOk(s: State, nextLsn: nat)
    requires Inv(s)
    ensures StepOk(s, s.(nextLsn := nextLsn))
  {
    var s' := s.(nextLsn := nextLsn);
    SameTables(s, s');
    assert Live(s') == Live(s);
    forall y | y in s'.sessions ensures SessionOk(s', y, s'.sessions[y]) {
      assert SessionOk(s, y, s.sessions[y]);
    }
  }

  lemma EveryStepOk(s: State, ev: Event)
    requires Inv(s) && (ev.Direct? || ev.CommitTx? ==> Ahead(s))
    ensures StepOk(s, Step(s, ev).0)
  {
    match ev
    case Begin => BeginStepOk(s);
    case StageOp(x, op) => StageStepOk(s, x, op);
    case CommitTx(x) =>
      if CommitRefusal(s, x) == None {
        CommitStepOk(s, x);
      } else {
        SameTables(s, s);
      }
    case Rollback(x) => RollbackStepOk(s, x);
    case Direct(b) => DirectStepOk(s, b);
    case OtherLogRecord => RenumberStepOk(s, s.nextLsn + 1);
    case Compact => RenumberStepOk(s, 1);
  }
}
