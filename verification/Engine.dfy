/** The storage engine object (crates/storage, `StorageEngine`): its methods update the
    tables and sessions in place, exactly as the steps of module Mvcc say. */
module Engine {
  import opened Core
  import opened Versions
  import opened Sessions
  import opened Mvcc
  import opened Isolation

  // ---------------------------------------------------------------- the tables after a batch

  /** The part of `apply_write_batch_with_snapshot_readers` that concerns one table: keep the
      old versions, put in the new maps, stamp the lineage, record the new versions. */
  method CommitTable<V>(t: Table<V>, live: map<string, V>, touched: set<string>, stamped: set<string>, revision: nat,
                        readers: bool)
    returns (r: Table<V>)
    ensures r == Commit(t, live, touched, stamped, revision, readers)
  {
    var versions := t.versions;
    if readers {
      versions := PreserveHistoricalVersions(t, touched);
    }
    var lineage := UpdateLineage(t.lineage, stamped, revision);
    if readers {
      versions := RecordVersionsAfterCommit(versions, touched, live, revision);
    }
    r := Table(live, lineage, versions);
  }

  /** The tables after an accepted batch. */
  method WriteTables(nodes: Table<NodeRecord>, edges: Table<EdgeRecord>, b: WriteBatch, revision: nat, readers: bool)
    returns (nodes': Table<NodeRecord>, edges': Table<EdgeRecord>)
    ensures nodes' == Commit(nodes, NodesAfter(nodes.live, b), BatchNodeIds(b), BatchNodeIds(b), revision, readers)
    ensures edges' == Commit(edges, EdgesAfter(edges.live, b), EffectEdgeIds(edges.live, b), StampedEdgeIds(edges, b),
                             revision, readers)
  {
    var after := ApplyBatchToMaps(Graph(nodes.live, edges.live), b);
    nodes' := CommitTable(nodes, after.nodes, BatchNodeIds(b), BatchNodeIds(b), revision, readers);
    edges' := CommitTable(edges, after.edges, EffectEdgeIds(edges.live, b), StampedEdgeIds(edges, b), revision,
                          readers);
  }

  /** Every stored key at one revision, without history. */
  function Rebuilt<V>(live: map<string, V>, revision: nat): Table<V> {
    Table(live, map k | k in live :: revision, map[])
  }

  function Opened(g: Graph, revision: nat, nextLsn: nat): State {
    State(Rebuilt(g.nodes, revision), Rebuilt(g.edges, revision), revision, nextLsn, 1, map[])
  }

  /** A recovered engine starts with every session and history invariant in place. */
  lemma OpenedInv(g: Graph, revision: nat, nextLsn: nat)
    requires Sound(g)
    ensures Inv(Opened(g, revision, nextLsn)) && Live(Opened(g, revision, nextLsn)) == g
  {
  }

  /** From a recovered sound graph whose numbering is ahead, every run without a compaction
      keeps the invariant, graph integrity included, and all open sessions consistent. */
  lemma EveryRunFromOpen(g: Graph, revision: nat, nextLsn: nat, es: seq<Event>)
    requires Sound(g) && nextLsn > revision && forall ev | ev in es :: !ev.Compact?
    ensures var s := Run(Opened(g, revision, nextLsn), es);
            Inv(s) && Sound(Live(s)) && Consistent(s) && Ahead(s)
  {
    var s := Opened(g, revision, nextLsn);
    OpenedInv(g, revision, nextLsn);
    RunWithoutCompactionIsGuarded(s, es);
    RunKeepsInv(s, es);
    RunKeepsConsistent(s, es);
  }

  /** Why a commit is refused, looked up key by key. */
  method AnyChangedSince(lineage: map<string, nat>, ids: set<string>, revision: nat) returns (r: bool)
    ensures r == ChangedSince(lineage, ids, revision)
  {
    r := false;
    var rest := ids;
    while rest != {}
      invariant rest <= ids
      invariant forall k | k in ids && k !in rest :: !(k in lineage && lineage[k] > revision)
    {
      var k :| k in rest;
      if k in lineage && lineage[k] > revision {
        return true;
      }
      rest := rest - {k};
    }
  }

  method CheckCommit(s: State, x: nat) returns (r: Option<Error>)
    ensures r == CommitRefusal(s, x)
  {
    if x !in s.sessions {
      return Some(NotFound);
    }
    var t := s.sessions[x];
    var stale := AnyChangedSince(s.nodes.lineage, t.touchedNodes, t.startedAt);
    if stale {
      return Some(Conflict);
    }
    stale := AnyChangedSince(s.edges.lineage, t.touchedEdges, t.startedAt);
    if stale {
      return Some(Conflict);
    }
    r := if Accepted(Live(s), t.staged) then None else Some(Validation);
  }

  lemma TakenOutAndPutBack(m: map<nat, Session>, x: nat, t: Session)
    ensures (m - {x})[x := t] == m[x := t]
  {
  }

  // ---------------------------------------------------------------- the engine

  class StorageEngine {
    var nodes: Table<NodeRecord>
    var edges: Table<EdgeRecord>
    var commitRevision: nat
    var nextLsn: nat
    var nextOrdinal: nat
    var transactions: map<nat, Session>

    function Value(): State
      reads this
    {
      State(nodes, edges, commitRevision, nextLsn, nextOrdinal, transactions)
    }

    /** `rebuild_lineage` on a recovered graph. */
    constructor (g: Graph, revision: nat, nextLsn: nat)
      ensures Value() == Opened(g, revision, nextLsn)
      ensures nodes.live == g.nodes && nodes.lineage.Keys == g.nodes.Keys && nodes.versions == map[]
      ensures edges.live == g.edges && edges.lineage.Keys == g.edges.Keys && edges.versions == map[]
      ensures forall k | k in g.nodes :: nodes.lineage[k] == revision
      ensures forall k | k in g.edges :: edges.lineage[k] == revision
      ensures commitRevision == revision && this.nextLsn == nextLsn && transactions == map[]
    {
      nodes, edges := Rebuilt(g.nodes, revision), Rebuilt(g.edges, revision);
      commitRevision, this.nextLsn, nextOrdinal, transactions := revision, nextLsn, 1, map[];
    }

    method ApplyWithReaders(b: WriteBatch, readers: bool) returns (r: Result<nat>)
      modifies this
      ensures (Value(), r) == Write(old(Value()), b, readers)
    {
      if !Accepted(Graph(nodes.live, edges.live), b) {
        return Err(Validation);
      }
      nodes, edges := WriteTables(nodes, edges, b, nextLsn, readers);
      commitRevision := nextLsn;
      nextLsn := nextLsn + 1;
      r := Ok(commitRevision);
    }

    /** `apply_write_batch`. */
    method ApplyWriteBatch(b: WriteBatch) returns (r: Result<nat>)
      modifies this
      ensures (Value(), r) == Step(old(Value()), Direct(b))
      ensures r.Ok? <==> Accepted(old(Live(Value())), b)
      ensures r.Ok? ==> r.value == commitRevision == old(nextLsn) && nextLsn == old(nextLsn) + 1
      ensures r.Ok? ==> Live(Value()) == Apply(old(Live(Value())), b) && transactions == old(transactions)
      ensures r.Err? ==> r.error == Validation && Value() == old(Value())
    {
      r := ApplyWithReaders(b, |transactions| > 0);
    }

    method BeginTransaction() returns (x: nat)
      modifies this
      ensures (Value(), Ok(x)) == Step(old(Value()), Begin)
      ensures Inv(old(Value())) ==> x !in old(transactions)
      ensures transactions ==
              old(transactions)[x := Session(commitRevision, map[], map[], WriteBatch([], [], [], []), {}, {})]
      ensures Live(Value()) == old(Live(Value())) && commitRevision == old(commitRevision) && nextLsn == old(nextLsn)
    {
      assert Inv(Value()) && nextOrdinal in transactions ==>
          SessionOk(Value(), nextOrdinal, transactions[nextOrdinal]);
      x := nextOrdinal;
      nextOrdinal := nextOrdinal + 1;
      transactions := transactions[x := FreshSession(commitRevision)];
    }

    /** `stage_transaction_operation`: the session is taken out first, and put back only if
        the operation is staged. */
    method StageOperation(x: nat, op: Operation) returns (r: Result<nat>)
      modifies this
      ensures (Value(), r) == Step(old(Value()), StageOp(x, op))
      ensures r.Ok? <==>
              && x in old(transactions)
              && (op.UpsertEdge? ==> old(Sees(x, op.edge.source) && Sees(x, op.edge.target)))
      ensures r.Ok? ==> r.value == x && x in transactions && transactions == old(transactions)[x := transactions[x]]
      ensures r.Err? ==> transactions == old(transactions) - {x}
      ensures r.Err? ==> r.error == if x in old(transactions) then Validation else NotFound
      ensures Value().(sessions := map[]) == old(Value().(sessions := map[]))
    {
      if x !in transactions {
        return Err(NotFound);
      }
      var base, session := BaseAt(Value(), transactions[x].startedAt), transactions[x];
      transactions := transactions - {x};
      var staged := Stage(base, session, op);
      if staged.Err? {
        return Err(staged.error);
      }
      TakenOutAndPutBack(old(transactions), x, staged.value);
      transactions := transactions[x := staged.value];
      r := Ok(x);
    }

    /** An open transaction sees a node: it has an override that is a record, or none and the node
        was stored when it began. */
    function Sees(x: nat, n: NodeId): bool
      reads this
      requires x in transactions
    {
      n in View(BaseAt(Value(), transactions[x].startedAt), transactions[x]).nodes
    }

    method ClearHistoryIfUnused()
      modifies this
      ensures Value() == ClearIfUnused(old(Value()))
    {
      if transactions == map[] {
        nodes, edges := nodes.(versions := map[]), edges.(versions := map[]);
      }
    }

    /** `commit_transaction`. */
    method CommitTransaction(x: nat) returns (r: Result<nat>)
      modifies this
      ensures (Value(), r) == Step(old(Value()), CommitTx(x))
      ensures r.Ok? ==> x in old(transactions) && transactions == old(transactions) - {x}
      ensures r.Ok? ==> r.value == commitRevision == old(nextLsn) && nextLsn == old(nextLsn) + 1
      ensures r.Ok? ==> Live(Value()) == Apply(old(Live(Value())), old(transactions)[x].staged)
      ensures r.Err? ==> Value() == old(Value()) && (r.error == NotFound <==> x !in transactions)
    {
      var refusal := CheckCommit(Value(), x);
      if refusal.Some? {
        return Err(refusal.value);
      }
      r := ApplyWithReaders(transactions[x].staged, |transactions| > 1);
      transactions := transactions - {x};
      ClearHistoryIfUnused();
    }

    /** `rollback_transaction`. */
    method RollbackTransaction(x: nat) returns (r: Result<nat>)
      modifies this
      ensures (Value(), r) == Step(old(Value()), Rollback(x))
      ensures r == if x in old(transactions) then Ok(x) else Err(NotFound)
      ensures transactions == old(transactions) - {x} && Live(Value()) == old(Live(Value()))
      ensures nodes.lineage == old(nodes.lineage) && edges.lineage == old(edges.lineage)
      ensures commitRevision == old(commitRevision) && nextLsn == old(nextLsn) && nextOrdinal == old(nextOrdinal)
      ensures x in old(transactions) && transactions == map[] ==> nodes.versions == map[] && edges.versions == map[]
      ensures x !in old(transactions) || transactions != map[] ==> nodes == old(nodes) && edges == old(edges)
    {
      if x !in transactions {
        return Err(NotFound);
      }
      transactions := transactions - {x};
      ClearHistoryIfUnused();
      r := Ok(x);
    }

    /** `transaction_snapshot`. */
    method TransactionSnapshot(x: nat) returns (r: Result<Graph>)
      ensures r == if x !in transactions then Err(NotFound)
                   else Ok(Graph(Snapshot(nodes, transactions[x].nodeOverrides, transactions[x].startedAt),
                                 Snapshot(edges, transactions[x].edgeOverrides, transactions[x].startedAt)))
    {
      if x !in transactions {
        return Err(NotFound);
      }
      var t := transactions[x];
      var n := BuildSnapshot(nodes, t.nodeOverrides, t.startedAt);
      var e := BuildSnapshot(edges, t.edgeOverrides, t.startedAt);
      r := Ok(Graph(n, e));
    }
  }
}
