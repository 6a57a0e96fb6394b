/** Recovery after every run of the durability protocol. */
module Recovery {
  import opened Core
  import opened Log
  import opened Durability

  // ---------------------------------------------------------------- log arithmetic

  ghost predicate AllAbove(entries: seq<Entry>, lsn: nat) {
    forall i | 0 <= i < |entries| :: entries[i].lsn > lsn
  }

  ghost predicate NoneAbove(entries: seq<Entry>, lsn: nat) {
    forall i | 0 <= i < |entries| :: entries[i].lsn <= lsn
  }

  lemma {:induction false} AboveAll(entries: seq<Entry>, lsn: nat)
    requires AllAbove(entries, lsn)
    ensures Above(entries, lsn) == entries
  {
    if entries != [] {
      AboveAll(entries[..|entries| - 1], lsn);
    }
  }

  lemma {:induction false} AboveNone(entries: seq<Entry>, lsn: nat)
    requires NoneAbove(entries, lsn)
    ensures Above(entries, lsn) == []
  {
    if entries != [] {
      AboveNone(entries[..|entries| - 1], lsn);
    }
  }

  lemma {:induction false} AboveIsAbove(entries: seq<Entry>, lsn: nat)
    ensures AllAbove(Above(entries, lsn), lsn)
    ensures forall e | e in Above(entries, lsn) :: e in entries
  {
    if entries != [] {
      AboveIsAbove(entries[..|entries| - 1], lsn);
    }
  }

  lemma {:induction false} AboveSubset(entries: seq<Entry>, lsn: nat)
    ensures |Above(entries, lsn)| <= |entries|
    ensures |Above(entries, lsn)| == |entries| ==> AllAbove(entries, lsn)
  {
    if entries != [] {
      AboveSubset(entries[..|entries| - 1], lsn);
    }
  }

  lemma AboveTwice(entries: seq<Entry>, lsn: nat)
    ensures Above(Above(entries, lsn), lsn) == Above(entries, lsn)
  {
    AboveIsAbove(entries, lsn);
    AboveAll(Above(entries, lsn), lsn);
  }

  lemma AboveSnoc(entries: seq<Entry>, e: Entry, lsn: nat)
    ensures Above(entries + [e], lsn) == if e.lsn > lsn then Above(entries, lsn) + [e] else Above(entries, lsn)
  {
    assert (entries + [e])[..|entries|] == entries;
  }

  /** The entries are numbered in rising order, below a bound. */
  ghost predicate RisingBelow(entries: seq<Entry>, bound: nat) {
    entries == [] ||
    (entries[|entries| - 1].lsn < bound && RisingBelow(entries[..|entries| - 1], entries[|entries| - 1].lsn))
  }

  lemma {:induction false} RisingHigher(entries: seq<Entry>, bound: nat, more: nat)
    requires RisingBelow(entries, bound) && bound <= more
    ensures RisingBelow(entries, more)
  {
  }

  lemma RisingSnoc(entries: seq<Entry>, e: Entry)
    requires RisingBelow(entries, e.lsn)
    ensures RisingBelow(entries + [e], e.lsn + 1)
  {
    assert (entries + [e])[..|entries|] == entries;
  }

  lemma {:induction false} AboveRising(entries: seq<Entry>, lsn: nat, bound: nat)
    requires RisingBelow(entries, bound)
    ensures RisingBelow(Above(entries, lsn), bound)
  {
    if entries != [] {
      var front, last := entries[..|entries| - 1], entries[|entries| - 1];
      AboveRising(front, lsn, last.lsn);
      if last.lsn > lsn {
        assert (Above(front, lsn) + [last])[..|Above(front, lsn)|] == Above(front, lsn);
      } else {
        RisingHigher(Above(front, lsn), last.lsn, bound);
      }
    }
  }

  lemma {:induction false} RisingAllBelow(entries: seq<Entry>, bound: nat, lsn: nat)
    requires RisingBelow(entries, bound) && bound <= lsn + 1
    ensures NoneAbove(entries, lsn)
  {
    if entries != [] {
      RisingAllBelow(entries[..|entries| - 1], entries[|entries| - 1].lsn, lsn);
    }
  }

  /** Of rising entries, those at or below a number come first. */
  function Below(entries: seq<Entry>, lsn: nat): seq<Entry> {
    if entries == [] then []
    else
      var front, last := Below(entries[..|entries| - 1], lsn), entries[|entries| - 1];
      if last.lsn > lsn then front else front + [last]
  }

  lemma {:induction false} RisingSplits(entries: seq<Entry>, bound: nat, lsn: nat)
    requires RisingBelow(entries, bound)
    ensures entries == Below(entries, lsn) + Above(entries, lsn)
  {
    if entries != [] {
      var front, last := entries[..|entries| - 1], entries[|entries| - 1];
      RisingSplits(front, last.lsn, lsn);
      if last.lsn <= lsn {
        RisingAllBelow(front, last.lsn, lsn);
        AboveNone(front, lsn);
      }
      assert entries == front + [last];
    }
  }

  lemma WalSnoc(wal: seq<WalRecord>, r: WalRecord)
    ensures WalEntries(wal + [r]) ==
            if r.BatchRecord? then WalEntries(wal) + [Entry(r.lsn, r.batch)] else WalEntries(wal)
  {
    assert (wal + [r])[..|wal|] == wal;
  }

  lemma BatchesSnoc(entries: seq<Entry>, e: Entry)
    ensures Batches(entries + [e]) == Batches(entries) + [e.batch]
  {
    assert (entries + [e])[..|entries|] == entries;
  }

  lemma {:induction false} BatchesConcat(a: seq<Entry>, b: seq<Entry>)
    ensures Batches(a + b) == Batches(a) + Batches(b)
  {
    if b == [] {
      assert a + b == a;
    } else {
      assert (a + b)[..|a + b| - 1] == a + b[..|b| - 1];
      BatchesConcat(a, b[..|b| - 1]);
    }
  }

  lemma {:induction false} BatchesLength(entries: seq<Entry>)
    ensures |Batches(entries)| == |entries|
    ensures forall b | b in Batches(entries) :: exists e :: e in entries && e.batch == b
    ensures forall e | e in entries :: e.batch in Batches(entries)
  {
    if entries != [] {
      BatchesLength(entries[..|entries| - 1]);
      assert entries == entries[..|entries| - 1] + [entries[|entries| - 1]];
    }
  }

  lemma DeltaSnoc(deltas: seq<Delta>, d: Delta)
    ensures DeltaBatches(deltas + [d]) == DeltaBatches(deltas) + Batches(d.entries)
  {
    assert (deltas + [d])[..|deltas|] == deltas;
  }

  /** The log is numbered without gaps, from a positive number. */
  ghost predicate Contiguous(wal: seq<WalRecord>) {
    forall i | 0 <= i < |wal| :: wal[i].lsn == wal[0].lsn + i && wal[0].lsn >= 1
  }

  lemma {:induction false} WalEntriesBelow(wal: seq<WalRecord>, lsn: nat)
    requires forall i | 0 <= i < |wal| :: wal[i].lsn <= lsn
    ensures NoneAbove(WalEntries(wal), lsn)
  {
    if wal != [] {
      WalEntriesBelow(wal[..|wal| - 1], lsn);
    }
  }

  lemma ContiguousFront(wal: seq<WalRecord>)
    requires Contiguous(wal) && wal != []
    ensures Contiguous(wal[..|wal| - 1])
    ensures |wal| > 1 ==> NextLsn(wal[..|wal| - 1]) == wal[|wal| - 1].lsn
  {
    var last := |wal| - 1;
    assert wal[last].lsn == wal[0].lsn + last;
    assert last > 0 ==> wal[last - 1].lsn == wal[0].lsn + (last - 1);
  }

  lemma {:induction false} WalEntriesRising(wal: seq<WalRecord>)
    requires Contiguous(wal)
    ensures RisingBelow(WalEntries(wal), NextLsn(wal))
  {
    if wal != [] {
      var front, last := wal[..|wal| - 1], wal[|wal| - 1];
      ContiguousFront(wal);
      WalEntriesRising(front);
      if front != [] {
        RisingHigher(WalEntries(front), NextLsn(front), last.lsn);
      }
      if last.BatchRecord? {
        RisingSnoc(WalEntries(front), Entry(last.lsn, last.batch));
      } else {
        RisingHigher(WalEntries(front), last.lsn, NextLsn(wal));
      }
    }
  }

  // ---------------------------------------------------------------- the invariant

  ghost predicate StrayOk(f: Files, history: seq<WriteBatch>) {
    && (f.nodes.Some? ==> f.nodes.value.Keys <= UpsertedNodes(history))
    && (f.edges.Some? ==> f.edges.value.Keys <= UpsertedEdges(history))
  }

  ghost function Pending(w: World): seq<Entry> {
    if w.mem.Some? then w.mem.value.pending else Tail(w.disk)
  }

  /** The published batches plus those pending are the whole history. What is published was
      accepted in its order; so was the whole history while the engine runs. */
  ghost predicate HistoryKept(w: World) {
    && WellFormed(w.history) && w.base <= |w.history|
    && w.history == Settled(w) + Batches(Pending(w))
    && (forall d | d in w.disk.manifest.deltas :: d in w.disk.deltaFiles)
    && AcceptedLog(EMPTY_GRAPH, Settled(w))
    && (w.mem.Some? || w.disk.manifest.snapshot.None? ==> AcceptedLog(EMPTY_GRAPH, w.history))
  }

  /** Before the first compaction is published, whatever base files exist are leftovers of a
      torn one; afterwards the listed snapshot is the graph of the first `base` batches. */
  ghost predicate BaseKept(w: World) {
    match w.disk.manifest.snapshot
    case None =>
      && w.base == 0
      && StrayOk(w.disk.files, w.history)
      && AllAbove(Pending(w), ManifestLsn(w.disk.manifest))
      && (w.mem.Some? ==> w.mem.value.nextLsn > ManifestLsn(w.disk.manifest))
    case Some(s) =>
      && w.base <= |w.history| && s == FilesOf(Fold(EMPTY_GRAPH, w.history[..w.base]))
      && w.disk.files.nodes.Some? && w.disk.files.edges.Some? && w.disk.files.vectors.Some?
  }

  predicate Rewriting(p: Phase) {
    p.NodesWritten? || p.EdgesWritten? || p.VectorsWritten?
  }

  /** A compaction overwrites the base files one by one. */
  ghost predicate FilesKept(d: Disk, m: Memory) {
    && (Rewriting(m.phase) ==> d.files.nodes == FilesOf(m.graph).nodes)
    && (m.phase.EdgesWritten? || m.phase.VectorsWritten? ==> d.files.edges == FilesOf(m.graph).edges)
    && (m.phase.VectorsWritten? ==> d.files.vectors == FilesOf(m.graph).vectors)
    && (d.manifest.snapshot.Some? ==> UnwrittenKept(d.files, d.manifest.snapshot.value, m.phase))
  }

  /** The files that a compaction has not reached yet are the listed ones. */
  ghost predicate UnwrittenKept(f: Files, listed: Files, p: Phase) {
    && (!Rewriting(p) ==> f.nodes == listed.nodes)
    && (!p.EdgesWritten? && !p.VectorsWritten? ==> f.edges == listed.edges)
    && (!p.VectorsWritten? ==> f.vectors == listed.vectors)
  }

  ghost predicate MemoryKept(d: Disk, m: Memory, history: seq<WriteBatch>) {
    && m.graph == Fold(EMPTY_GRAPH, history)
    && m.nextLsn >= 1
    && Tail(d) == Above(m.pending, ManifestLsn(d.manifest))
    && RisingBelow(m.pending, m.nextLsn)
    && (m.phase.Truncating? ==> d.manifest.snapshot.Some? && d.manifest.deltas == [] && ManifestLsn(d.manifest) >= 1)
    && (!m.phase.Idle? && !m.phase.Truncating? ==> d.wal != [])
    && (m.phase.Truncating? ==> m.pending == [])
    && (m.phase.Truncating? ==> forall i | 0 <= i < |d.wal| :: d.wal[i].lsn <= ManifestLsn(d.manifest))
    && (!m.phase.Truncating? ==> m.nextLsn == NextLsn(d.wal))
    && (m.phase.DeltaWritten? && m.pending != [] ==> PendingDelta(m) in d.deltaFiles)
    && FilesKept(d, m)
  }

  ghost predicate Inv(w: World) {
    && Contiguous(w.disk.wal)
    && HistoryKept(w)
    && BaseKept(w)
    && (w.mem.Some? ==> MemoryKept(w.disk, w.mem.value, w.history))
    && (w.mem.None? && w.disk.manifest.snapshot.None? ==> NextLsn(w.disk.wal) > ManifestLsn(w.disk.manifest))
  }

  // ---------------------------------------------------------------- what recovery refuses

  lemma {:induction false} MissingDeltaFails(g: Graph, deltas: seq<Delta>, present: set<Delta>)
    requires exists x :: x in deltas && x !in present
    ensures ReplayDeltas(g, deltas, present).Err?
  {
    var last := |deltas| - 1;
    assert deltas == deltas[..last] + [deltas[last]];
    if deltas[last] in present {
      var x :| x in deltas && x !in present;
      assert x in deltas[..last];
      MissingDeltaFails(g, deltas[..last], present);
    }
  }

  lemma MissingDeltaIsRefused(d: Disk, x: Delta)
    requires x in d.manifest.deltas && x !in d.deltaFiles
    ensures Reopen(d).Err?
  {
    MissingDeltaFails(BaseGraph(d.files), d.manifest.deltas, d.deltaFiles);
  }

  // ---------------------------------------------------------------- what recovery finds

  lemma AttachRestores(nodes: map<NodeId, NodeRecord>)
    ensures Attach(Bare(nodes), VectorsOf(nodes)) == nodes
  {
    var a := Attach(Bare(nodes), VectorsOf(nodes));
    forall k | k in nodes ensures a[k] == nodes[k] {
    }
  }

  lemma BaseGraphRestores(g: Graph)
    ensures BaseGraph(FilesOf(g)) == g
  {
    AttachRestores(g.nodes);
  }

  lemma {:induction false} ReplayDeltasIsReplay(g: Graph, deltas: seq<Delta>, present: set<Delta>)
    requires forall d | d in deltas :: d in present
    ensures ReplayDeltas(g, deltas, present) == Replay(g, DeltaBatches(deltas))
  {
    if deltas != [] {
      var front, last := deltas[..|deltas| - 1], deltas[|deltas| - 1];
      ReplayDeltasIsReplay(g, front, present);
      ReplayConcat(g, DeltaBatches(front), Batches(last.entries));
    }
  }

  /** Recovery is one replay of the listed deltas and the tail over the base files. */
  lemma ReopenIsOneReplay(d: Disk)
    requires ChecksumsMatch(d)
    requires forall x | x in d.manifest.deltas :: x in d.deltaFiles
    ensures var r := Replay(BaseGraph(d.files), DeltaBatches(d.manifest.deltas) + Batches(Tail(d)));
            Reopen(d) == match r { case Err(e) => Err(e) case Ok(g) => Ok(Memory(g, Tail(d), NextLsn(d.wal), Idle)) }
  {
    ReplayDeltasIsReplay(BaseGraph(d.files), d.manifest.deltas, d.deltaFiles);
    ReplayConcat(BaseGraph(d.files), DeltaBatches(d.manifest.deltas), Batches(Tail(d)));
  }

  /** A store whose deltas are there and whose batches validate does not open exactly if a base file
      is present with other content than the listed one; an absent file is no reason. */
  lemma DamageIsRefusedIff(d: Disk, s: Files)
    requires d.manifest.snapshot == Some(s) && forall x | x in d.manifest.deltas :: x in d.deltaFiles
    requires Replay(BaseGraph(d.files), DeltaBatches(d.manifest.deltas) + Batches(Tail(d))).Ok?
    ensures var damaged := || (d.files.nodes.Some? && d.files.nodes != s.nodes)
                           || (d.files.edges.Some? && d.files.edges != s.edges)
                           || (d.files.vectors.Some? && d.files.vectors != s.vectors);
            if damaged then Reopen(d) == Err(Corruption) else Reopen(d).Ok?
  {
    if ChecksumsMatch(d) {
      ReopenIsOneReplay(d);
    }
  }

  lemma FreshReplay(w: World)
    requires HistoryKept(w) && BaseKept(w) && w.disk.manifest.snapshot.None?
    ensures Replay(BaseGraph(w.disk.files), w.history) == Ok(Fold(EMPTY_GRAPH, w.history))
  {
    ReplayNeverRejects(EMPTY_GRAPH, w.history);
    HistoryForgetsStart(BaseGraph(w.disk.files), w.history);
  }

  lemma BaseIsFold(w: World)
    requires BaseKept(w) && w.disk.manifest.snapshot.Some? && ChecksumsMatch(w.disk)
    ensures BaseGraph(w.disk.files) == Fold(EMPTY_GRAPH, w.history[..w.base])
  {
    BaseGraphRestores(Fold(EMPTY_GRAPH, w.history[..w.base]));
  }

  lemma ReplayFromFold(base: seq<WriteBatch>, more: seq<WriteBatch>)
    requires AcceptedLog(EMPTY_GRAPH, base)
    ensures Replay(Fold(EMPTY_GRAPH, base), more) == Replay(EMPTY_GRAPH, base + more)
  {
    ReplayNeverRejects(EMPTY_GRAPH, base);
    ReplayConcat(EMPTY_GRAPH, base, more);
  }

  lemma Regroup<T>(a: seq<T>, b: seq<T>, c: seq<T>)
    ensures (a + b) + c == a + (b + c) && (a + b)[..|a|] == a
  {
  }

  lemma ReplayFromBase(base: seq<WriteBatch>, deltas: seq<WriteBatch>, more: seq<WriteBatch>)
    requires AcceptedLog(EMPTY_GRAPH, base + deltas)
    ensures Replay(Fold(EMPTY_GRAPH, base), deltas + more) == Replay(EMPTY_GRAPH, (base + deltas) + more)
  {
    Regroup(base, deltas, more);
    AcceptedPrefix(EMPTY_GRAPH, base + deltas, |base|);
    ReplayFromFold(base, deltas + more);
  }

  lemma BasedReplay(w: World, more: seq<WriteBatch>)
    requires HistoryKept(w) && BaseKept(w) && w.disk.manifest.snapshot.Some? && ChecksumsMatch(w.disk)
    ensures Replay(BaseGraph(w.disk.files), DeltaBatches(w.disk.manifest.deltas) + more) ==
            Replay(EMPTY_GRAPH, Settled(w) + more)
  {
    BaseIsFold(w);
    ReplayFromBase(w.history[..w.base], DeltaBatches(w.disk.manifest.deltas), more);
  }

  lemma TailIsPendingAbove(w: World)
    requires Inv(w)
    ensures Tail(w.disk) == Above(Pending(w), ManifestLsn(w.disk.manifest))
  {
    AboveTwice(WalEntries(w.disk.wal), ManifestLsn(w.disk.manifest));
  }

  lemma FirstBaseSurvives(w: World)
    requires Inv(w) && w.disk.manifest.snapshot.None?
    ensures Survived(w) == w.history && w.history == DeltaBatches(w.disk.manifest.deltas) + Batches(Tail(w.disk))
  {
    TailIsPendingAbove(w);
    AboveAll(Pending(w), ManifestLsn(w.disk.manifest));
    assert w.history[..0] + DeltaBatches(w.disk.manifest.deltas) == DeltaBatches(w.disk.manifest.deltas);
  }

  /** What a crash at any moment leaves: reopening is the validated replay of the published
      batches and of the pending ones numbered above the manifest; only if a listed file was
      overwritten is corruption reported instead. */
  lemma ReopenReplaysSurvivors(w: World)
    requires Inv(w)
    ensures !ChecksumsMatch(w.disk) ==> Reopen(w.disk) == Err(Corruption)
    ensures ChecksumsMatch(w.disk) ==>
              Reopen(w.disk) == match Replay(EMPTY_GRAPH, Survived(w))
                case Err(e) => Err(e)
                case Ok(g) => Ok(Memory(g, Tail(w.disk), NextLsn(w.disk.wal), Idle))
  {
    if ChecksumsMatch(w.disk) {
      ReopenIsOneReplay(w.disk);
      if w.disk.manifest.snapshot.None? {
        FirstBaseSurvives(w);
        FreshReplay(w);
        ReplayNeverRejects(EMPTY_GRAPH, w.history);
      } else {
        BasedReplay(w, Batches(Tail(w.disk)));
      }
    }
  }

  /** Every pending batch is numbered above the manifest. */
  ghost predicate Recoverable(w: World) {
    AllAbove(Pending(w), ManifestLsn(w.disk.manifest))
  }

  /** A crash costs no batch exactly when every pending one is numbered above the manifest. */
  lemma NothingIsLostIff(w: World)
    requires Inv(w)
    ensures Survived(w) == w.history <==> Recoverable(w)
  {
    var pending, lsn := Pending(w), ManifestLsn(w.disk.manifest);
    TailIsPendingAbove(w);
    if Recoverable(w) {
      AboveAll(pending, lsn);
    }
    BatchesLength(pending);
    BatchesLength(Above(pending, lsn));
    AboveSubset(pending, lsn);
  }

  /** Crash-recovery equivalence: while nothing pending is skipped, reopening gives the
      in-order application of all accepted batches, which is the running graph. */
  lemma RecoveryEquivalence(w: World)
    requires Inv(w) && w.mem.Some? && Recoverable(w) && ChecksumsMatch(w.disk)
    ensures Reopen(w.disk) ==
            Ok(Memory(Fold(EMPTY_GRAPH, w.history), w.mem.value.pending, NextLsn(w.disk.wal), Idle))
    ensures w.mem.value.graph == Fold(EMPTY_GRAPH, w.history)
  {
    ReopenReplaysSurvivors(w);
    NothingIsLostIff(w);
    ReplayNeverRejects(EMPTY_GRAPH, w.history);
    TailIsPendingAbove(w);
    AboveAll(w.mem.value.pending, ManifestLsn(w.disk.manifest));
  }

  // ---------------------------------------------------------------- the exact conditions

  /** Reopening would give the graph that is running. */
  predicate ReopensAsRunning(w: World)
    requires w.mem.Some?
  {
    Reopen(w.disk).Ok? && Reopen(w.disk).value.graph == w.mem.value.graph
  }

  /** The pending batches that recovery skips. */
  function Skipped(w: World): seq<WriteBatch>
    requires w.mem.Some?
  {
    Batches(Below(w.mem.value.pending, ManifestLsn(w.disk.manifest)))
  }

  lemma HistorySplits(w: World)
    requires Inv(w) && w.mem.Some?
    ensures w.history == Settled(w) + (Skipped(w) + Batches(Tail(w.disk)))
  {
    var m, lsn := w.mem.value, ManifestLsn(w.disk.manifest);
    RisingSplits(m.pending, m.nextLsn, lsn);
    BatchesConcat(Below(m.pending, lsn), Above(m.pending, lsn));
  }

  /** A running store reopens as it is exactly when no batch that recovery keeps needs a node
      which only skipped batches provide, and the kept batches name or remove every record on
      which the skipped ones matter. */
  lemma ReopensAsRunningIff(w: World)
    requires Inv(w) && w.mem.Some? && ChecksumsMatch(w.disk)
    ensures var published, kept := Fold(EMPTY_GRAPH, Settled(w)), Batches(Tail(w.disk));
            ReopensAsRunning(w) <==>
            Provided(published, kept) && Settles(published, Fold(published, Skipped(w)), kept)
  {
    var published, kept := Fold(EMPTY_GRAPH, Settled(w)), Batches(Tail(w.disk));
    ReopenReplaysSurvivors(w);
    ReplayConcat(EMPTY_GRAPH, Settled(w), kept);
    ReplayNeverRejects(EMPTY_GRAPH, Settled(w));
    KeptAfterSkipped(w);
    ReplaysElsewhereIff(Fold(published, Skipped(w)), published, kept);
    FoldsAgreeIff(published, Fold(published, Skipped(w)), kept);
    if Replay(published, kept).Ok? {
      ReplayIsFold(published, kept);
    }
  }

  lemma KeptAfterSkipped(w: World)
    requires Inv(w) && w.mem.Some?
    ensures var published, kept := Fold(EMPTY_GRAPH, Settled(w)), Batches(Tail(w.disk));
            && AcceptedLog(Fold(published, Skipped(w)), kept)
            && w.mem.value.graph == Fold(Fold(published, Skipped(w)), kept)
  {
    var kept := Batches(Tail(w.disk));
    HistorySplits(w);
    AcceptedSuffix(EMPTY_GRAPH, Settled(w), Skipped(w) + kept);
    AcceptedSuffix(Fold(EMPTY_GRAPH, Settled(w)), Skipped(w), kept);
    FoldConcat(EMPTY_GRAPH, Settled(w), Skipped(w) + kept);
    FoldConcat(Fold(EMPTY_GRAPH, Settled(w)), Skipped(w), kept);
  }

  /** The rewritten files differ from those that the manifest lists. */
  predicate Overwritten(w: World)
    requires w.mem.Some?
  {
    var m, p := FilesOf(w.mem.value.graph), w.mem.value.phase;
    match w.disk.manifest.snapshot
    case None => false
    case Some(listed) =>
      || (Rewriting(p) && m.nodes != listed.nodes)
      || ((p.EdgesWritten? || p.VectorsWritten?) && m.edges != listed.edges)
      || (p.VectorsWritten? && m.vectors != listed.vectors)
  }

  /** A crash makes the store report corruption exactly inside a compaction that is not the
      first, once a file it has rewritten differs from the listed one. */
  lemma CorruptedIff(w: World)
    requires Inv(w) && w.mem.Some?
    ensures Reopen(w.disk) == Err(Corruption) <==> Overwritten(w)
    ensures ChecksumsMatch(w.disk) <==> !Overwritten(w)
  {
    ReopenReplaysSurvivors(w);
    SurvivedIsWellFormed(w);
    ReplaysIffAccepted(EMPTY_GRAPH, Survived(w));
  }

  lemma SurvivedIsWellFormed(w: World)
    requires Inv(w)
    ensures WellFormed(Survived(w))
  {
    var pending, lsn := Pending(w), ManifestLsn(w.disk.manifest);
    TailIsPendingAbove(w);
    AboveIsAbove(pending, lsn);
    BatchesLength(pending);
    BatchesLength(Above(pending, lsn));
    forall b | b in Survived(w) ensures b in w.history {
      assert b in Settled(w) || b in Batches(Above(pending, lsn));
    }
  }

  /** Before the first published compaction, and outside a compaction's file writes, reopening
      gives the running graph whenever nothing pending is skipped. */
  lemma CorruptionOnlyInLaterCompaction(w: World)
    requires Inv(w) && w.mem.Some? && Recoverable(w)
    requires w.disk.manifest.snapshot.None? || !Rewriting(w.mem.value.phase)
    ensures ReopensAsRunning(w)
  {
    CorruptedIff(w);
    RecoveryEquivalence(w);
  }

  // ---------------------------------------------------------------- every step keeps the invariant

  lemma ContiguousSnoc(wal: seq<WalRecord>, r: WalRecord)
    requires Contiguous(wal) && r.lsn == NextLsn(wal)
    ensures Contiguous(wal + [r]) && NextLsn(wal + [r]) == r.lsn + 1
  {
  }

  lemma {:induction false} ContiguousBelowNext(wal: seq<WalRecord>)
    requires Contiguous(wal)
    ensures forall i | 0 <= i < |wal| :: wal[i].lsn < NextLsn(wal)
    ensures NextLsn(wal) >= 1
  {
    if wal != [] {
      assert wal[|wal| - 1].lsn == wal[0].lsn + (|wal| - 1);
    }
  }

  lemma AcceptedSnoc(h: seq<WriteBatch>, b: WriteBatch)
    requires AcceptedLog(EMPTY_GRAPH, h) && Accepted(Fold(EMPTY_GRAPH, h), b)
    ensures AcceptedLog(EMPTY_GRAPH, h + [b])
    ensures Fold(EMPTY_GRAPH, h + [b]) == Apply(Fold(EMPTY_GRAPH, h), b)
    ensures UpsertedNodes(h) <= UpsertedNodes(h + [b]) && UpsertedEdges(h) <= UpsertedEdges(h + [b])
  {
    assert (h + [b])[..|h|] == h;
  }

  lemma GrowKeepsSettled(w: World, b: WriteBatch)
    requires w.mem.Some? && w.base <= |w.history|
    ensures Settled(Grown(w, b)) == Settled(w)
  {
    assert (w.history + [b])[..w.base] == w.history[..w.base];
  }

  lemma GrowKeepsPending(w: World, b: WriteBatch)
    requires w.mem.Some? && w.history == Settled(w) + Batches(Pending(w))
    ensures w.history + [b] == Settled(w) + Batches(Pending(Grown(w, b)))
  {
    var m := w.mem.value;
    BatchesSnoc(m.pending, Entry(m.nextLsn, b));
    assert Settled(w) + (Batches(m.pending) + [b]) == Settled(w) + Batches(m.pending) + [b];
  }

  lemma GrowKeepsHistory(w: World, b: WriteBatch)
    requires w.mem.Some? && HistoryKept(w) && AcceptedLog(EMPTY_GRAPH, w.history + [b])
    ensures HistoryKept(Grown(w, b))
  {
    GrowKeepsSettled(w, b);
    GrowKeepsPending(w, b);
    AcceptedIsWellFormed(EMPTY_GRAPH, w.history + [b]);
  }

  lemma GrowKeepsBase(w: World, b: WriteBatch)
    requires w.mem.Some? && BaseKept(w)
    requires UpsertedNodes(w.history) <= UpsertedNodes(w.history + [b])
    requires UpsertedEdges(w.history) <= UpsertedEdges(w.history + [b])
    ensures BaseKept(Grown(w, b))
  {
    if w.disk.manifest.snapshot.Some? {
      assert (w.history + [b])[..w.base] == w.history[..w.base];
    } else {
      GrownAbove(w, b);
    }
  }

  lemma GrownAbove(w: World, b: WriteBatch)
    requires w.mem.Some? && AllAbove(Pending(w), ManifestLsn(w.disk.manifest))
    requires w.mem.value.nextLsn > ManifestLsn(w.disk.manifest)
    ensures AllAbove(Pending(Grown(w, b)), ManifestLsn(w.disk.manifest))
  {
  }

  lemma GrowKeepsTail(w: World, b: WriteBatch)
    requires w.mem.Some? && Tail(w.disk) == Above(w.mem.value.pending, ManifestLsn(w.disk.manifest))
    ensures var w' := Grown(w, b); Tail(w'.disk) == Above(w'.mem.value.pending, ManifestLsn(w.disk.manifest))
  {
    var m, lsn := w.mem.value, ManifestLsn(w.disk.manifest);
    WalSnoc(w.disk.wal, BatchRecord(m.nextLsn, b));
    AboveSnoc(WalEntries(w.disk.wal), Entry(m.nextLsn, b), lsn);
    AboveSnoc(m.pending, Entry(m.nextLsn, b), lsn);
  }

  lemma GrowKeepsMemory(w: World, b: WriteBatch)
    requires InPhase(w, Idle) && MemoryKept(w.disk, w.mem.value, w.history) && Contiguous(w.disk.wal)
    requires Fold(EMPTY_GRAPH, w.history + [b]) == Apply(Fold(EMPTY_GRAPH, w.history), b)
    ensures var w' := Grown(w, b); MemoryKept(w'.disk, w'.mem.value, w'.history) && Contiguous(w'.disk.wal)
  {
    GrowKeepsTail(w, b);
    ContiguousSnoc(w.disk.wal, BatchRecord(w.mem.value.nextLsn, b));
  }

  lemma WriteKeepsInv(w: World, b: WriteBatch)
    requires Inv(w) && InPhase(w, Idle)
    ensures Inv(WriteStep(w, b))
  {
    if Accepted(w.mem.value.graph, b) {
      AcceptedSnoc(w.history, b);
      GrowKeepsHistory(w, b);
      GrowKeepsBase(w, b);
      GrowKeepsMemory(w, b);
    }
  }

  lemma LogKeepsMemory(w: World, r: WalRecord, p: Phase)
    requires InPhase(w, Idle) && MemoryKept(w.disk, w.mem.value, w.history) && Contiguous(w.disk.wal)
    requires !r.BatchRecord? && r.lsn == w.mem.value.nextLsn
    requires p.Idle? || p.CheckpointLogged? || p.CompactionLogged?
    ensures var w' := LogStep(w, r, p); MemoryKept(w'.disk, w'.mem.value, w'.history) && Contiguous(w'.disk.wal)
  {
    ContiguousSnoc(w.disk.wal, r);
    WalSnoc(w.disk.wal, r);
  }

  lemma LogKeepsInv(w: World, r: WalRecord, p: Phase)
    requires Inv(w) && InPhase(w, Idle)
    requires !r.BatchRecord? && r.lsn == w.mem.value.nextLsn
    requires p.Idle? || p.CheckpointLogged? || p.CompactionLogged?
    ensures Inv(LogStep(w, r, p))
  {
    LogKeepsMemory(w, r, p);
  }

  lemma DeltaKeepsMemory(w: World)
    requires InPhase(w, CheckpointLogged) && MemoryKept(w.disk, w.mem.value, w.history)
    ensures var w' := DeltaStep(w); MemoryKept(w'.disk, w'.mem.value, w'.history)
  {
  }

  lemma DeltaKeepsInv(w: World)
    requires Inv(w) && InPhase(w, CheckpointLogged)
    ensures Inv(DeltaStep(w))
  {
    DeltaKeepsMemory(w);
  }

  lemma PublishedDeltas(w: World)
    requires w.mem.Some? && w.mem.value.nextLsn >= 1
    ensures DeltaBatches(PublishStep(w).disk.manifest.deltas) ==
            DeltaBatches(w.disk.manifest.deltas) + Batches(w.mem.value.pending)
  {
    var m, deltas := w.mem.value, w.disk.manifest.deltas;
    if m.pending != [] {
      DeltaSnoc(deltas, PendingDelta(m));
    } else {
      assert DeltaBatches(deltas) + [] == DeltaBatches(deltas);
    }
  }

  lemma PublishSettles(w: World)
    requires w.mem.Some? && w.mem.value.nextLsn >= 1 && w.history == Settled(w) + Batches(Pending(w))
    requires w.base <= |w.history|
    ensures Settled(PublishStep(w)) == w.history
  {
    PublishedDeltas(w);
    Regroup(w.history[..w.base], DeltaBatches(w.disk.manifest.deltas), Batches(w.mem.value.pending));
  }

  lemma PublishKeepsHistory(w: World)
    requires HistoryKept(w) && InPhase(w, DeltaWritten) && w.mem.value.nextLsn >= 1
    requires w.mem.value.pending != [] ==> PendingDelta(w.mem.value) in w.disk.deltaFiles
    ensures HistoryKept(PublishStep(w))
  {
    PublishSettles(w);
    assert w.history + [] == w.history;
  }

  lemma NothingAboveLast(d: Disk, lsn: nat)
    requires Contiguous(d.wal) && NextLsn(d.wal) == lsn + 1
    ensures Above(WalEntries(d.wal), lsn) == []
  {
    ContiguousBelowNext(d.wal);
    WalEntriesBelow(d.wal, lsn);
    AboveNone(WalEntries(d.wal), lsn);
  }

  lemma PublishKeepsMemory(w: World)
    requires InPhase(w, DeltaWritten) && MemoryKept(w.disk, w.mem.value, w.history) && Contiguous(w.disk.wal)
    ensures var w' := PublishStep(w); MemoryKept(w'.disk, w'.mem.value, w'.history)
  {
    NothingAboveLast(w.disk, w.mem.value.nextLsn - 1);
  }

  lemma PublishKeepsInv(w: World)
    requires Inv(w) && InPhase(w, DeltaWritten)
    ensures Inv(PublishStep(w))
  {
    PublishKeepsHistory(w);
    PublishKeepsMemory(w);
  }

  lemma FoldNodesUpserted(h: seq<WriteBatch>)
    requires AcceptedLog(EMPTY_GRAPH, h)
    ensures Fold(EMPTY_GRAPH, h).nodes.Keys <= UpsertedNodes(h)
    ensures Fold(EMPTY_GRAPH, h).edges.Keys <= UpsertedEdges(h)
  {
    ReplayNeverRejects(EMPTY_GRAPH, h);
    ReplayConverges(EMPTY_GRAPH, h);
  }

  ghost predicate FileProgress(d: Disk, m: Memory, f: Files, p: Phase) {
    || (m.phase.CompactionLogged? && p.NodesWritten? && f == d.files.(nodes := FilesOf(m.graph).nodes))
    || (m.phase.NodesWritten? && p.EdgesWritten? && f == d.files.(edges := FilesOf(m.graph).edges))
    || (m.phase.EdgesWritten? && p.VectorsWritten? && f == d.files.(vectors := FilesOf(m.graph).vectors))
  }

  lemma FileKeepsInv(w: World, f: Files, p: Phase)
    requires Inv(w) && w.mem.Some? && FileProgress(w.disk, w.mem.value, f, p)
    ensures Inv(FileStep(w, f, p))
  {
    FoldNodesUpserted(w.history);
    assert Bare(w.mem.value.graph.nodes).Keys == w.mem.value.graph.nodes.Keys;
  }

  lemma CompactPublishKeepsHistory(w: World)
    requires HistoryKept(w) && w.mem.Some? && w.mem.value.nextLsn >= 1
    ensures HistoryKept(CompactPublishStep(w))
  {
    var h := w.history;
    assert h[..|h|] + [] == h && h + [] == h;
    assert Settled(CompactPublishStep(w)) == h;
  }

  lemma CompactPublishKeepsBase(w: World)
    requires InPhase(w, VectorsWritten) && MemoryKept(w.disk, w.mem.value, w.history)
    ensures BaseKept(CompactPublishStep(w))
  {
    assert w.history[..|w.history|] == w.history;
  }

  lemma CompactPublishKeepsMemory(w: World)
    requires InPhase(w, VectorsWritten) && MemoryKept(w.disk, w.mem.value, w.history) && Contiguous(w.disk.wal)
    ensures var w' := CompactPublishStep(w); MemoryKept(w'.disk, w'.mem.value, w'.history)
  {
    NothingAboveLast(w.disk, w.mem.value.nextLsn - 1);
    ContiguousBelowNext(w.disk.wal);
  }

  lemma CompactPublishKeepsInv(w: World)
    requires Inv(w) && InPhase(w, VectorsWritten)
    ensures Inv(CompactPublishStep(w))
  {
    CompactPublishKeepsHistory(w);
    CompactPublishKeepsBase(w);
    CompactPublishKeepsMemory(w);
  }

  lemma RemoveSegmentKeepsInv(w: World, n: nat)
    requires Inv(w) && InPhase(w, Truncating) && n <= |w.disk.wal|
    ensures Inv(w.(disk := w.disk.(wal := w.disk.wal[n..])))
  {
    WalEntriesBelow(w.disk.wal[n..], ManifestLsn(w.disk.manifest));
    AboveNone(WalEntries(w.disk.wal[n..]), ManifestLsn(w.disk.manifest));
  }

  lemma CompactDoneKeepsInv(w: World)
    requires Inv(w) && InPhase(w, Truncating) && w.disk.wal == []
    ensures Inv(w.(mem := Some(w.mem.value.(nextLsn := 1, phase := Idle))))
  {
  }

  lemma CrashKeepsSettled(w: World)
    requires w.base <= |w.history|
    ensures Settled(w.(mem := None, history := Survived(w))) == Settled(w)
    ensures Survived(w)[..w.base] == w.history[..w.base]
  {
    assert Survived(w)[..w.base] == w.history[..w.base];
  }

  lemma CrashKeepsHistory(w: World)
    requires Inv(w) && w.mem.Some?
    ensures HistoryKept(w.(mem := None, history := Survived(w)))
  {
    CrashKeepsSettled(w);
    SurvivedIsWellFormed(w);
    if w.disk.manifest.snapshot.None? {
      FirstBaseSurvives(w);
    }
  }

  lemma CrashKeepsBase(w: World)
    requires Inv(w) && w.mem.Some?
    ensures BaseKept(w.(mem := None, history := Survived(w)))
  {
    CrashKeepsSettled(w);
    if w.disk.manifest.snapshot.None? {
      FirstBaseSurvives(w);
      AboveIsAbove(WalEntries(w.disk.wal), ManifestLsn(w.disk.manifest));
    }
  }

  lemma CrashKeepsInv(w: World)
    requires Inv(w) && w.mem.Some?
    ensures Inv(w.(mem := None, history := Survived(w)))
  {
    CrashKeepsHistory(w);
    CrashKeepsBase(w);
  }

  lemma OpenedHistory(w: World)
    requires Inv(w) && w.mem.None? && Reopen(w.disk).Ok?
    ensures ChecksumsMatch(w.disk) && AcceptedLog(EMPTY_GRAPH, w.history)
    ensures Reopen(w.disk).value == Memory(Fold(EMPTY_GRAPH, w.history), Tail(w.disk), NextLsn(w.disk.wal), Idle)
  {
    ReopenReplaysSurvivors(w);
    ReplaysIffAccepted(EMPTY_GRAPH, w.history);
    ReplayNeverRejects(EMPTY_GRAPH, w.history);
  }

  lemma OpenKeepsMemory(w: World)
    requires Inv(w) && w.mem.None? && Reopen(w.disk).Ok?
    ensures MemoryKept(w.disk, Reopen(w.disk).value, w.history)
  {
    OpenedHistory(w);
    AboveTwice(WalEntries(w.disk.wal), ManifestLsn(w.disk.manifest));
    ContiguousBelowNext(w.disk.wal);
    WalEntriesRising(w.disk.wal);
    AboveRising(WalEntries(w.disk.wal), ManifestLsn(w.disk.manifest), NextLsn(w.disk.wal));
  }

  lemma OpenKeepsInv(w: World)
    requires Inv(w) && w.mem.None? && Reopen(w.disk).Ok?
    ensures Inv(w.(mem := Some(Reopen(w.disk).value)))
  {
    OpenKeepsMemory(w);
    OpenedHistory(w);
    AboveIsAbove(WalEntries(w.disk.wal), ManifestLsn(w.disk.manifest));
  }

  lemma AppendStepsKeepInv(w: World, a: Action)
    requires Inv(w) && (a.Write? || a.LogEvent? || a.CheckpointLog? || a.CompactLog?)
    ensures Inv(Step(w, a))
  {
    if InPhase(w, Idle) {
      match a
      case Write(b) => WriteKeepsInv(w, b);
      case LogEvent => LogKeepsInv(w, EventRecord(w.mem.value.nextLsn), Idle);
      case CheckpointLog => LogKeepsInv(w, CheckpointRecord(w.mem.value.nextLsn), CheckpointLogged);
      case CompactLog => LogKeepsInv(w, CheckpointRecord(w.mem.value.nextLsn), CompactionLogged);
    }
  }

  lemma FileStepsKeepInv(w: World, a: Action)
    requires Inv(w) && (a.CompactNodes? || a.CompactEdges? || a.CompactVectors?)
    ensures Inv(Step(w, a))
  {
    if Step(w, a) != w {
      var f, m := w.disk.files, FilesOf(w.mem.value.graph);
      match a
      case CompactNodes => FileKeepsInv(w, f.(nodes := m.nodes), NodesWritten);
      case CompactEdges => FileKeepsInv(w, f.(edges := m.edges), EdgesWritten);
      case CompactVectors => FileKeepsInv(w, f.(vectors := m.vectors), VectorsWritten);
    }
  }

  lemma CheckpointStepsKeepInv(w: World, a: Action)
    requires Inv(w) && (a.CheckpointDelta? || a.CheckpointPublish? || a.CompactPublish?)
    ensures Inv(Step(w, a))
  {
    if Step(w, a) != w {
      match a
      case CheckpointDelta => DeltaKeepsInv(w);
      case CheckpointPublish => PublishKeepsInv(w);
      case CompactPublish => CompactPublishKeepsInv(w);
    }
  }

  lemma RemoveDeltaKeepsInv(w: World, x: Delta)
    requires Inv(w) && InPhase(w, Truncating) && w.disk.manifest.deltas == []
    ensures Inv(w.(disk := w.disk.(deltaFiles := w.disk.deltaFiles - {x})))
  {
  }

  lemma TruncateStepsKeepInv(w: World, a: Action)
    requires Inv(w) && (a.RemoveDelta? || a.RemoveSegment? || a.CompactDone?)
    ensures Inv(Step(w, a))
  {
    if Step(w, a) != w {
      match a
      case RemoveDelta(x) => RemoveDeltaKeepsInv(w, x);
      case RemoveSegment(n) => RemoveSegmentKeepsInv(w, n);
      case CompactDone => CompactDoneKeepsInv(w);
    }
  }

  lemma CrashStepsKeepInv(w: World, a: Action)
    requires Inv(w) && (a.Crash? || a.Open?)
    ensures Inv(Step(w, a))
  {
    if Step(w, a) != w {
      match a
      case Crash => CrashKeepsInv(w);
      case Open => OpenKeepsInv(w);
    }
  }

  /** Every step of the protocol keeps the invariant, a crash at any moment included. */
  lemma EveryStepKeepsInv(w: World, a: Action)
    requires Inv(w)
    ensures Inv(Step(w, a))
  {
    if a.Write? || a.LogEvent? || a.CheckpointLog? || a.CompactLog? {
      AppendStepsKeepInv(w, a);
    } else if a.CompactNodes? || a.CompactEdges? || a.CompactVectors? {
      FileStepsKeepInv(w, a);
    } else if a.CheckpointDelta? || a.CheckpointPublish? || a.CompactPublish? {
      CheckpointStepsKeepInv(w, a);
    } else if a.RemoveDelta? || a.RemoveSegment? || a.CompactDone? {
      TruncateStepsKeepInv(w, a);
    } else {
      CrashStepsKeepInv(w, a);
    }
  }
}
