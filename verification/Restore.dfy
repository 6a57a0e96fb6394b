/** Whole runs of the durability protocol, the window a completed compaction opens, and
    point-in-time restore. */
module Restore {
  import opened Core
  import opened Log
  import opened Durability
  import opened Recovery

  // ---------------------------------------------------------------- whole runs

  const EMPTY_DISK := Disk(Manifest(None, None, []), Files(None, None, None), {}, [])

  /** A store opened for the first time. */
  const EMPTY_WORLD := World(EMPTY_DISK, Some(Memory(EMPTY_GRAPH, [], 1, Idle)), [], 0)

  function Run(w: World, acts: seq<Action>): World
    decreases |acts|
  {
    if acts == [] then w else Run(Step(w, acts[0]), acts[1..])
  }

  /** The batch that the engine accepts in a step, if it does. */
  function AdmittedBy(w: World, a: Action): seq<WriteBatch> {
    if a.Write? && InPhase(w, Idle) && Accepted(w.mem.value.graph, a.batch) then [a.batch] else []
  }

  /** The batches that the engine accepts along a run. */
  function Admitted(w: World, acts: seq<Action>): seq<WriteBatch>
    decreases |acts|
  {
    if acts == [] then [] else AdmittedBy(w, acts[0]) + Admitted(Step(w, acts[0]), acts[1..])
  }

  lemma EmptyWorldInv()
    ensures Inv(EMPTY_WORLD)
  {
  }

  lemma {:induction false} RunKeepsInv(w: World, acts: seq<Action>)
    requires Inv(w)
    ensures Inv(Run(w, acts))
    decreases |acts|
  {
    if acts != [] {
      EveryStepKeepsInv(w, acts[0]);
      RunKeepsInv(Step(w, acts[0]), acts[1..]);
    }
  }

  /** In every run of writes, log records, checkpoints, compactions, reopens and crashes
      between any two disk writes: the running engine holds the in-order application of its
      history, and that graph is sound; reopening replays what a crash would leave of the
      history, which is all of it exactly when nothing pending is numbered at or below the
      manifest; corruption is reported only once a listed file was overwritten. */
  lemma EveryRunRecovers(acts: seq<Action>)
    ensures var w := Run(EMPTY_WORLD, acts);
            && (w.mem.Some? ==> w.mem.value.graph == Fold(EMPTY_GRAPH, w.history) && Sound(w.mem.value.graph))
            && Recovered(w.disk) == (if ChecksumsMatch(w.disk) then Replay(EMPTY_GRAPH, Survived(w))
                                     else Err(Corruption))
            && (Survived(w) == w.history <==> Recoverable(w))
            && (w.mem.Some? ==> (ChecksumsMatch(w.disk) <==> !Overwritten(w)))
  {
    EmptyWorldInv();
    RunKeepsInv(EMPTY_WORLD, acts);
    var w := Run(EMPTY_WORLD, acts);
    ReopenReplaysSurvivors(w);
    NothingIsLostIff(w);
    if w.mem.Some? {
      EmptySound();
      AcceptedLogKeepsSound(EMPTY_GRAPH, w.history);
      CorruptedIff(w);
    }
  }

  lemma EmptySound()
    ensures Sound(EMPTY_GRAPH)
  {
  }

  /** The graph that reopening a disk gives. */
  function Recovered(d: Disk): Result<Graph> {
    match Reopen(d) case Err(e) => Err(e) case Ok(m) => Ok(m.graph)
  }

  // ---------------------------------------------------------------- which runs lose nothing

  /** Every crash of a run falls where all pending batches are numbered above the manifest. */
  ghost predicate SafeCrashes(w: World, acts: seq<Action>)
    decreases |acts|
  {
    acts == [] || ((acts[0].Crash? ==> Recoverable(w)) && SafeCrashes(Step(w, acts[0]), acts[1..]))
  }

  lemma StoppedIsRecoverable(w: World)
    requires w.mem.None?
    ensures Recoverable(w)
  {
    AboveIsAbove(WalEntries(w.disk.wal), ManifestLsn(w.disk.manifest));
  }

  lemma FewerAbove(entries: seq<Entry>, lsn: nat)
    requires !AllAbove(entries, lsn)
    ensures |Batches(Above(entries, lsn))| < |Batches(entries)|
  {
    BatchesLength(entries);
    BatchesLength(Above(entries, lsn));
    AboveSubset(entries, lsn);
  }

  lemma UnsafeCrashCosts(w: World)
    requires Inv(w) && w.mem.Some? && !Recoverable(w)
    ensures |Survived(w)| < |w.history|
  {
    TailIsPendingAbove(w);
    FewerAbove(Pending(w), ManifestLsn(w.disk.manifest));
  }

  lemma UnsafeCrashShortens(w: World)
    requires Inv(w) && !Recoverable(w)
    ensures |Step(w, Crash).history| < |w.history|
  {
    if w.mem.None? {
      StoppedIsRecoverable(w);
    } else {
      UnsafeCrashCosts(w);
    }
  }

  lemma SafeStepKeepsHistory(w: World, a: Action)
    requires Inv(w) && (a.Crash? ==> Recoverable(w))
    ensures Step(w, a).history == w.history + AdmittedBy(w, a)
  {
    if a.Crash? {
      NothingIsLostIff(w);
    }
    assert w.history + [] == w.history;
  }

  /** The history of a run is all that its engine ever accepted exactly when every crash of the
      run falls where all pending batches are numbered above the manifest. */
  lemma {:induction false} RunLosesNothingIff(w: World, acts: seq<Action>)
    requires Inv(w)
    ensures |Run(w, acts).history| <= |w.history| + |Admitted(w, acts)|
    ensures Run(w, acts).history == w.history + Admitted(w, acts) <==> SafeCrashes(w, acts)
    decreases |acts|
  {
    if acts == [] {
      assert w.history + [] == w.history;
    } else {
      EveryStepKeepsInv(w, acts[0]);
      RunLosesNothingIff(Step(w, acts[0]), acts[1..]);
      if acts[0].Crash? && !Recoverable(w) {
        UnsafeCrashShortens(w);
      } else {
        SafeStepKeepsHistory(w, acts[0]);
        Regroup(w.history, AdmittedBy(w, acts[0]), Admitted(Step(w, acts[0]), acts[1..]));
      }
    }
  }

  lemma {:induction false} SafeRunAccepted(w: World, acts: seq<Action>)
    requires Inv(w) && AcceptedLog(EMPTY_GRAPH, w.history) && SafeCrashes(w, acts)
    ensures AcceptedLog(EMPTY_GRAPH, Run(w, acts).history)
    decreases |acts|
  {
    if acts != [] {
      EveryStepKeepsInv(w, acts[0]);
      SafeStepKeepsHistory(w, acts[0]);
      if Step(w, acts[0]).mem.None? {
        assert w.history + [] == w.history;
      }
      SafeRunAccepted(Step(w, acts[0]), acts[1..]);
    }
  }

  /** In every run with safe crashes, completed compactions included, the running engine holds
      the in-order application of all batches it ever accepted; so does a reopened one after one
      more safe crash, unless a listed file was overwritten. */
  lemma SafeRunRecovers(acts: seq<Action>)
    requires SafeCrashes(EMPTY_WORLD, acts)
    ensures var w := Run(EMPTY_WORLD, acts);
            var all := Fold(EMPTY_GRAPH, Admitted(EMPTY_WORLD, acts));
            && Sound(all) && (w.mem.Some? ==> w.mem.value.graph == all)
            && (Recoverable(w) ==> Recovered(w.disk) == if ChecksumsMatch(w.disk) then Ok(all) else Err(Corruption))
  {
    var w := Run(EMPTY_WORLD, acts);
    EmptyWorldInv();
    EmptySound();
    RunLosesNothingIff(EMPTY_WORLD, acts);
    assert EMPTY_WORLD.history + Admitted(EMPTY_WORLD, acts) == Admitted(EMPTY_WORLD, acts);
    SafeRunAccepted(EMPTY_WORLD, acts);
    EveryRunRecovers(acts);
    AcceptedLogKeepsSound(EMPTY_GRAPH, w.history);
    ReplayNeverRejects(EMPTY_GRAPH, w.history);
  }

  // ---------------------------------------------------------------- runs that never empty the log

  /** A compaction may drop log segments, but not the last record of the log. */
  predicate KeepsLastRecord(w: World, a: Action) {
    a.RemoveSegment? ==> a.records < |w.disk.wal|
  }

  ghost predicate LogKeptRun(w: World, acts: seq<Action>)
    decreases |acts|
  {
    acts == [] || (KeepsLastRecord(w, acts[0]) && LogKeptRun(Step(w, acts[0]), acts[1..]))
  }

  /** The numbering is ahead of the manifest, and so is every pending batch. */
  ghost predicate NumberedAhead(w: World) {
    && NextLsn(w.disk.wal) > ManifestLsn(w.disk.manifest) && Recoverable(w)
    && (w.mem.Some? && w.mem.value.phase.Truncating? ==> w.disk.wal != [])
  }

  lemma WriteStaysAhead(w: World, b: WriteBatch)
    requires NumberedAhead(w) && InPhase(w, Idle) && w.mem.value.nextLsn == NextLsn(w.disk.wal)
    ensures NumberedAhead(WriteStep(w, b))
  {
  }

  lemma LogStaysAhead(w: World, r: WalRecord, p: Phase)
    requires NumberedAhead(w) && w.mem.Some? && r.lsn == NextLsn(w.disk.wal)
    ensures NumberedAhead(LogStep(w, r, p))
  {
  }

  lemma IdleIsInNumber(w: World)
    requires Inv(w) && InPhase(w, Idle)
    ensures w.mem.value.nextLsn == NextLsn(w.disk.wal)
  {
  }

  lemma AppendStaysAhead(w: World, a: Action)
    requires NumberedAhead(w) && InPhase(w, Idle) && w.mem.value.nextLsn == NextLsn(w.disk.wal)
    requires a.Write? || a.LogEvent? || a.CheckpointLog? || a.CompactLog?
    ensures NumberedAhead(Step(w, a))
  {
    var lsn := w.mem.value.nextLsn;
    match a
    case Write(b) => WriteStaysAhead(w, b);
    case LogEvent => LogStaysAhead(w, EventRecord(lsn), Idle);
    case CheckpointLog => LogStaysAhead(w, CheckpointRecord(lsn), CheckpointLogged);
    case CompactLog => LogStaysAhead(w, CheckpointRecord(lsn), CompactionLogged);
  }

  lemma PublishStaysAhead(w: World)
    requires Inv(w) && NumberedAhead(w)
    ensures InPhase(w, DeltaWritten) ==> NumberedAhead(PublishStep(w))
    ensures InPhase(w, VectorsWritten) ==> NumberedAhead(CompactPublishStep(w))
  {
  }

  lemma DropStaysAhead(w: World, n: nat)
    requires NumberedAhead(w) && n < |w.disk.wal|
    ensures NumberedAhead(Step(w, RemoveSegment(n)))
  {
    var wal := w.disk.wal[n..];
    assert wal[|wal| - 1] == w.disk.wal[|w.disk.wal| - 1];
  }

  lemma CrashStaysAhead(w: World, a: Action)
    requires NumberedAhead(w) && (a.Crash? || a.Open?)
    ensures NumberedAhead(Step(w, a))
  {
    AboveIsAbove(WalEntries(w.disk.wal), ManifestLsn(w.disk.manifest));
  }

  lemma StaysAhead(w: World, a: Action)
    requires Inv(w) && NumberedAhead(w) && KeepsLastRecord(w, a)
    ensures NumberedAhead(Step(w, a))
  {
    if a.Write? || a.LogEvent? || a.CheckpointLog? || a.CompactLog? {
      if InPhase(w, Idle) {
        IdleIsInNumber(w);
        AppendStaysAhead(w, a);
      }
    } else if a.Crash? || a.Open? {
      CrashStaysAhead(w, a);
    } else if a.CheckpointPublish? || a.CompactPublish? {
      PublishStaysAhead(w);
    } else if a.RemoveSegment? {
      DropStaysAhead(w, a.records);
    }
  }

  /** Such runs have safe crashes only. */
  lemma {:induction false} LogKeptRunIsSafe(w: World, acts: seq<Action>)
    requires Inv(w) && NumberedAhead(w) && LogKeptRun(w, acts)
    ensures NumberedAhead(Run(w, acts)) && SafeCrashes(w, acts)
    decreases |acts|
  {
    if acts != [] {
      EveryStepKeepsInv(w, acts[0]);
      StaysAhead(w, acts[0]);
      LogKeptRunIsSafe(Step(w, acts[0]), acts[1..]);
    }
  }

  /** In particular, in every run that never empties the log, crashes anywhere, engine and
      reopening hold the in-order application of all batches ever accepted, unless a listed file
      was overwritten. */
  lemma LogKeptRunRecovers(acts: seq<Action>)
    requires LogKeptRun(EMPTY_WORLD, acts)
    ensures var w := Run(EMPTY_WORLD, acts);
            var all := Fold(EMPTY_GRAPH, Admitted(EMPTY_WORLD, acts));
            && (w.mem.Some? ==> w.mem.value.graph == all)
            && Recovered(w.disk) == if ChecksumsMatch(w.disk) then Ok(all) else Err(Corruption)
  {
    EmptyWorldInv();
    LogKeptRunIsSafe(EMPTY_WORLD, acts);
    SafeRunRecovers(acts);
  }

  // ---------------------------------------------------------------- the compaction window

  /** Reopening right after any accepted next write finds that write. */
  ghost predicate NextWriteSurvives(w: World)
    requires w.mem.Some?
  {
    forall b | Accepted(w.mem.value.graph, b) :: Recovered(Grown(w, b).disk) == Ok(Apply(w.mem.value.graph, b))
  }

  /** What reopening finds after one more logged write: the write applied to what it would have
      found before, if it is numbered above the manifest; otherwise the write is skipped. */
  lemma RecoveredAfterWrite(w: World, b: WriteBatch)
    requires w.mem.Some?
    ensures Recovered(Grown(w, b).disk) ==
            if w.mem.value.nextLsn <= ManifestLsn(w.disk.manifest) then Recovered(w.disk)
            else match Recovered(w.disk)
              case Err(e) => Err(e)
              case Ok(g) => if EndpointsExist(g.nodes, b) then Ok(Apply(g, b)) else Err(Validation)
  {
    var d, d' := w.disk, Grown(w, b).disk;
    var e := Entry(w.mem.value.nextLsn, b);
    WalSnoc(d.wal, BatchRecord(e.lsn, b));
    AboveSnoc(WalEntries(d.wal), e, ManifestLsn(d.manifest));
    BatchesSnoc(Tail(d), e);
    assert (Batches(Tail(d)) + [b])[..|Batches(Tail(d))|] == Batches(Tail(d));
    assert LoadPublished(d') == LoadPublished(d);
  }

  /** Every accepted next write survives a crash exactly when it is numbered above the manifest
      and the store would reopen as it is running. */
  lemma NextWriteSurvivesIff(w: World)
    requires w.mem.Some?
    ensures NextWriteSurvives(w) <==> w.mem.value.nextLsn > ManifestLsn(w.disk.manifest) && ReopensAsRunning(w)
  {
    var g := w.mem.value.graph;
    if w.mem.value.nextLsn > ManifestLsn(w.disk.manifest) && ReopensAsRunning(w) {
      forall b | Accepted(g, b) ensures Recovered(Grown(w, b).disk) == Ok(Apply(g, b)) {
        RecoveredAfterWrite(w, b);
      }
    } else if Recovered(w.disk).Err? {
      ProbeAccepted(g, "a");
      RecoveredAfterWrite(w, ProbeBatch("a"));
      assert Recovered(Grown(w, ProbeBatch("a")).disk).Err?;
    } else {
      var r := Recovered(w.disk).value;
      var b: WriteBatch;
      if w.mem.value.nextLsn <= ManifestLsn(w.disk.manifest) {
        b := SomeBatchMisses(g, r);
      } else {
        b := SomeBatchTells(g, r);
      }
      RecoveredAfterWrite(w, b);
      assert Recovered(Grown(w, b).disk) != Ok(Apply(g, b));
    }
  }

  /** A completed compaction opens a window: it restarts the numbering at 1 while the manifest
      keeps the old number. The store still reopens as it is, but its next write is lost. */
  lemma CompactionOpensWindow(w: World)
    requires Inv(w) && InPhase(w, Truncating) && w.disk.wal == []
    ensures var w' := Step(w, CompactDone);
            InPhase(w', Idle) && ReopensAsRunning(w') && !NextWriteSurvives(w')
  {
    var w' := w.(mem := Some(w.mem.value.(nextLsn := 1, phase := Idle)));
    assert Step(w, CompactDone) == w';
    CompactDoneKeepsInv(w);
    CorruptionOnlyInLaterCompaction(w');
    NextWriteSurvivesIff(w');
  }

  /** The next published checkpoint closes it. */
  lemma CheckpointClosesWindow(w: World)
    requires Inv(w) && InPhase(w, DeltaWritten)
    ensures ReopensAsRunning(PublishStep(w)) && NextWriteSurvives(PublishStep(w))
  {
    PublishKeepsInv(w);
    CorruptionOnlyInLaterCompaction(PublishStep(w));
    NextWriteSurvivesIff(PublishStep(w));
  }

  // ---------------------------------------------------------------- point-in-time restore

  function UpTo(wal: seq<WalRecord>, lsn: nat): seq<WalRecord> {
    if wal == [] then []
    else
      var front, last := UpTo(wal[..|wal| - 1], lsn), wal[|wal| - 1];
      if last.lsn <= lsn then front + [last] else front
  }

  predicate NumberedFromOne(records: seq<WalRecord>) {
    forall i | 0 <= i < |records| :: records[i].lsn == i + 1
  }

  function Renumbered(r: WalRecord, lsn: nat): WalRecord {
    match r
    case BatchRecord(_, b) => BatchRecord(lsn, b)
    case CheckpointRecord(_) => CheckpointRecord(lsn)
    case EventRecord(_) => EventRecord(lsn)
  }

  /** `rewrite_dir_from_records`: append every record to an empty log, which numbers from 1,
      and fail at the first record whose number changes. */
  method RewriteFrom(records: seq<WalRecord>) returns (r: Result<seq<WalRecord>>)
    ensures r == if NumberedFromOne(records) then Ok(records) else Err(Validation)
  {
    var wal: seq<WalRecord> := [];
    for i := 0 to |records|
      invariant wal == records[..i] && NumberedFromOne(wal)
    {
      var appended := Renumbered(records[i], i + 1);
      if appended.lsn != records[i].lsn {
        return Err(Validation);
      }
      wal := wal + [appended];
    }
    assert records[..|records|] == records;
    return Ok(wal);
  }

  /** `trim_restored_wal_to_lsn`. */
  function Trim(d: Disk, target: nat): Result<Disk> {
    var checkpoint := ManifestLsn(d.manifest);
    var latest := if d.wal == [] then checkpoint else d.wal[|d.wal| - 1].lsn;
    if target < checkpoint || target > latest then Err(Validation)
    else if NumberedFromOne(UpTo(d.wal, target)) then Ok(d.(wal := UpTo(d.wal, target)))
    else Err(Validation)
  }

  lemma {:induction false} UpToSplit(wal: seq<WalRecord>, more: seq<WalRecord>, lsn: nat)
    requires forall i | 0 <= i < |wal| :: wal[i].lsn <= lsn
    requires forall i | 0 <= i < |more| :: more[i].lsn > lsn
    ensures UpTo(wal + more, lsn) == wal
  {
    if more != [] {
      assert (wal + more)[..|wal + more| - 1] == wal + more[..|more| - 1];
      UpToSplit(wal, more[..|more| - 1], lsn);
    } else if wal != [] {
      assert wal + more == wal;
      UpToSplit(wal[..|wal| - 1], [], lsn);
      assert wal[..|wal| - 1] + [] == wal[..|wal| - 1];
    }
  }

  /** Steps that publish no manifest. A compaction may run up to that point. */
  predicate Unpublished(a: Action) {
    !a.CheckpointPublish? && !a.CompactPublish?
  }

  /** `w'` has grown out of `w` by log records numbered above `lsn` and unlisted deltas; its
      base files may have been overwritten. */
  ghost predicate GrownFrom(w: World, lsn: nat, w': World) {
    && w'.disk.manifest == w.disk.manifest && w.disk.deltaFiles <= w'.disk.deltaFiles
    && |w.disk.wal| <= |w'.disk.wal| && w'.disk.wal[..|w.disk.wal|] == w.disk.wal
    && (forall i | |w.disk.wal| <= i < |w'.disk.wal| :: w'.disk.wal[i].lsn > lsn)
    && NextLsn(w'.disk.wal) > lsn
    && (w'.mem.Some? ==> w'.mem.value.nextLsn > lsn && !w'.mem.value.phase.Truncating?)
  }

  lemma AppendGrows(w: World, lsn: nat, w': World, r: WalRecord, m: Memory)
    requires GrownFrom(w, lsn, w') && w'.mem.Some? && r.lsn == w'.mem.value.nextLsn
    requires m.nextLsn == r.lsn + 1 && !m.phase.Truncating?
    ensures forall h :: GrownFrom(w, lsn, World(Append(w'.disk, r), Some(m), h, w'.base))
  {
    var wal := w'.disk.wal + [r];
    assert wal[..|w.disk.wal|] == w'.disk.wal[..|w.disk.wal|];
  }

  lemma WriteGrows(w: World, lsn: nat, w': World, b: WriteBatch)
    requires GrownFrom(w, lsn, w') && InPhase(w', Idle)
    ensures GrownFrom(w, lsn, WriteStep(w', b))
  {
    var m := w'.mem.value;
    AppendGrows(w, lsn, w', BatchRecord(m.nextLsn, b), Grown(w', b).mem.value);
  }

  lemma LogGrows(w: World, lsn: nat, w': World, r: WalRecord, p: Phase)
    requires GrownFrom(w, lsn, w') && w'.mem.Some? && r.lsn == w'.mem.value.nextLsn && !p.Truncating?
    ensures GrownFrom(w, lsn, LogStep(w', r, p))
  {
    AppendGrows(w, lsn, w', r, w'.mem.value.(nextLsn := r.lsn + 1, phase := p));
  }

  lemma UnpublishedStepGrows(w: World, lsn: nat, w': World, a: Action)
    requires GrownFrom(w, lsn, w') && Unpublished(a)
    ensures GrownFrom(w, lsn, Step(w', a))
  {
    if InPhase(w', Idle) {
      var next := w'.mem.value.nextLsn;
      match a
      case Write(b) => WriteGrows(w, lsn, w', b);
      case LogEvent => LogGrows(w, lsn, w', EventRecord(next), Idle);
      case CheckpointLog => LogGrows(w, lsn, w', CheckpointRecord(next), CheckpointLogged);
      case CompactLog => LogGrows(w, lsn, w', CheckpointRecord(next), CompactionLogged);
      case _ =>
    }
  }

  lemma {:induction false} UnpublishedRunGrows(w: World, lsn: nat, w': World, acts: seq<Action>)
    requires GrownFrom(w, lsn, w') && forall a | a in acts :: Unpublished(a)
    ensures GrownFrom(w, lsn, Run(w', acts))
    decreases |acts|
  {
    if acts != [] {
      UnpublishedStepGrows(w, lsn, w', acts[0]);
      UnpublishedRunGrows(w, lsn, Step(w', acts[0]), acts[1..]);
    }
  }

  lemma {:induction false} MoreDeltaFilesDoNotMatter(g: Graph, deltas: seq<Delta>, a: set<Delta>, b: set<Delta>)
    requires a <= b && forall d | d in deltas :: d in a
    ensures ReplayDeltas(g, deltas, a) == ReplayDeltas(g, deltas, b)
  {
    if deltas != [] {
      MoreDeltaFilesDoNotMatter(g, deltas[..|deltas| - 1], a, b);
    }
  }

  lemma SameReopen(d: Disk, d': Disk)
    requires d'.manifest == d.manifest && d'.files == d.files && d'.wal == d.wal && d.deltaFiles <= d'.deltaFiles
    requires forall x | x in d.manifest.deltas :: x in d.deltaFiles
    ensures Reopen(d') == Reopen(d)
  {
    MoreDeltaFilesDoNotMatter(BaseGraph(d.files), d.manifest.deltas, d.deltaFiles, d'.deltaFiles);
    assert Tail(d') == Tail(d) && LoadPublished(d') == LoadPublished(d);
  }

  lemma TrimFindsOldLog(w: World, w': World)
    requires Contiguous(w.disk.wal) && w.disk.wal != [] && w.disk.wal[0].lsn == 1
    requires GrownFrom(w, NextLsn(w.disk.wal) - 1, w')
    requires NextLsn(w.disk.wal) > ManifestLsn(w.disk.manifest)
    ensures Trim(w'.disk, NextLsn(w.disk.wal) - 1) == Ok(w'.disk.(wal := w.disk.wal))
  {
    var before, after := w.disk.wal, w'.disk.wal;
    var target := NextLsn(before) - 1;
    ContiguousBelowNext(before);
    UpToSplit(before, after[|before|..], target);
    assert after == before + after[|before|..];
    assert after[|before| - 1] == before[|before| - 1];
  }

  lemma GrownFromItself(w: World)
    requires Inv(w) && InPhase(w, Idle)
    ensures GrownFrom(w, w.mem.value.nextLsn - 1, w)
  {
    ContiguousBelowNext(w.disk.wal);
  }

  /** The moment a restore aims at: the engine between two operations, its log numbered from 1
      and ahead of the manifest. */
  ghost predicate Target(w: World) {
    && Inv(w) && InPhase(w, Idle)
    && w.disk.wal != [] && w.disk.wal[0].lsn == 1
    && w.mem.value.nextLsn > ManifestLsn(w.disk.manifest)
  }

  lemma TargetNumbers(w: World)
    requires Target(w)
    ensures Contiguous(w.disk.wal) && w.mem.value.nextLsn == NextLsn(w.disk.wal)
  {
  }

  lemma RunGrowsFromTarget(w: World, acts: seq<Action>)
    requires Target(w) && forall a | a in acts :: Unpublished(a)
    ensures GrownFrom(w, w.mem.value.nextLsn - 1, Run(w, acts))
  {
    GrownFromItself(w);
    UnpublishedRunGrows(w, w.mem.value.nextLsn - 1, w, acts);
  }

  /** Trimming the log of a later disk to the number last used at the target. */
  lemma TrimToTarget(w: World, acts: seq<Action>)
    requires Target(w) && forall a | a in acts :: Unpublished(a)
    ensures var d := Run(w, acts).disk;
            Trim(d, w.mem.value.nextLsn - 1) == Ok(d.(wal := w.disk.wal))
            && d.manifest == w.disk.manifest && w.disk.deltaFiles <= d.deltaFiles
  {
    TargetNumbers(w);
    RunGrowsFromTarget(w, acts);
    TrimFindsOldLog(w, Run(w, acts));
  }

  /** The log names or removes, cascades included, every record of a graph. */
  ghost predicate Forgets(log: seq<WriteBatch>, g: Graph) {
    && (forall k | k in g.nodes :: NodeNamed(log, k))
    && (forall k | k in g.edges :: EdgeNamed(log, k) || LosesEnd(log, g.edges[k]))
  }

  lemma ForgetsIsSettles(log: seq<WriteBatch>, g: Graph)
    ensures Forgets(log, g) <==> Settles(g, EMPTY_GRAPH, log)
  {
    if Settles(g, EMPTY_GRAPH, log) {
      forall k | k in g.edges && !EdgeNamed(log, k) ensures LosesEnd(log, g.edges[k]) {
        assert Kept(Get(g.edges, k), log) == Kept(Get(EMPTY_GRAPH.edges, k), log);
      }
    }
  }

  lemma ReplayOverStrays(files: Files, log: seq<WriteBatch>)
    requires AcceptedLog(EMPTY_GRAPH, log)
    ensures Replay(BaseGraph(files), log).Ok?
    ensures Replay(BaseGraph(files), log).value == Fold(EMPTY_GRAPH, log) <==> Forgets(log, BaseGraph(files))
  {
    ReplayNeverRejects(EMPTY_GRAPH, log);
    ReplayConverges(BaseGraph(files), log);
    ReplayIsFold(BaseGraph(files), log);
    FoldsAgreeIff(BaseGraph(files), EMPTY_GRAPH, log);
    ForgetsIsSettles(log, BaseGraph(files));
  }

  /** Point-in-time restore before any published compaction: take the engine at a moment, let
      it run on without publishing a manifest, torn compactions and crashes included, and trim
      the log to the number last used at that moment. Reopening always succeeds, and gives the
      graph that was live then exactly when the batches up to then name or remove every record
      that is in the base files by now. */
  lemma RestoreBeforePublicationIff(w: World, acts: seq<Action>)
    requires Target(w) && w.disk.manifest.snapshot.None? && forall a | a in acts :: Unpublished(a)
    ensures var d := Run(w, acts).disk;
            var r := Trim(d, w.mem.value.nextLsn - 1);
            && r.Ok? && Recovered(r.value).Ok?
            && (Recovered(r.value).value == w.mem.value.graph <==> Forgets(w.history, BaseGraph(d.files)))
  {
    TrimToTarget(w, acts);
    var d := Run(w, acts).disk.(wal := w.disk.wal);
    FirstBaseSurvives(w);
    ReopenIsOneReplay(d);
    assert Tail(d) == Tail(w.disk);
    ReplayOverStrays(d.files, w.history);
  }

  /** After a published compaction: reopening gives the graph that was live at the moment
      exactly when no listed file was overwritten with something else and the store would have
      reopened as it was running; an overwritten file is reported as corruption. */
  lemma RestoreAfterPublicationIff(w: World, acts: seq<Action>)
    requires Target(w) && w.disk.manifest.snapshot.Some? && forall a | a in acts :: Unpublished(a)
    ensures var d := Run(w, acts).disk;
            var r := Trim(d, w.mem.value.nextLsn - 1);
            && r.Ok?
            && Recovered(r.value) == (if d.files == w.disk.files then Recovered(w.disk) else Err(Corruption))
            && (Recovered(r.value) == Ok(w.mem.value.graph) <==> d.files == w.disk.files && ReopensAsRunning(w))
  {
    TrimToTarget(w, acts);
    RunKeepsInv(w, acts);
    var d := Run(w, acts).disk.(wal := w.disk.wal);
    if d.files == w.disk.files {
      SameReopen(w.disk, d);
    }
  }

  lemma {:induction false} FilesUntouched(w: World, acts: seq<Action>)
    requires forall a | a in acts :: !a.CompactNodes? && !a.CompactEdges? && !a.CompactVectors?
    ensures Run(w, acts).disk.files == w.disk.files
    decreases |acts|
  {
    if acts != [] {
      FilesUntouched(Step(w, acts[0]), acts[1..]);
    }
  }

  /** In particular, after a run in which no compaction wrote a file, a restore gives what
      reopening would have given at the moment. */
  lemma RestoreGivesPastGraph(w: World, acts: seq<Action>)
    requires Target(w) && forall a | a in acts :: Unpublished(a)
    requires forall a | a in acts :: !a.CompactNodes? && !a.CompactEdges? && !a.CompactVectors?
    ensures var r := Trim(Run(w, acts).disk, w.mem.value.nextLsn - 1);
            && r.Ok? && Recovered(r.value) == Recovered(w.disk)
            && (Recovered(r.value) == Ok(w.mem.value.graph) <==> ReopensAsRunning(w))
  {
    TrimToTarget(w, acts);
    FilesUntouched(w, acts);
    SameReopen(w.disk, Run(w, acts).disk.(wal := w.disk.wal));
  }
}
