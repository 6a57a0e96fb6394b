/** Runs of the durability protocol from an empty store that end badly. */
module Scenarios {
  import opened Core
  import opened Log
  import opened Samples
  import opened Durability
  import opened Recovery
  import opened Restore

  lemma {:induction false} RunConcat(w: World, a: seq<Action>, b: seq<Action>)
    ensures Run(w, a + b) == Run(Run(w, a), b)
    decreases |a|
  {
    if a == [] {
      assert a + b == b;
    } else {
      assert (a + b)[1..] == a[1..] + b;
      RunConcat(Step(w, a[0]), a[1..], b);
    }
  }

  lemma RunOne(w: World, a: Action)
    ensures Run(w, [a]) == Step(w, a)
  {
    assert [a][1..] == [];
  }

  lemma RunTwo(w: World, a: Action, b: Action)
    ensures Run(w, [a, b]) == Step(Step(w, a), b)
  {
    assert [a, b] == [a] + [b];
    RunConcat(w, [a], [b]);
    RunOne(w, a);
    RunOne(Step(w, a), b);
  }

  // ---------------------------------------------------------------- whole compactions

  /** A store right after a compaction of a graph: manifest numbered, log empty. */
  function Compacted(w: World): World
    requires w.mem.Some?
  {
    var m := w.mem.value;
    World(Disk(Manifest(Some(m.nextLsn), Some(FilesOf(m.graph)), []), FilesOf(m.graph), w.disk.deltaFiles, []),
          Some(Memory(m.graph, [], 1, Idle)), w.history, |w.history|)
  }

  const FILE_STEPS := [CompactLog, CompactNodes] + [CompactEdges, CompactVectors]

  /** A whole compaction that removes a number of log records. */
  function Compaction(records: nat): seq<Action> {
    FILE_STEPS + ([CompactPublish, RemoveSegment(records)] + [CompactDone])
  }

  lemma FilesWritten(w: World)
    requires InPhase(w, Idle)
    ensures var w' := Run(w, FILE_STEPS);
            var m := w.mem.value;
            && InPhase(w', VectorsWritten) && w'.mem.value.graph == m.graph && w'.mem.value.nextLsn == m.nextLsn + 1
            && w'.disk.files == FilesOf(m.graph) && w'.disk.deltaFiles == w.disk.deltaFiles
            && |w'.disk.wal| == |w.disk.wal| + 1 && w'.history == w.history
  {
    RunConcat(w, [CompactLog, CompactNodes], [CompactEdges, CompactVectors]);
    RunTwo(w, CompactLog, CompactNodes);
    RunTwo(Run(w, [CompactLog, CompactNodes]), CompactEdges, CompactVectors);
  }

  /** The steps after the file writes, when they remove the whole log. */
  lemma Truncated(w: World)
    requires InPhase(w, VectorsWritten) && w.mem.value.nextLsn > 0
    ensures var m := w.mem.value;
            Step(Step(Step(w, CompactPublish), RemoveSegment(|w.disk.wal|)), CompactDone) ==
            World(Disk(Manifest(Some(m.nextLsn - 1), Some(FilesOf(m.graph)), []), w.disk.files, w.disk.deltaFiles, []),
                  Some(Memory(m.graph, [], 1, Idle)), w.history, |w.history|)
  {
  }

  lemma CompactionRuns(w: World)
    requires InPhase(w, Idle)
    ensures Run(w, Compaction(|w.disk.wal| + 1)) == Compacted(w)
  {
    var w1 := Run(w, FILE_STEPS);
    var remove := RemoveSegment(|w.disk.wal| + 1);
    FilesWritten(w);
    RunConcat(w, FILE_STEPS, [CompactPublish, remove] + [CompactDone]);
    RunConcat(w1, [CompactPublish, remove], [CompactDone]);
    RunTwo(w1, CompactPublish, remove);
    RunOne(Step(Step(w1, CompactPublish), remove), CompactDone);
    Truncated(w1);
  }

  // ---------------------------------------------------------------- one node, then a compaction

  lemma WithA() returns (w: World)
    ensures w == Run(EMPTY_WORLD, [Write(NODE_A)]) && Inv(w)
    ensures w == World(
      EMPTY_DISK.(wal := [BatchRecord(1, NODE_A)]),
      Some(Memory(Graph(map["a" := Plain("a", "t")], map[]), [Entry(1, NODE_A)], 2, Idle)), [NODE_A], 0)
  {
    PlainAccepted(EMPTY_GRAPH, "a", "t");
    PlainApplied(EMPTY_GRAPH, "a", "t");
    RunOne(EMPTY_WORLD, Write(NODE_A));
    EmptyWorldInv();
    RunKeepsInv(EMPTY_WORLD, [Write(NODE_A)]);
    w := Step(EMPTY_WORLD, Write(NODE_A));
  }

  const COMPACTED_A := [Write(NODE_A)] + Compaction(2)

  lemma CompactedA(acts: seq<Action>) returns (w: World)
    requires acts == COMPACTED_A
    ensures w == Run(EMPTY_WORLD, acts) && Inv(w)
    ensures InPhase(w, Idle) && w.mem.value.nextLsn == 1 && Recoverable(w)
    ensures "a" in w.mem.value.graph.nodes && "b" !in w.mem.value.graph.nodes
    ensures w.disk.manifest == Manifest(Some(2), Some(FilesOf(w.mem.value.graph)), [])
  {
    Different();
    var w1 := WithA();
    CompactionRuns(w1);
    RunConcat(EMPTY_WORLD, [Write(NODE_A)], Compaction(2));
    EmptyWorldInv();
    RunKeepsInv(EMPTY_WORLD, acts);
    w := Compacted(w1);
  }

  // ---------------------------------------------------------------- a restore that shows the future

  const LATER := [Write(NODE_B)] + ([CompactLog, CompactNodes] + [Crash])

  lemma WriteB(w: World)
    requires Inv(w) && InPhase(w, Idle)
    ensures Step(w, Write(NODE_B)) == Grown(w, NODE_B) && Inv(Grown(w, NODE_B)) && InPhase(Grown(w, NODE_B), Idle)
    ensures "b" in Grown(w, NODE_B).mem.value.graph.nodes
    ensures "a" in w.mem.value.graph.nodes ==> "a" in Grown(w, NODE_B).mem.value.graph.nodes
  {
    PlainAccepted(w.mem.value.graph, "b", "t");
    PlainApplied(w.mem.value.graph, "b", "t");
    EveryStepKeepsInv(w, Write(NODE_B));
  }

  lemma NodeFileWritten(w: World)
    requires InPhase(w, Idle)
    ensures var w' := Run(w, [CompactLog, CompactNodes]);
            && InPhase(w', NodesWritten) && w'.mem.value.graph == w.mem.value.graph
            && w'.disk.manifest == w.disk.manifest && w'.disk.files.nodes == FilesOf(w.mem.value.graph).nodes
  {
    RunTwo(w, CompactLog, CompactNodes);
  }

  lemma BaseHasNodes(f: Files, g: Graph)
    requires f.nodes == FilesOf(g).nodes
    ensures BaseGraph(f).nodes.Keys == g.nodes.Keys
  {
  }

  lemma RewriteAndCrash(w: World)
    requires InPhase(w, Idle)
    ensures BaseGraph(Run(w, [CompactLog, CompactNodes] + [Crash]).disk.files).nodes.Keys ==
            w.mem.value.graph.nodes.Keys
  {
    RunConcat(w, [CompactLog, CompactNodes], [Crash]);
    NodeFileWritten(w);
    RunOne(Run(w, [CompactLog, CompactNodes]), Crash);
    BaseHasNodes(Run(w, [CompactLog, CompactNodes]).disk.files, w.mem.value.graph);
  }

  lemma LaterFiles(w: World)
    requires Inv(w) && InPhase(w, Idle)
    ensures "b" in BaseGraph(Run(w, LATER).disk.files).nodes
  {
    WriteB(w);
    RunConcat(w, [Write(NODE_B)], [CompactLog, CompactNodes] + [Crash]);
    RunOne(w, Write(NODE_B));
    RewriteAndCrash(Grown(w, NODE_B));
  }

  lemma LaterUnpublished()
    ensures forall a | a in LATER :: Unpublished(a)
  {
  }

  lemma LaterSpoils(w: World)
    requires Target(w) && w.disk.manifest.snapshot.None? && w.history == [NODE_A]
    ensures var r := Trim(Run(w, LATER).disk, w.mem.value.nextLsn - 1);
            r.Ok? && Recovered(r.value).Ok? && Recovered(r.value).value != w.mem.value.graph
  {
    LaterFiles(w);
    LaterUnpublished();
    OnlyANamed();
    RestoreBeforePublicationIff(w, LATER);
  }

  /** Write "a" (number 1), write "b", start the first compaction and crash after its node file:
      restoring to number 1 succeeds, but not to the graph that was live at number 1. */
  lemma TornCompactionSpoilsRestore() returns (w: World)
    ensures w == Run(EMPTY_WORLD, [Write(NODE_A)]) && Target(w) && w.mem.value.nextLsn - 1 == 1
    ensures forall a | a in LATER :: Unpublished(a)
    ensures var r := Trim(Run(w, LATER).disk, 1);
            r.Ok? && Recovered(r.value).Ok? && Recovered(r.value).value != w.mem.value.graph
  {
    w := WithA();
    LaterUnpublished();
    LaterSpoils(w);
  }

  // ---------------------------------------------------------------- a reopening that reports corruption

  /** Compacting a changed graph again and crashing after the node file. */
  lemma RewrittenNodesAreCorrupt(w: World)
    requires Inv(w) && InPhase(w, Idle) && w.disk.manifest.snapshot.Some?
    requires FilesOf(w.mem.value.graph).nodes != w.disk.manifest.snapshot.value.nodes
    ensures Recovered(Run(w, [CompactLog, CompactNodes]).disk) == Err(Corruption)
  {
    NodeFileWritten(w);
    RunKeepsInv(w, [CompactLog, CompactNodes]);
    CorruptedIff(Run(w, [CompactLog, CompactNodes]));
  }

  lemma WriteBThenRewrite(w: World)
    requires Inv(w) && InPhase(w, Idle) && "b" !in w.mem.value.graph.nodes
    requires w.disk.manifest.snapshot == Some(FilesOf(w.mem.value.graph))
    ensures Recovered(Run(w, [Write(NODE_B)] + [CompactLog, CompactNodes]).disk) == Err(Corruption)
  {
    WriteB(w);
    RunConcat(w, [Write(NODE_B)], [CompactLog, CompactNodes]);
    RunOne(w, Write(NODE_B));
    assert "b" in FilesOf(Grown(w, NODE_B).mem.value.graph).nodes.value;
    assert "b" !in w.disk.manifest.snapshot.value.nodes.value;
    RewrittenNodesAreCorrupt(Grown(w, NODE_B));
  }

  /** Write "a", compact, write "b", compact again and crash after the node file: the store
      reports corruption from then on. */
  lemma SecondCompactionCorrupts(acts: seq<Action>)
    requires acts == COMPACTED_A + ([Write(NODE_B)] + [CompactLog, CompactNodes])
    ensures Recovered(Run(EMPTY_WORLD, acts).disk) == Err(Corruption)
  {
    var w := CompactedA(COMPACTED_A);
    RunConcat(EMPTY_WORLD, COMPACTED_A, [Write(NODE_B)] + [CompactLog, CompactNodes]);
    WriteBThenRewrite(w);
  }

  // ---------------------------------------------------------------- a log that replay rejects

  lemma RecoveredAfterEvent(w: World)
    requires InPhase(w, Idle)
    ensures Recovered(Step(w, LogEvent).disk) == Recovered(w.disk)
  {
    WalSnoc(w.disk.wal, EventRecord(w.mem.value.nextLsn));
    assert LoadPublished(Step(w, LogEvent).disk) == LoadPublished(w.disk);
  }

  lemma EdgeAccepted(w: World)
    requires InPhase(w, Idle) && "a" in w.mem.value.graph.nodes && "b" in w.mem.value.graph.nodes
    ensures Step(w, Write(EDGE_AB)) == Grown(w, EDGE_AB) && "e" in Grown(w, EDGE_AB).mem.value.graph.edges
  {
    EdgeNeedsB(w.mem.value.graph);
    EdgesByIdSpec(EDGE_AB.edgesUpserted);
    assert EDGE_AB.edgesUpserted[0] in EDGE_AB.edgesUpserted;
    EdgesAfterAt(w.mem.value.graph.edges, EDGE_AB, "e");
  }

  const SKIPPED_THEN_USED := [Write(NODE_B), LogEvent] + [Write(EDGE_AB)]

  lemma SkippedSteps(w: World) returns (w': World)
    requires Inv(w) && InPhase(w, Idle) && "a" in w.mem.value.graph.nodes
    ensures w' == Grown(Step(Grown(w, NODE_B), LogEvent), EDGE_AB) && w' == Run(w, SKIPPED_THEN_USED)
    ensures InPhase(w', Idle) && w'.mem.value.nextLsn == w.mem.value.nextLsn + 3
    ensures w'.disk.manifest == w.disk.manifest && "e" in w'.mem.value.graph.edges
  {
    WriteB(w);
    var w2 := Step(Grown(w, NODE_B), LogEvent);
    EdgeAccepted(w2);
    RunConcat(w, [Write(NODE_B), LogEvent], [Write(EDGE_AB)]);
    RunTwo(w, Write(NODE_B), LogEvent);
    RunOne(w2, Write(EDGE_AB));
    w' := Grown(w2, EDGE_AB);
  }

  /** Once recovery skips a node, it rejects an edge to that node that it does not skip. */
  lemma SkippedNodeRejectsEdge(w: World)
    requires InPhase(w, Idle) && ReopensAsRunning(w)
    requires "a" in w.mem.value.graph.nodes && "b" !in w.mem.value.graph.nodes
    requires w.mem.value.nextLsn + 1 == ManifestLsn(w.disk.manifest)
    ensures Recovered(Grown(Step(Grown(w, NODE_B), LogEvent), EDGE_AB).disk) == Err(Validation)
  {
    var w1 := Grown(w, NODE_B);
    RecoveredAfterWrite(w, NODE_B);
    RecoveredAfterEvent(w1);
    RecoveredAfterWrite(Step(w1, LogEvent), EDGE_AB);
    EdgeNeedsB(w.mem.value.graph);
  }

  /** Write "a", compact, write "b" (number 1, skipped by recovery), log an event, write an edge
      to "b" (number 3, above the manifest): the engine accepts all of it, and reopening fails. */
  lemma SkippedWriteRejectsReplay(acts: seq<Action>) returns (w: World)
    requires acts == COMPACTED_A + SKIPPED_THEN_USED
    ensures w == Run(EMPTY_WORLD, acts) && InPhase(w, Idle) && "e" in w.mem.value.graph.edges
    ensures w.mem.value.nextLsn == 4 && ManifestLsn(w.disk.manifest) == 2
    ensures Recovered(w.disk) == Err(Validation)
  {
    var w0 := CompactedA(COMPACTED_A);
    RunConcat(EMPTY_WORLD, COMPACTED_A, SKIPPED_THEN_USED);
    CorruptionOnlyInLaterCompaction(w0);
    SkippedNodeRejectsEdge(w0);
    w := SkippedSteps(w0);
  }
}
