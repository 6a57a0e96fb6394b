# UNDR9: a verified model of the graph database core

UNDR9 is a small graph database. Its logic lives in plain maps, queues and logs: a storage
engine with snapshot transactions, a write-ahead log with delta checkpoints and compaction, a
query layer with bidirectional search and ranking, indexes and a published snapshot that are
updated in place, and log shipping to followers. This project models that logic in Dafny and
proves what the pieces promise together. `dafny verify dfyconfig.toml` checks everything.

| area | files |
|---|---|
| records, batches, graph integrity, replay | `Core.dfy`, `Log.dfy` |
| snapshot transactions | `Versions.dfy`, `Sessions.dfy`, `Mvcc.dfy`, `Isolation.dfy`, `Engine.dfy`, `EdgeConflicts.dfy`, `LostUpdates.dfy`, `WholeTransactions.dfy` |
| durability, recovery, restore | `Durability.dfy`, `Recovery.dfy`, `Restore.dfy`, `RestoreTargets.dfy`, `Samples.dfy`, `Scenarios.dfy`, `Wal.dfy` |
| graph search and ranking | `Reach.dfy`, `Paths.dfy`, `ShortestPath.dfy`, `PassedEdges.dfy`, `Traversal.dfy`, `Distances.dfy`, `TopK.dfy` |
| indexes, overlay queries, published snapshot | `Buckets.dfy`, `Index.dfy`, `LiveIndex.dfy`, `Overlay.dfy`, `Publish.dfy` |
| replication | `Replication.dfy`, `LostShipments.dfy` |
| consolidation | `Consolidation.dfy`, `ConsolidationRuns.dfy` |

**How it is laid out.** Every part has functions that say what one operation does (`Apply`,
`Stage`, `Step`, `Reopen`, `Plan`, `Deliver`, ...), methods with the loops and the in-place
updates of the program, proved equal to those functions or to a property that does not mention
them, and lemmas about whole runs. What the smallest of these functions mean is stated once more by
the fields of the records (`Core.AcceptedIff`, `Reach.ExpansionIff`, `Paths.PathIs`,
`Overlay.TimeRangeIs`, `TopK.RankTop`, `ConsolidationRuns.RunConsolidation`, ...). Whole runs are sequences of events (module Mvcc), of single
disk writes, crashes and reopens (module Durability), or of commits and deliveries (module
Replication).

**Where the program does less than one would expect.** Each of these is proved, with the exact
condition where there is one:

- A crash costs exactly the pending batches that are numbered at or below the manifest, because
  recovery skips them (`Recovery.NothingIsLostIff`); over a whole run nothing that was ever accepted
  is lost if and only if no crash falls into such a moment (`Restore.RunLosesNothingIff`). Reopening
  is the validated replay of the rest (`Recovery.ReopenReplaysSurvivors`), and gives the running
  graph if and only if the rest uses no node that only skipped batches provide and names or removes
  every record on which the skipped batches matter (`Recovery.ReopensAsRunningIff`). A rest that
  does not validate makes reopening fail for good (`Scenarios.SkippedWriteRejectsReplay`).
- Skipping starts with a completed compaction, which restarts the log numbering at 1 while the
  manifest keeps the old number. Every accepted next write survives a crash if and only if it is
  numbered above the manifest and the store would reopen as it is running
  (`Restore.NextWriteSurvivesIff`); a completed compaction breaks the first half
  (`Restore.CompactionOpensWindow`) and the next published checkpoint repairs both
  (`Restore.CheckpointClosesWindow`).
- The same restart disturbs snapshot readers: the next write spares a reader if and only if it is
  numbered above it (`Isolation.WritesSpareReaderIff`, `Isolation.CompactionBlindsReaders`). It also
  hides conflicts: a node that one transaction committed is a conflict for another if and only if the
  commit is numbered above the other's start (`Isolation.NodeConflictIff`), so after a compaction two
  open transactions can both commit one node (`LostUpdates.CompactionHidesConflict`).
- The same restart makes followers miss commits, because a leader ships under its log numbers: the
  next commit reaches a follower that keeps up if and only if it is numbered above all that the
  follower has or has yet to get (`Replication.NextCommitShipsIff`). A compaction of the leader is
  harmless only until it commits again; what then becomes of follower and leader is
  `Replication.RestartConvergesIff`. Runs in which a follower misses a commit for good without an
  error, or rejects every later answer, are `LostShipments.RestartLosesCommit` and
  `LostShipments.RestartBlocksShipping`.
- A crash inside a compaction that is not the first makes the store report corruption if and only
  if a file it has rewritten differs from the listed one (`Recovery.CorruptedIff`,
  `Scenarios.SecondCompactionCorrupts`). A torn first compaction always recovers
  (`Log.HistoryForgetsStart`).
- Point-in-time restore reads whatever base files exist by now. Before a published compaction it
  succeeds, and gives the past graph if and only if the batches up to the target name or remove
  every record in those files (`Restore.RestoreBeforePublicationIff`); a later torn compaction can
  put a record of the future into the restored graph (`Scenarios.TornCompactionSpoilsRestore`).
  After a published compaction it gives the past graph if and only if no listed file was overwritten
  and the store would have reopened as it was running (`Restore.RestoreAfterPublicationIff`). The next
  published checkpoint ends it: a moment can be restored if and only if no manifest was published
  since (`RestoreTargets.RestorableUntilPublished`).
- An edge that one transaction both creates and deletes leaves no lineage. A touched edge is a
  conflict for other open transactions if and only if it leaves a trace
  (`Isolation.EdgeConflictIff`); without one, two transactions that touched the same edge can both
  commit (`EdgeConflicts.EdgeConflictIsMissed`).
- A commit checks what its session touched, not what its node deletes take along at commit time. It
  changes only records that still hold their begin-time value if and only if no stored edge that the
  session did not touch hangs on a node that it deletes (`Isolation.CommitChangesOnlyKnownIff`); an
  edge that another transaction committed in between is lost without a conflict
  (`LostUpdates.AttachedEdgeIsLost`).
- A merged batch forgets that an upsert followed a delete of the same id. A session commits what
  it showed if and only if it shows no id that it deleted explicitly
  (`Sessions.CommitsWhatItShowed`, `Sessions.RevivedNodeIsLost`).
- The planned change that updates the published snapshot differs from the engine's change for
  batches that repeat an edge id or point a stored edge away from a node they delete; the exact
  condition is `Publish.PlanExact` (`Publish.PlannedIsAppliedIff`).
- Unique keys are not enforced. When two nodes share one, incremental updates can lose it
  (`LiveIndex.SharedKeyIsLost`) and overlay queries can miss a stored node
  (`Overlay.IncompleteBaseMisses`).
- `shortest_path` never tests the label of a node on the side that starts there, so a path can begin
  and end at nodes that the label constraint does not admit; it is an admitted walk if and only if it
  is empty or its target is admitted (`Paths.PathIsWalkIff`). Each end is tested when the other side
  looks for it, and this matters for a single hop: a direct edge can be found if and only if one of
  its ends is admitted. When the target is not admitted, even that edge is passed by if the target
  lists, before the source, another node that the source side knows by then; the answer then has two
  hops, and in all other cases it is a shortest path that can be found (`ShortestPath.ShortestPath`,
  `PassedEdges.DirectEdgeIsPassedBy`).
- What is appended after a torn frame is swallowed without notice if and only if it does not fill up
  the length that replay reads there (`Wal.AppendAfterTornFrame`).
- Queries of a transaction show its snapshot if and only if the published graph agrees with the
  engine's live graph outside the session's changes (`Overlay.OverlayIsSnapshotIff`).

## Model

| member | source | states |
|---|---|---|
| Core.ApplyBatchToMaps | crates/storage/src/lib.rs:1631-1661 | the in-place insert, cascade and remove loops give upserts with the last record of an id winning, then node deletes with every incident edge, then edge deletes |
| Core.AcceptedIff | crates/storage/src/lib.rs:2219-2263 | which batches are accepted, by the fields of the records: not empty, no property named embedding, numbers where numbers are due, edges within one namespace between nodes stored or brought along |
| Core.NamespaceIs | crates/storage/src/lib.rs:2245-2263 | the namespace is what stands before the first colon, and there is none without a colon |
| Core.AppliedNode | crates/storage/src/lib.rs:1631-1645 | a node is gone if deleted, else its last upsert in the list, else as it was |
| Core.AppliedEdge | crates/storage/src/lib.rs:1646-1661 | the latest version of an edge stays exactly if neither it nor its source nor its target is deleted |
| Core.NodesAfterAt | crates/storage/src/lib.rs:1631-1645 | what every node id holds after a batch: nothing if deleted, else its last upsert, else what was stored |
| Core.EdgesAfterAt | crates/storage/src/lib.rs:1646-1661 | an edge is kept exactly if its latest version touches no deleted node and it is not deleted itself |
| Core.ApplyKeepsSound | crates/storage/src/lib.rs:1587-1661 | every accepted batch, cascades included, leaves each edge with both ends stored and in one namespace and each node normal |
| Log.ReplayNeverRejects | crates/storage/src/lib.rs:2131-2157 | validated replay of a log in the order in which the engine accepted it, nothing left out, succeeds and gives the graph the engine had |
| Log.AcceptedLogKeepsSound | crates/storage/src/lib.rs:2131-2157 | graph integrity holds after every accepted log |
| Log.HistoryForgetsStart | crates/storage/src/lib.rs:894-907 | replaying a full history over any leftover records of ids it once upserted is never rejected and gives the same graph as replaying it over nothing |
| Log.FoldsAgreeIff | crates/storage/src/lib.rs:1631-1661 | a log makes two start graphs equal if and only if it names or removes, cascades included, every record on which they differ |
| Log.ReplaysIffAccepted | crates/storage/src/lib.rs:1597-1629 | well-formed batches replay if and only if the engine would have accepted them in that order; the only error is a failed validation |
| Log.ReplaysElsewhereIff | crates/storage/src/lib.rs:1597-1629 | a log accepted over one graph replays over another if and only if every edge end that a batch needs is stored there or named earlier in the log |
| Versions.AppendVersionEntry | crates/storage/src/lib.rs:1794-1806 | an entry of the newest revision is replaced, any other is appended |
| Versions.LatestAfterAppend | crates/storage/src/lib.rs:1794-1849 | after an append, readers at or above its revision see its value and all others what they saw before |
| Versions.PreserveHistoricalVersions | crates/storage/src/lib.rs:1741-1768 | the loop keeps, for exactly the touched keys that have a lineage, the live value under its own revision |
| Versions.RecordVersionsAfterCommit | crates/storage/src/lib.rs:1770-1792 | the loop appends the new value or absence for every touched key and nothing else |
| Versions.UpdateLineage | crates/storage/src/lib.rs:1851-1866 | exactly the stamped keys move to the new revision |
| Versions.CurrentRevisionSeesLive | crates/storage/src/lib.rs:1828-1849 | a reader at the current revision sees the live value of every key |
| Versions.CommitKeepsVisible | crates/storage/src/lib.rs:1741-1866 | a commit numbered above a reader changes nothing the reader sees of any key |
| Versions.CommitKeepsTableInv | crates/storage/src/lib.rs:609-664 | lineage covers the live keys and never runs ahead, and keys without lineage have only absences in their history |
| Versions.CommitKeepsSnapshot | crates/storage/src/lib.rs:722-748 | the whole snapshot at an earlier revision survives a commit |
| Versions.BuildSnapshot | crates/storage/src/lib.rs:722-748 | the loop over lineage, live and override keys builds the map of all values the session sees |
| Versions.SnapshotAt | crates/storage/src/lib.rs:722-748 | the keys it walks miss none: every key has in the snapshot exactly the value visible to the session |
| Versions.BuildDelta | crates/storage/src/lib.rs:750-804 | the loop collects exactly the keys whose live and visible values differ, with the old value removed and the visible one added |
| Versions.DeltaMaterialises | crates/storage/src/lib.rs:750-804 | live maps with the delta applied are exactly the session's snapshot, though the delta looks only at newer, historical and overridden keys |
| Sessions.StageShows | crates/storage/src/lib.rs:1070-1125 | a staged operation changes the session's view as it would change a graph, a node delete with its incident edges |
| Sessions.StageKeepsSession | crates/storage/src/lib.rs:1070-1145 | staging keeps a session consistent: its view shows the latest upserts except what was deleted, view edges have both ends, endpoints validate, touches are recorded |
| Sessions.CommitsWhatItShowed | crates/storage/src/lib.rs:1684-1699 | the regrouped batch gives the session's view if and only if no explicitly deleted id is visible in it |
| Sessions.RevivedNodeIsLost | crates/storage/src/lib.rs:1684-1699 | deleting and then upserting one node shows it but commits its deletion |
| Mvcc.WriteKeepsBase | crates/storage/src/lib.rs:609-664 | a write numbered above a revision leaves the graph visible at that revision as it was |
| Mvcc.CommitStepOk | crates/storage/src/lib.rs:833-876 | a commit keeps the invariant and the start graph of every other session, also when it clears unused history |
| Mvcc.StageStepOk | crates/storage/src/lib.rs:811-831 | staging keeps the invariant; a refused operation drops its session and nothing else |
| Mvcc.RollbackStepOk | crates/storage/src/lib.rs:878-888 | a rollback keeps the invariant and every other session's start graph |
| Mvcc.EveryStepOk | crates/storage/src/lib.rs:605-888 | every guarded step keeps the invariant, open sessions' start graphs and growing touched sets, never reopens a session and never moves lineage back |
| Isolation.RunWithoutCompactionIsGuarded | crates/wal/src/lib.rs:175-188 | only a completed compaction can number a write at or below the last committed revision |
| Engine.EveryRunFromOpen | crates/storage/src/lib.rs:1147-1167 | from a recovered graph with numbering ahead, every run without a compaction keeps integrity, invariant and consistent sessions |
| Isolation.RunKeepsInv | crates/storage/src/lib.rs:605-888 | the invariant, graph integrity included, holds after every guarded run |
| Isolation.SnapshotsAreStable | crates/storage/src/lib.rs:1808-1849 | over every guarded run, a session that stays open sees the same start graph at the end as at the beginning |
| Isolation.ReadsAreFromBegin | crates/storage/src/lib.rs:666-685 | a value read at the start revision after any guarded run is the value that was live when the transaction began |
| Isolation.NoLostUpdates | crates/storage/src/lib.rs:833-876 | a commit succeeds only if every touched node and edge still holds its begin-time value |
| Isolation.CommitChangesOnlyKnownIff | crates/storage/src/lib.rs:1631-1661 | a successful commit changes only nodes and edges that still hold their begin-time value if and only if every stored edge at a node it deletes is one the session touched |
| Isolation.FirstCommitterWins | crates/storage/src/lib.rs:833-876 | of two sessions that touched one node, once one commits the other never can, whatever happens in between |
| Isolation.NodeConflictIff | crates/storage/src/lib.rs:833-863 | after any successful commit, compactions before it included, a node it touched conflicts with another open session if and only if the commit is numbered above that session's start |
| Isolation.EdgeConflictIff | crates/storage/src/lib.rs:1851-1866 | after a commit, a touched edge, cascaded ones included, conflicts with another open session if and only if it is still stored or had a lineage |
| Isolation.FirstCommitterWinsOnEdges | crates/storage/src/lib.rs:833-876 | of two sessions that touched one edge, once one commits and leaves a trace of it the other never can |
| EdgeConflicts.BothCommit | crates/storage/src/lib.rs:1851-1866 | for any new edge: a session that upserts and deletes it and one that upserts it both commit |
| EdgeConflicts.EdgeConflictIsMissed | crates/storage/src/lib.rs:1851-1866 | such a run exists from a store with two nodes |
| LostUpdates.AttachedEdgeIsLost | crates/storage/src/lib.rs:1646-1661 | for any new edge: a session that deletes its source commits after another that upserted the edge, without a conflict, and the edge it never touched is gone |
| LostUpdates.LostEdgeRun | crates/storage/src/lib.rs:833-876 | such a run exists from a store with two nodes |
| LostUpdates.CompactionHidesConflict | crates/wal/src/lib.rs:175-188 | two sessions upserted one node, a compaction follows: both commit and the second replaces what the first committed |
| LostUpdates.LostNodeRun | crates/wal/src/lib.rs:175-188 | such a run exists from every store with a revision and for any two versions of a node |
| Isolation.RunKeepsConsistent | crates/storage/src/lib.rs:1070-1145 | in every guarded run all open sessions stay consistent with their own start graphs |
| Isolation.UncontendedCommit | crates/storage/src/lib.rs:833-876 | with no commit since begin, a session of normal operations commits, and the live graph becomes its view if and only if it revived nothing |
| Isolation.DeltaGivesView | crates/storage/src/lib.rs:722-804 | snapshot, view and patched live maps of a session are the same graph |
| Isolation.WritesSpareReaderIff | crates/storage/src/lib.rs:609-664 | the next write changes nothing of nodes or edges for readers at a revision, whatever it writes, if and only if its number lies above it |
| Isolation.CompactionBlindsReaders | crates/wal/src/lib.rs:175-188 | after a completed compaction and one write, a new session misses stored nodes of higher lineage |
| Engine.WriteTables | crates/storage/src/lib.rs:609-664 | history, maps and lineage of both tables after a batch, cascaded edges included |
| Engine.OpenedInv | crates/storage/src/lib.rs:1147-1167 | rebuilding the lineage of a sound graph establishes the transaction invariant |
| Engine.StorageEngine.constructor | crates/storage/src/lib.rs:1147-1167 | every stored key of both tables gets the recovered revision, with no history and no sessions |
| Engine.StorageEngine.ApplyWriteBatch | crates/storage/src/lib.rs:605-664 | the in-place write is the direct-write step: refused batches change nothing; accepted ones become live under the answered number, which is the next one and the new revision; history is kept while sessions exist |
| Engine.StorageEngine.BeginTransaction | crates/storage/src/lib.rs:666-685 | the answered id was used by no open session and now holds an empty session at the current revision; nothing else changes |
| Engine.StorageEngine.StageOperation | crates/storage/src/lib.rs:811-831 | staging fails exactly for an unknown id or an edge whose ends the session does not see; the session is taken out and put back only if it succeeds; nothing else changes |
| Engine.CheckCommit | crates/storage/src/lib.rs:833-863 | the key-by-key checks find the refusal of the commit step, in its order: missing, node conflict, edge conflict, invalid batch |
| Engine.StorageEngine.CommitTransaction | crates/storage/src/lib.rs:833-876 | the in-place commit is the commit step, not counting the committing session as a reader: success closes the session, applies its batch and answers the next number; a refusal changes nothing |
| Engine.StorageEngine.RollbackTransaction | crates/storage/src/lib.rs:878-888 | closes the session and no other, leaves stored records, lineage and numbers alone, and clears history when it was the last |
| WholeTransactions.BeginAnswersNewId | crates/storage/src/lib.rs:666-685 | begin answers an id that no open session has and opens an empty session under it at the current revision |
| WholeTransactions.BegunTransactionCommits | crates/storage/src/lib.rs:666-876 | begin, upsert a node and commit under the answered id: every call succeeds, that node and nothing else changes, other sessions stay |
| WholeTransactions.BegunTransactionRollsBack | crates/storage/src/lib.rs:878-888 | begin and roll back under the answered id: with other sessions open the state is as before but for the used id |
| Engine.StorageEngine.TransactionSnapshot | crates/storage/src/lib.rs:722-748 | returns the session's snapshot of both tables |
| Recovery.ReopenIsOneReplay | crates/storage/src/lib.rs:1176-1212 | opening is one replay of the listed deltas and the log tail over the base files |
| Recovery.EveryStepKeepsInv | crates/storage/src/lib.rs:1214-1350 | every disk step, a crash at any moment and a reopening keep: published batches plus pending ones are the history, pending is the log above the manifest, files not yet rewritten are the listed ones |
| Recovery.ReopenReplaysSurvivors | crates/storage/src/lib.rs:441-469 | at any moment reopening is the validated replay of the published batches and the pending ones above the manifest, or a corruption report |
| Recovery.NothingIsLostIff | crates/storage/src/lib.rs:1182-1183 | a crash costs no batch if and only if every pending one is numbered above the manifest |
| Recovery.RecoveryEquivalence | crates/storage/src/lib.rs:441-469 | while nothing pending is skipped and the files match, reopening gives the in-order application of all accepted batches, which is the running graph |
| Recovery.ReopensAsRunningIff | crates/storage/src/lib.rs:1176-1212 | a running store reopens as it is if and only if the kept batches use no node that only skipped ones provide, and name or remove every record on which the skipped ones matter |
| Recovery.CorruptedIff | crates/storage/src/lib.rs:2353-2373 | a crash leads to a corruption report if and only if a compaction after the first has rewritten a file with other content than the listed one, phase by phase |
| Recovery.CorruptionOnlyInLaterCompaction | crates/storage/src/lib.rs:2353-2373 | before the first published compaction, or outside file rewriting, a store with nothing skipped reopens as it is running |
| Recovery.DamageIsRefusedIff | crates/storage/src/lib.rs:2353-2373 | a store that would otherwise open reports corruption exactly if a present base file differs from the listed one |
| Recovery.MissingDeltaIsRefused | crates/storage/src/lib.rs:2131-2157 | a listed delta that is missing keeps the store from opening |
| Restore.EveryRunRecovers | crates/storage/src/lib.rs:1176-1350 | in every run from an empty store the engine holds the sound fold of its history; reopening replays what a crash would leave of it, all of it if and only if nothing is numbered too low; corruption exactly when a listed file was overwritten |
| Restore.RunLosesNothingIff | crates/storage/src/lib.rs:1176-1350 | over every run, completed compactions included, the history is all that the engine ever accepted if and only if every crash falls where all pending batches are numbered above the manifest |
| Restore.SafeRunRecovers | crates/storage/src/lib.rs:1176-1350 | in every run that meets this condition the engine holds the in-order application of all batches it ever accepted, and reopening after one more safe crash gives the same or reports an overwritten file |
| Restore.LogKeptRunIsSafe | crates/storage/src/lib.rs:1214-1350 | runs whose compactions do not drop the last log record meet the condition, wherever the crashes are |
| Restore.LogKeptRunRecovers | crates/storage/src/lib.rs:1176-1350 | so in every such run engine and reopening hold the in-order application of all accepted batches, unless a listed file was overwritten, which is reported |
| Restore.NextWriteSurvivesIff | crates/storage/src/lib.rs:1182-1183 | every accepted next write survives a crash if and only if its number exceeds the manifest's and the store would reopen as it is running |
| Restore.RecoveredAfterWrite | crates/storage/src/lib.rs:1182-1196 | what reopening finds after one more logged write: the write applied to what it found before, a rejection, or the same as before if it is numbered too low |
| Restore.CompactionOpensWindow | crates/wal/src/lib.rs:175-188 | the last step of a compaction leaves a store that reopens as it is but whose next write does not survive |
| Restore.CheckpointClosesWindow | crates/storage/src/lib.rs:1214-1251 | publishing a checkpoint makes the store reopen as it is and the next write survive again |
| Restore.RewriteFrom | crates/wal/src/lib.rs:287-304 | rewriting succeeds exactly for records numbered from 1 without gaps, and keeps them |
| RestoreTargets.TrimIff | crates/storage/src/lib.rs:2577-2606 | a restore succeeds exactly from the manifest number to the last log number if the records up to the target, which it keeps, are numbered from 1 |
| RestoreTargets.ReachableTrimIff | crates/storage/src/lib.rs:2577-2606 | at any moment of any run: it fails besides only for a log that reaches below the target without going back to 1, and keeps the front of the log |
| RestoreTargets.RestoresAreInRange | crates/storage/src/lib.rs:2583-2598 | in every run a restore that succeeds aims neither below the published manifest nor beyond the log |
| RestoreTargets.RestorableUntilPublished | crates/storage/src/lib.rs:2583-2587 | over every run without a compaction, crashes included, a moment can be restored if and only if no manifest was published since |
| RestoreTargets.CheckpointEndsRestores | crates/storage/tests/recovery.rs:723-750 | two writes and a checkpoint after which the restore to the first write is refused |
| Restore.RestoreBeforePublicationIff | crates/storage/src/lib.rs:2577-2606 | before a published compaction, trimming to a past number and reopening succeeds after any unpublished run, and gives the graph of that moment if and only if the batches up to then name or remove every record now in the base files |
| Restore.RestoreAfterPublicationIff | crates/storage/src/lib.rs:2577-2606 | after a published compaction it gives the graph of that moment if and only if no listed file was overwritten and the store would have reopened as running; an overwritten file is reported |
| Restore.RestoreGivesPastGraph | crates/storage/src/lib.rs:2577-2606 | after any unpublished run without file rewriting, a restore gives what reopening would have given at the moment |
| Scenarios.TornCompactionSpoilsRestore | crates/storage/src/lib.rs:2577-2606 | a run from an empty store after which a restore to number 1 succeeds with a graph that was not live then |
| Scenarios.SecondCompactionCorrupts | crates/storage/src/lib.rs:1253-1350 | a run from an empty store after which every reopening reports corruption |
| Scenarios.SkippedWriteRejectsReplay | crates/storage/src/lib.rs:1182-1196 | a run from an empty store, all writes accepted, after which reopening fails although the last write is numbered above the manifest |
| Wal.LittleEndianRoundTrip | crates/wal/src/lib.rs:357-368 | the length prefix decodes to the length it encodes |
| Wal.LittleEndianAt | crates/wal/src/lib.rs:357-368 | the byte at each position of the prefix is the digit of that rank, the lowest first |
| Wal.SomeCodecIsOk | crates/wal/src/lib.rs:357-368 | record codecs as the log needs them exist |
| Wal.ParseSegment | crates/wal/src/lib.rs:228-285 | the offset loop reads exactly the specified records, stops at a torn frame and rejects a bad checksum |
| Wal.ChecksumsDecide | crates/wal/src/lib.rs:228-285 | whole frames replay exactly if every checksum is that of its payload, and report corruption otherwise |
| Wal.UndecodableFrame | crates/wal/src/lib.rs:228-285 | a whole frame that does not decode is reported as corruption |
| Wal.WholeFramesFit | crates/wal/src/lib.rs:228-285 | the frames counted as whole are exactly those that end at or before the cut |
| Wal.TornTailReplay | crates/wal/src/lib.rs:228-285 | for every cut, replay returns exactly the records whose frames are wholly present |
| Wal.FramesRoundTrip | crates/wal/src/lib.rs:357-368 | decoding what was encoded returns every record |
| Wal.AppendAfterTornFrame | crates/wal/src/lib.rs:133-162 | what follows a frame torn anywhere, its length prefix included, is silently swallowed if and only if it does not fill up the length read there |
| Wal.AppendAfterTornBody | crates/wal/src/lib.rs:133-162 | after a tear behind the prefix: if and only if fewer bytes follow than were torn off |
| Wal.ReplayFromDir | crates/wal/src/lib.rs:228-285 | the loop over segments concatenates them in order and refuses to read past the byte limit |
| Wal.DirReplaysIff | crates/wal/src/lib.rs:228-285 | a directory replays exactly if its segments stay within the byte limit together and each of them replays; beyond the limit alone it is a validation error |
| Wal.ReplayWritten | crates/wal/src/lib.rs:228-285 | several segments, the last cut anywhere, replay to the whole records in order |
| Wal.SegmentedLog.constructor | crates/wal/src/lib.rs:109-131 | a new log in an empty directory is empty and numbers from 1 |
| Wal.OpenLog | crates/wal/src/lib.rs:109-131 | opening fails exactly as replay does; otherwise it keeps the segments found and numbers after the last record replayed, or from 1; a log closed in order is opened with its contents and its next number |
| Wal.TornNumbersAreReused | crates/wal/src/lib.rs:109-131 | over segments whose last one is cut anywhere, the next number is the one after the last whole record, so the numbers of what was torn off are given again |
| Wal.SegmentedLog.RotateIfNeeded | crates/wal/src/lib.rs:195-206 | a new segment is started exactly when a non-empty one would outgrow its size, and nothing else changes |
| Wal.SegmentedLog.Append | crates/wal/src/lib.rs:133-162 | one record with the next number, the length and checksum of its payload and format version 1 is added at the end; numbering stays contiguous and each segment fits or holds one frame; refused exactly for a payload or a number beyond its width |
| Wal.SegmentedLog.Replay | crates/wal/src/lib.rs:171-173 | returns everything appended since the last truncation, in order |
| Wal.SegmentedLog.TruncateAllSegments | crates/wal/src/lib.rs:175-188 | empties the log and restarts the numbering at 1 |
| Reach.SpaceOfOk | crates/query/src/lib.rs:1821-1862 | expansion lists exactly the admitted hops out of every node, for every direction and constraint |
| Reach.ExpansionIff | crates/query/src/lib.rs:1831-1862 | by the fields of the records: exactly the stored edges of a listed type from the node in the direction of the search to a stored neighbour of a listed label |
| Paths.PathIs | crates/query/src/lib.rs:1831-1862 | the paths a search works with are the sequences of stored edges of listed types, in its direction, through stored nodes of listed labels |
| Paths.PathSeenFromEnd | crates/query/src/lib.rs:1986-1992 | seen from its end in the reverse direction, a path stays inside the backward ball, its first node if admitted |
| Paths.DisjointBallsNoShortPath | crates/query/src/lib.rs:1473-1512 | while forward and backward balls of positive radii are disjoint, every path that can be found is longer than their radii together |
| Paths.DirectIff | crates/query/src/lib.rs:1821-1862 | a target that is not admitted has a findable path of one hop if and only if it lists the source |
| Paths.MetIsAnswer | crates/query/src/lib.rs:1473-1512 | where the sides meet right after disjoint balls the path is shortest, unless the first backward level meets another node before the source |
| Reach.BallIsReachable | crates/query/src/lib.rs:1185-1265 | a ball is exactly the set of ends of walks no longer than its radius |
| ShortestPath.ExpandFrontier | crates/query/src/lib.rs:1864-1900 | one level is expanded completely, or a meeting node at the next depth is found; nodes at the limit are dropped |
| ShortestPath.ClimbToRoot | crates/query/src/lib.rs:1934-1984 | parent links are followed to the root by decreasing depth, listing one admitted hop per step |
| ShortestPath.ReconstructPath | crates/query/src/lib.rs:1934-1984 | the two chains join into a path from source to target over listed admissible edges with depth-sum many hops, a single hop having an admitted end |
| ShortestPath.ShortestPath | crates/query/src/lib.rs:1437-1516 | the answer joins source to target by at most twice the depth limit of stored edges of the listed types, through nodes of the listed labels and a single hop having an admitted end; it is a shortest such path if and only if the search does not pass by a direct edge to an unadmitted target, and has two hops if it does; no answer without a cut-off means that no such path exists within twice the depth limit; a cut-off means that at some turn the clock or the node budget was used up |
| PassedEdges.DirectEdgeIsPassedBy | crates/query/src/lib.rs:1864-1900 | one graph with an unadmitted target: two hops if the target lists the way around first, one if it lists the direct edge first |
| Paths.PathIsWalkIff | crates/query/src/lib.rs:1937-1984 | a returned path is an admitted walk if and only if it is empty or its target is admitted |
| Traversal.VisitNeighbors | crates/query/src/lib.rs:1243-1261 | the neighbour loop visits exactly the neighbours, emits each new edge and node once within the limit, and queues nodes at their exact distance |
| Traversal.SmallerBallsVisited | crates/query/src/lib.rs:1229-1264 | once all nearer items are expanded the ball of the next item's distance is visited |
| Traversal.TraversalIter.Next | crates/query/src/lib.rs:1229-1264 | each call hands out the next pending emission and keeps the traversal invariant; it ends with an empty queue, or late with an item left; calls make progress |
| Traversal.Traverse | crates/query/src/lib.rs:1185-1265 | nodes once each, at most the limit, in the ball, in nondecreasing distance; edges once each, out of emitted nodes nearer than the depth limit; exactly the ball, and exactly its inner edges, when they fit; late only after more nodes than clock ticks |
| Traversal.TraverseView | crates/query/src/lib.rs:1185-1265 | on a consistent view with room, exactly the nodes reachable by a walk within the depth; every emitted edge is a stored edge of a listed type out of an emitted node, and every node but the start has a listed label |
| Distances.UndirectedIsSpaceOf | crates/query/src/lib.rs:1726-1735 | without dangling edges, skipping the neighbour check changes nothing |
| Distances.GraphDistances | crates/query/src/lib.rs:1710-1745 | on a consistent view a node gets a distance exactly if a chain of at most three stored edges of the asked type, each in either direction, leads to it, and the distance is the length of a shortest such chain; dangling edges are followed too |
| Distances.BallIsChains | crates/query/src/lib.rs:1710-1745 | an undirected ball holds exactly the ends of such chains no longer than its radius |
| Distances.DistanceIsShortest | crates/query/src/lib.rs:1710-1745 | an exact distance is the length of a shortest walk |
| TopK.BetterTotal | crates/query/src/lib.rs:2028-2042 | the heap order is strict and total on results with different ids |
| TopK.BetterIs | crates/query/src/lib.rs:2028-2042 | it is by higher score, then by smaller id |
| TopK.LexIsIdFirst | crates/query/src/lib.rs:2028-2042 | a smaller id is a proper prefix, or has the smaller character where the two first differ |
| TopK.PushTop | crates/query/src/lib.rs:2044-2064 | after a push the heap holds the best entries, up to the limit, of all seen so far |
| TopK.HeapIsPrefix | crates/query/src/lib.rs:2066-2073 | any heap of the best entries sorts to the front of the full sort |
| TopK.RankTop | crates/query/src/lib.rs:1998-2073 | pushing all candidates and finishing equals sorting everything and taking the limit: results fall in score, ids rise within a score, and no candidate left out has a higher score, or the same score and a smaller id, than one returned |
| TopK.SortedUnique | crates/query/src/lib.rs:1998-2006 | only one sequence lists a set from best to worst |
| TopK.ArrivalOrderIrrelevant | crates/query/src/lib.rs:1998-2073 | candidates in any order rank the same |
| Buckets.PushBucketHolds | crates/index/src/lib.rs:1300-1307 | a push files exactly one more id and keeps buckets without repeats |
| Buckets.RemoveFromBucketHolds | crates/index/src/lib.rs:1309-1324 | a removal unfiles exactly one id and leaves no empty bucket |
| Buckets.FilesUnique | crates/index/src/lib.rs:1300-1324 | bucket maps filing the same things have the same keys and members, each listed once |
| Index.VectorsUpsertedHolds | crates/index/src/lib.rs:480-498 | after the vector update an id is filed under exactly its current vector names |
| Index.ToI64Truncates | crates/core/src/lib.rs:199-205 | the cast of a float timestamp drops the fraction and stops at the ends of the 64-bit range |
| Index.NodeInserted | crates/index/src/lib.rs:260-280 | inserting a node that is not indexed keeps type, time, vector and id entries and key soundness in agreement |
| Index.NodeRemoved | crates/index/src/lib.rs:282-294 | deleting a node's stored version does too |
| Index.EdgeInserted | crates/index/src/lib.rs:296-307 | inserting an edge keeps both adjacency maps in agreement |
| Index.EdgeRemoved | crates/index/src/lib.rs:309-312 | deleting an edge's stored version does too |
| Index.KeysInserted | crates/index/src/lib.rs:276-279 | the unique-key map stays complete as long as keys stay unique |
| Index.AgreementIsUnique | crates/index/src/lib.rs:228-258 | two indexes that agree with one graph hold the same entries, so an updated index equals a rebuilt one |
| LiveIndex.GraphIndex.UpsertNode | crates/index/src/lib.rs:260-280 | the in-place update, vector loops included, is the node upsert on the index value |
| LiveIndex.GraphIndex.DeleteNode | crates/index/src/lib.rs:282-294 | the in-place removal is the node delete on the index value |
| LiveIndex.GraphIndex.UpsertEdge | crates/index/src/lib.rs:296-307 | pushes the edge id under its source and its target and changes nothing else |
| LiveIndex.GraphIndex.DeleteEdge | crates/index/src/lib.rs:309-312 | removes the edge id from both and changes nothing else |
| LiveIndex.IndexesWithMutation | crates/api/src/lib.rs:2598-2613 | after delete-old-then-insert-new of any fitting mutation a copy agrees with the changed graph; complete unique keys stay complete if and only if they stay unique |
| LiveIndex.Rebuild | crates/index/src/lib.rs:228-258 | a rebuilt index agrees with the graph, and finds all unique keys when they are unique |
| LiveIndex.SharedKeyIsLost | crates/index/src/lib.rs:287-292 | with a shared key, deleting the later bearer leaves the key unfound |
| Overlay.NodeOf | crates/query/src/lib.rs:277-285 | node lookup on the overlay is lookup in the graph with the changes made |
| Overlay.EdgeOf | crates/query/src/lib.rs:287-295 | the same for edges |
| Overlay.ByTypeExact | crates/query/src/lib.rs:319-337 | type lookup gives exactly the nodes of that type in the changed graph |
| Overlay.IncidentExact | crates/query/src/lib.rs:339-363 | incident-edge lookup gives exactly the matching edges of the changed graph |
| Overlay.IncidentIs | crates/query/src/lib.rs:339-363 | the same by the fields of the edges: source or target as the direction asks, and the type if one is asked |
| Overlay.TimeRangeExact | crates/query/src/lib.rs:365-388 | time-range lookup gives exactly the nodes in range of the changed graph |
| Overlay.TimeRangeIs | crates/query/src/lib.rs:365-388 | the same by the timestamp property: an integer within both bounds, or a float whose cast is |
| Overlay.VectorCandidatesExact | crates/query/src/lib.rs:390-412 | vector lookup gives exactly the nodes of the changed graph with that vector |
| Overlay.SemanticCandidatesExact | crates/query/src/lib.rs:414-430 | overlay candidates are exactly the nodes with the vector and, if asked, the type |
| Overlay.AllNodeIds | crates/query/src/lib.rs:432-446 | the listing has exactly the ids of the changed graph |
| Overlay.LookupUniqueKey | crates/query/src/lib.rs:301-317 | what is found bears the key in the changed graph; nothing is found only if nobody does, when the base index is complete |
| Overlay.UniqueBearer | crates/query/src/lib.rs:301-317 | with unique keys the lookup result is the bearer, both ways |
| Overlay.IncompleteBaseMisses | crates/query/src/lib.rs:301-317 | if the base index is incomplete, some removal makes the overlay miss a stored bearer |
| Overlay.IndexedViewOk | crates/query/src/lib.rs:201-274 | searches on a published snapshot see every incident edge and no other |
| Overlay.OverlayViewOk | crates/query/src/lib.rs:339-363 | searches on the overlay see exactly the edges of the changed graph |
| Overlay.OverlayIsSnapshotIff | crates/api/src/lib.rs:596-604 | a published graph with a session's delta is the session's snapshot if and only if it agrees with the live graph on everything the delta does not speak of |
| Overlay.OverlayIsSnapshot | crates/api/src/lib.rs:596-604 | so while the published graph is the live one, queries are of the snapshot |
| Publish.PlanBatchMutation | crates/api/src/lib.rs:905-967 | the planning loops give the previous versions to remove and the records to add |
| Publish.NodesPlannedRight | crates/api/src/lib.rs:926-936 | on nodes the plan always agrees with the engine |
| Publish.PlannedIsAppliedIff | crates/api/src/lib.rs:938-965 | plan and engine agree if and only if, for every edge id upserted and not deleted, the last upsert fares as the plan assumes |
| Publish.RegularBatchIsExact | crates/api/src/lib.rs:938-965 | distinct edge ids and no edge pointed away from a deleted node are enough |
| Publish.PlanFits | crates/api/src/lib.rs:926-965 | every plan removes stored versions and replaces only what it removes |
| Publish.Database.RefreshIndexes | crates/api/src/lib.rs:838-859 | rebuilding puts snapshot and indexes in step with the engine |
| Publish.Database.ApplyWriteBatch | crates/api/src/lib.rs:474-486 | a refused write changes nothing; after an accepted one snapshot and indexes are in step with the engine if and only if the plan was exact |
| Publish.RescuedEdgeIsUnpublished | crates/api/src/lib.rs:956-965 | a concrete accepted batch after which the engine keeps an edge the snapshot lost |
| Replication.ReplicationManager.HistorySince | crates/replication/src/lib.rs:94-100 | the filter returns the records above the given number |
| Replication.ReplicationManager.RecordLeaderCommit | crates/replication/src/lib.rs:160-176 | only a leader records; one record of its term is appended and its source positions move to it |
| Replication.ReplicationManager.ApplyFollowerRecords | crates/replication/src/lib.rs:197-219 | only a follower applies; old records are skipped, a lower term ends the loop with an error after what came before it |
| Replication.FollowAsValidated | crates/replication/src/lib.rs:197-219 | following fails on the same lists as validation and otherwise ends at the last record validation takes |
| Replication.ValidateRecords | crates/api/src/lib.rs:978-1003 | the loop takes the records above the applied position in rising order and refuses a lower term |
| Replication.Replica.ApplyReplicationRecords | crates/api/src/lib.rs:752-777 | the in-place apply is the delivery step, also when the engine rejects a record half-way |
| Replication.RejectedMidway | crates/api/src/lib.rs:752-777 | when the engine rejects a record, those before it stay applied and neither term nor source position moves |
| Replication.LowerTermRefused | crates/api/src/lib.rs:978-1003 | one record of a lower term refuses the whole answer and changes nothing |
| Replication.SinceSplits | crates/replication/src/lib.rs:94-100 | where a history splits at the asked number the answer is exactly the part above it, in order |
| Replication.DeliveryKeepsUp | crates/api/src/lib.rs:752-777 | any past answer, stale or overlapping, is taken without error, leaves the follower at the leader's graph for its position and never moves it back; also in a history with restarted numbers as long as the follower keeps up |
| Replication.EveryRunKeepsUp | crates/api/src/lib.rs:752-777 | so does every run of commits, other log records, compactions and deliveries in which each commit is numbered above all the follower has or has yet to get |
| Replication.RunWithoutRestartShips | crates/api/src/lib.rs:870-878 | without a compaction of the leader every commit of a run is numbered so |
| Replication.FullAnswerConverges | crates/replication/src/lib.rs:94-100 | a complete answer makes the follower's graph equal to the leader's |
| Replication.NextCommitShipsIff | crates/api/src/lib.rs:870-878 | every accepted next commit reaches a follower that keeps up through a complete answer if and only if its number lies above all the follower has or has yet to get |
| Replication.RestartConvergesIff | crates/api/src/lib.rs:978-1003 | after a restart, with commits numbered at or below the follower's position and then above it: a complete answer is taken if and only if the later ones need no node that only the earlier provide, and makes the graphs equal if and only if, besides, they settle what the earlier changed |
| LostShipments.RestartLosesCommit | crates/replication/src/lib.rs:94-100 | a run from an empty pair, a compaction of the leader included, after which the follower misses a committed node and no answer whatever changes it |
| LostShipments.RestartBlocksShipping | crates/api/src/lib.rs:752-777 | the same with an edge to the missed node: the complete answer is rejected and leaves the follower where it was |
| Consolidation.Analyze | crates/memory/src/lib.rs:123-219 | the events are exactly those due, each once: duplicate groups, isolated nodes and stale nodes, each with its reverse batch |
| Consolidation.MinIdIsLeast | crates/memory/src/lib.rs:151-157 | a merge keeps the member with the smallest id |
| Consolidation.ForwardSpec | crates/storage/src/lib.rs:2265-2315 | forward batches upsert only stored nodes that the event names, and stay normal |
| Consolidation.RunChangesOnlyAffected | crates/storage/src/lib.rs:996-1021 | a run keeps node ids and all edges and changes no node that no event names |
| Consolidation.DueIsReversible | crates/memory/src/lib.rs:164-214 | every event due carries the original records of the nodes it changes |
| Consolidation.UndoRestores | crates/memory/src/lib.rs:123-219 | the reverse batches of all events, in any order and repeated, restore the graph even where several events hit one node |
| Consolidation.ReverseAccepted | crates/storage/src/lib.rs:609-624 | the engine accepts the reverse batches |
| ConsolidationRuns.RunConsolidation | crates/storage/src/lib.rs:996-1021 | from the stored records alone: a node without edges has half its importance, half of 0.5 if it had none; a node whose timestamp lies more than 30 days back or a merged duplicate is archived; a duplicate names the smallest id of its type and unique key; all else is as it was; the reverse batches in any order undo it |
| ConsolidationRuns.MergesIff | crates/memory/src/lib.rs:139-180 | a node is merged into another exactly if the other has the smallest id among the nodes of its type and unique key |
| ConsolidationRuns.DemotesIff | crates/memory/src/lib.rs:182-195 | a node is demoted exactly if no edge starts or ends at it |
| ConsolidationRuns.ArchivesIff | crates/memory/src/lib.rs:197-214 | a node is archived for its age exactly if its timestamp lies more than 30 days back |
| ConsolidationRuns.RunAt | crates/storage/src/lib.rs:2265-2315 | every node goes through the events in their order, each changing it as its action says |

## Left out

- Isolation.FirstCommitterWinsOnEdges: needs the committed session to leave a trace of the edge, because the code keeps no lineage otherwise (`Isolation.EdgeConflictIff`).
- Restore.RestoreBeforePublicationIff: the log must start at number 1, because rewriting renumbers from 1 and fails otherwise (`Restore.RewriteFrom`).
- Replication.EveryRunKeepsUp: needs commits numbered above what the follower has or has yet to get; a commit numbered no higher does not ship (`Replication.NextCommitShipsIff`).
- One leader in one term replicates here; a new leader numbers its records differently.
- Overlay.LookupUniqueKey: finding nothing is conclusive only when the base index is complete, see `Overlay.IncompleteBaseMisses`.
- Publish.Database.ApplyWriteBatch: the engine is its live maps here; its history and log are the subject of modules Engine and Durability.
- Traversal.Traverse: which nodes and edges a small limit selects among those at one distance is the listing order of the view and is not stated.
- TopK.RankTop: the inner arrangement of the standard library heap is not modelled, only its contents and its worst element.
- Versions.BuildDelta: the maps are sets of entries, so the order in which a delta or a snapshot is listed is not modelled.
- Wal.SegmentedLog.Append: the number after the last 64-bit one is refused, where the code would overflow; appending is atomic; a log opened on a torn tail keeps its number (`Wal.TornNumbersAreReused`), but what it appends there is stated by `Wal.AppendAfterTornFrame` only.
- Consolidation.Analyze: the age of a node is computed without the 64-bit overflow of extreme timestamps, and event ids and detail texts are dropped.
- Floating point values are reals, so rounding, NaN and signed zero play no part; cosine, recency and weight formulas are not modelled.
- Checksums stand for the content they were taken of; record payload encodings are a codec with decode-after-encode.
- Clocks are a number of turns after which the time is up, chosen by the caller.
- The byte offsets of replay do not overflow: a frame length read from damaged bytes is a plain number.
- The isolation level and state fields of a session, summaries and counters, and `latest_applied_lsn` apart from the manifest and the next number.
- I/O errors are crashes; continued running after one, and repair of corrupted files, are not modelled.
- Directory backup and copy, JSON lines import and export, legacy snapshot formats.
- The HNSW vector index with its sidecar files and approximate candidates; the exact vector index is modelled.
- Planning and filter evaluation of queries, ranking weights, HTTP, authentication, metrics, audit log, configuration and cluster topology.
