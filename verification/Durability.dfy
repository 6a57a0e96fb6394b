/** The durability protocol: write-ahead log, delta checkpoints, compaction, manifest
    publication and recovery, as a machine whose every step is one disk write, so that a
    crash can fall between any two of them. */
module Durability {
  import opened Core
  import opened Log

  datatype Entry = Entry(lsn: nat, batch: WriteBatch)

  datatype WalRecord =
    | BatchRecord(lsn: nat, batch: WriteBatch)
    | CheckpointRecord(lsn: nat)
    | EventRecord(lsn: nat)

  /** The three base snapshot files. Nodes are stored without their vectors. */
  datatype Files = Files(
    nodes: Option<map<NodeId, NodeRecord>>,
    edges: Option<map<EdgeId, EdgeRecord>>,
    vectors: Option<map<NodeId, map<string, seq<real>>>>)

  datatype Delta = Delta(first: nat, last: nat, entries: seq<Entry>)

  /** What the manifest lists. A listed checksum stands for the content it was taken of. */
  datatype Manifest = Manifest(lastLsn: Option<nat>, snapshot: Option<Files>, deltas: seq<Delta>)

  datatype Disk = Disk(manifest: Manifest, files: Files, deltaFiles: set<Delta>, wal: seq<WalRecord>)

  datatype Phase =
    | Idle
    | CheckpointLogged
    | DeltaWritten
    | CompactionLogged
    | NodesWritten
    | EdgesWritten
    | VectorsWritten
    | Truncating

  datatype Memory = Memory(graph: Graph, pending: seq<Entry>, nextLsn: nat, phase: Phase)

  // ---------------------------------------------------------------- files

  function Bare(nodes: map<NodeId, NodeRecord>): map<NodeId, NodeRecord> {
    map k | k in nodes :: nodes[k].(vectors := map[])
  }

  function VectorsOf(nodes: map<NodeId, NodeRecord>): map<NodeId, map<string, seq<real>>> {
    map k | k in nodes :: nodes[k].vectors
  }

  /** `attach_vectors`. */
  function Attach(nodes: map<NodeId, NodeRecord>,
                  vectors: map<NodeId, map<string, seq<real>>>): map<NodeId, NodeRecord>
  {
    map k | k in nodes :: if k in vectors then nodes[k].(vectors := vectors[k]) else nodes[k]
  }

  function FilesOf(g: Graph): Files {
    Files(Some(Bare(g.nodes)), Some(g.edges), Some(VectorsOf(g.nodes)))
  }

  /** A present file is refused when the manifest lists another content for it. */
  predicate ChecksumsMatch(d: Disk) {
    match d.manifest.snapshot
    case None => true
    case Some(s) =>
      && (d.files.nodes.Some? ==> d.files.nodes == s.nodes)
      && (d.files.edges.Some? ==> d.files.edges == s.edges)
      && (d.files.vectors.Some? ==> d.files.vectors == s.vectors)
  }

  function Orelse<T>(o: Option<T>, default: T): T {
    match o case None => default case Some(v) => v
  }

  /** The base graph that loading reads, whether or not the manifest lists it. */
  function BaseGraph(f: Files): Graph {
    Graph(Attach(Orelse(f.nodes, map[]), Orelse(f.vectors, map[])), Orelse(f.edges, map[]))
  }

  // ---------------------------------------------------------------- logs

  function Batches(entries: seq<Entry>): seq<WriteBatch> {
    if entries == [] then [] else Batches(entries[..|entries| - 1]) + [entries[|entries| - 1].batch]
  }

  function DeltaBatches(deltas: seq<Delta>): seq<WriteBatch> {
    if deltas == [] then [] else DeltaBatches(deltas[..|deltas| - 1]) + Batches(deltas[|deltas| - 1].entries)
  }

  function Above(entries: seq<Entry>, lsn: nat): seq<Entry> {
    if entries == [] then []
    else
      var front, last := Above(entries[..|entries| - 1], lsn), entries[|entries| - 1];
      if last.lsn > lsn then front + [last] else front
  }

  function WalEntries(wal: seq<WalRecord>): seq<Entry> {
    if wal == [] then []
    else
      var front, last := WalEntries(wal[..|wal| - 1]), wal[|wal| - 1];
      if last.BatchRecord? then front + [Entry(last.lsn, last.batch)] else front
  }

  function ManifestLsn(m: Manifest): nat {
    Orelse(m.lastLsn, 0)
  }

  function NextLsn(wal: seq<WalRecord>): nat {
    if wal == [] then 1 else wal[|wal| - 1].lsn + 1
  }

  // ---------------------------------------------------------------- recovery

  /** `apply_delta_segments`: the listed deltas in order, each verified and replayed. */
  function ReplayDeltas(g: Graph, deltas: seq<Delta>, present: set<Delta>): Result<Graph> {
    if deltas == [] then Ok(g)
    else match ReplayDeltas(g, deltas[..|deltas| - 1], present)
      case Err(e) => Err(e)
      case Ok(h) =>
        if deltas[|deltas| - 1] !in present then Err(Corruption)
        else Replay(h, Batches(deltas[|deltas| - 1].entries))
  }

  function LoadPublished(d: Disk): Result<Graph> {
    if !ChecksumsMatch(d) then Err(Corruption)
    else ReplayDeltas(BaseGraph(d.files), d.manifest.deltas, d.deltaFiles)
  }

  /** The log records recovery replays: batches numbered above the manifest. */
  function Tail(d: Disk): seq<Entry> {
    Above(WalEntries(d.wal), ManifestLsn(d.manifest))
  }

  /** `StorageEngine::open` with `recover`. */
  function Reopen(d: Disk): Result<Memory> {
    match LoadPublished(d)
    case Err(e) => Err(e)
    case Ok(g) =>
      match Replay(g, Batches(Tail(d)))
      case Err(e) => Err(e)
      case Ok(h) => Ok(Memory(h, Tail(d), NextLsn(d.wal), Idle))
  }

  // ---------------------------------------------------------------- steps

  /** `history` lists the accepted batches, less those a crash has cost; the first `base` of
      them are in the base snapshot. */
  datatype World = World(disk: Disk, mem: Option<Memory>, history: seq<WriteBatch>, base: nat)

  datatype Action =
    | Write(batch: WriteBatch)
    | LogEvent
    | CheckpointLog
    | CheckpointDelta
    | CheckpointPublish
    | CompactLog
    | CompactNodes
    | CompactEdges
    | CompactVectors
    | CompactPublish
    | RemoveDelta(delta: Delta)
    | RemoveSegment(records: nat)
    | CompactDone
    | Crash
    | Open

  predicate InPhase(w: World, p: Phase) {
    w.mem.Some? && w.mem.value.phase == p
  }

  /** The batches that the published files hold. */
  function Settled(w: World): seq<WriteBatch> {
    (if w.base <= |w.history| then w.history[..w.base] else w.history) + DeltaBatches(w.disk.manifest.deltas)
  }

  /** The batches that recovery would find: recovery skips those numbered at or below the
      manifest. */
  function Survived(w: World): seq<WriteBatch> {
    Settled(w) + Batches(Tail(w.disk))
  }

  function Append(d: Disk, r: WalRecord): Disk {
    d.(wal := d.wal + [r])
  }

  /** The world after an accepted batch: logged first, then applied and kept as pending. */
  function Grown(w: World, b: WriteBatch): World
    requires w.mem.Some?
  {
    var m := w.mem.value;
    World(Append(w.disk, BatchRecord(m.nextLsn, b)),
          Some(m.(graph := Apply(m.graph, b), pending := m.pending + [Entry(m.nextLsn, b)], nextLsn := m.nextLsn + 1)),
          w.history + [b], w.base)
  }

  function WriteStep(w: World, b: WriteBatch): World
    requires w.mem.Some?
  {
    if Accepted(w.mem.value.graph, b) then Grown(w, b) else w
  }

  /** Append a record that carries no batch. */
  function LogStep(w: World, r: WalRecord, p: Phase): World
    requires w.mem.Some?
  {
    w.(disk := Append(w.disk, r), mem := Some(w.mem.value.(nextLsn := w.mem.value.nextLsn + 1, phase := p)))
  }

  /** The delta segment of `publish_checkpoint`. */
  function PendingDelta(m: Memory): Delta
    requires m.pending != [] && m.nextLsn > 0
  {
    Delta(m.pending[0].lsn, m.nextLsn - 1, m.pending)
  }

  function DeltaStep(w: World): World
    requires w.mem.Some? && w.mem.value.nextLsn > 0
  {
    var m := w.mem.value;
    w.(mem := Some(m.(phase := DeltaWritten)),
       disk := if m.pending == [] then w.disk
               else w.disk.(deltaFiles := w.disk.deltaFiles + {PendingDelta(m)}))
  }

  function PublishStep(w: World): World
    requires w.mem.Some? && w.mem.value.nextLsn > 0
  {
    var m := w.mem.value;
    var deltas := if m.pending == [] then w.disk.manifest.deltas else w.disk.manifest.deltas + [PendingDelta(m)];
    w.(mem := Some(m.(pending := [], phase := Idle)),
       disk := w.disk.(manifest := w.disk.manifest.(lastLsn := Some(m.nextLsn - 1), deltas := deltas)))
  }

  function FileStep(w: World, f: Files, p: Phase): World
    requires w.mem.Some?
  {
    w.(disk := w.disk.(files := f), mem := Some(w.mem.value.(phase := p)))
  }

  /** The manifest now lists the new snapshot and no deltas. */
  function CompactPublishStep(w: World): World
    requires w.mem.Some? && w.mem.value.nextLsn > 0
  {
    var m := w.mem.value;
    w.(mem := Some(m.(pending := [], phase := Truncating)),
       disk := w.disk.(manifest := Manifest(Some(m.nextLsn - 1), Some(FilesOf(m.graph)), [])),
       base := |w.history|)
  }

  function Step(w: World, a: Action): World {
    match a
    case Open => if w.mem.None? && Reopen(w.disk).Ok? then w.(mem := Some(Reopen(w.disk).value)) else w
    case Crash => if w.mem.Some? then w.(mem := None, history := Survived(w)) else w
    case Write(b) => if InPhase(w, Idle) then WriteStep(w, b) else w
    case LogEvent => if InPhase(w, Idle) then LogStep(w, EventRecord(w.mem.value.nextLsn), Idle) else w
    case CheckpointLog =>
      if InPhase(w, Idle) then LogStep(w, CheckpointRecord(w.mem.value.nextLsn), CheckpointLogged) else w
    case CheckpointDelta => if InPhase(w, CheckpointLogged) && w.mem.value.nextLsn > 0 then DeltaStep(w) else w
    case CheckpointPublish => if InPhase(w, DeltaWritten) && w.mem.value.nextLsn > 0 then PublishStep(w) else w
    case CompactLog =>
      if InPhase(w, Idle) then LogStep(w, CheckpointRecord(w.mem.value.nextLsn), CompactionLogged) else w
    case CompactNodes =>
      if InPhase(w, CompactionLogged)
      then FileStep(w, w.disk.files.(nodes := FilesOf(w.mem.value.graph).nodes), NodesWritten) else w
    case CompactEdges =>
      if InPhase(w, NodesWritten)
      then FileStep(w, w.disk.files.(edges := FilesOf(w.mem.value.graph).edges), EdgesWritten) else w
    case CompactVectors =>
      if InPhase(w, EdgesWritten)
      then FileStep(w, w.disk.files.(vectors := FilesOf(w.mem.value.graph).vectors), VectorsWritten) else w
    case CompactPublish =>
      if InPhase(w, VectorsWritten) && w.mem.value.nextLsn > 0 then CompactPublishStep(w) else w
    case RemoveDelta(x) =>
      if InPhase(w, Truncating) then w.(disk := w.disk.(deltaFiles := w.disk.deltaFiles - {x})) else w
    case RemoveSegment(n) =>
      if InPhase(w, Truncating) && n <= |w.disk.wal| then w.(disk := w.disk.(wal := w.disk.wal[n..])) else w
    case CompactDone =>
      if InPhase(w, Truncating) && w.disk.wal == [] then w.(mem := Some(w.mem.value.(nextLsn := 1, phase := Idle)))
        else w
  }
}
