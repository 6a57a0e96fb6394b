/** Logs of accepted batches and their replay (`recover`, `apply_delta_segments`). */
module Log {
  import opened Core

  /** The in-order application of a log, without validation. */
  function Fold(g: Graph, log: seq<WriteBatch>): Graph {
    if log == [] then g
    else Apply(Fold(g, log[..|log| - 1]), log[|log| - 1])
  }

  /** Replay as recovery does it: each batch is validated against the graph so far. */
  function Replay(g: Graph, log: seq<WriteBatch>): Result<Graph> {
    if log == [] then Ok(g)
    else match Replay(g, log[..|log| - 1])
      case Err(e) => Err(e)
      case Ok(h) =>
        if EndpointsExist(h.nodes, log[|log| - 1]) then Ok(Apply(h, log[|log| - 1]))
        else Err(Validation)
  }

  /** Every batch of the log was accepted by the engine when it was written. */
  ghost predicate AcceptedLog(g: Graph, log: seq<WriteBatch>) {
    log == [] ||
    (AcceptedLog(g, log[..|log| - 1]) && Accepted(Fold(g, log[..|log| - 1]), log[|log| - 1]))
  }

  /** Replay never rejects a log the engine wrote, and rebuilds the graph it had. */
  lemma {:induction false} ReplayNeverRejects(g: Graph, log: seq<WriteBatch>)
    requires AcceptedLog(g, log)
    ensures Replay(g, log) == Ok(Fold(g, log))
  {
    if log != [] {
      ReplayNeverRejects(g, log[..|log| - 1]);
    }
  }

  /** Graph integrity holds after every accepted log. */
  lemma {:induction false} AcceptedLogKeepsSound(g: Graph, log: seq<WriteBatch>)
    requires Sound(g) && AcceptedLog(g, log)
    ensures Sound(Fold(g, log))
  {
    if log != [] {
      AcceptedLogKeepsSound(g, log[..|log| - 1]);
      ApplyKeepsSound(Fold(g, log[..|log| - 1]), log[|log| - 1]);
    }
  }

  lemma {:induction false} FoldConcat(g: Graph, a: seq<WriteBatch>, b: seq<WriteBatch>)
    ensures Fold(g, a + b) == Fold(Fold(g, a), b)
  {
    if b == [] {
      assert a + b == a;
    } else {
      assert (a + b)[..|a + b| - 1] == a + b[..|b| - 1];
      FoldConcat(g, a, b[..|b| - 1]);
    }
  }

  lemma {:induction false} ReplayConcat(g: Graph, a: seq<WriteBatch>, b: seq<WriteBatch>)
    ensures Replay(g, a + b) ==
            match Replay(g, a) { case Err(e) => Err(e) case Ok(h) => Replay(h, b) }
  {
    if b == [] {
      assert a + b == a;
    } else {
      assert (a + b)[..|a + b| - 1] == a + b[..|b| - 1];
      ReplayConcat(g, a, b[..|b| - 1]);
    }
  }

  lemma {:induction false} ReplayIsFold(g: Graph, log: seq<WriteBatch>)
    requires Replay(g, log).Ok?
    ensures Replay(g, log).value == Fold(g, log)
  {
    if log != [] {
      ReplayIsFold(g, log[..|log| - 1]);
    }
  }

  // ------------------------------------------------ a full history forgets its start state

  ghost function UpsertedNodes(log: seq<WriteBatch>): set<NodeId> {
    if log == [] then {}
    else UpsertedNodes(log[..|log| - 1]) + NodesById(log[|log| - 1].nodesUpserted).Keys
  }

  ghost function UpsertedEdges(log: seq<WriteBatch>): set<EdgeId> {
    if log == [] then {}
    else UpsertedEdges(log[..|log| - 1]) + EdgesById(log[|log| - 1].edgesUpserted).Keys
  }

  /** How `h`, replayed from a stray start, and `g`, replayed from nothing, agree on nodes. */
  ghost predicate NodesConverge(start: Graph, log: seq<WriteBatch>, g: Graph, h: Graph) {
    && (forall k | k in UpsertedNodes(log) || k !in start.nodes :: Get(g.nodes, k) == Get(h.nodes, k))
    && (forall k | k in g.nodes :: k in UpsertedNodes(log))
  }

  ghost predicate EdgesConverge(start: Graph, log: seq<WriteBatch>, g: Graph, h: Graph) {
    && (forall k | k in UpsertedEdges(log) || k !in start.edges :: Get(g.edges, k) == Get(h.edges, k))
    && (forall k | k in g.edges :: k in UpsertedEdges(log))
  }

  lemma NodesConvergeStep(start: Graph, log: seq<WriteBatch>, g: Graph, h: Graph, b: WriteBatch)
    requires NodesConverge(start, log, g, h)
    ensures NodesConverge(start, log + [b], Apply(g, b), Apply(h, b))
  {
    assert (log + [b])[..|log|] == log;
    forall k ensures k in UpsertedNodes(log + [b]) || k !in start.nodes ==>
                       Get(Apply(g, b).nodes, k) == Get(Apply(h, b).nodes, k)
             ensures k in Apply(g, b).nodes ==> k in UpsertedNodes(log + [b]) {
      NodesAfterAt(g.nodes, b, k);
      NodesAfterAt(h.nodes, b, k);
    }
  }

  lemma EdgesConvergeStep(start: Graph, log: seq<WriteBatch>, g: Graph, h: Graph, b: WriteBatch)
    requires EdgesConverge(start, log, g, h)
    ensures EdgesConverge(start, log + [b], Apply(g, b), Apply(h, b))
  {
    assert (log + [b])[..|log|] == log;
    forall k ensures k in UpsertedEdges(log + [b]) || k !in start.edges ==>
                       Get(Apply(g, b).edges, k) == Get(Apply(h, b).edges, k)
             ensures k in Apply(g, b).edges ==> k in UpsertedEdges(log + [b]) {
      EdgesAfterAt(g.edges, b, k);
      EdgesAfterAt(h.edges, b, k);
    }
  }

  lemma MoreNodesExist(g: Graph, h: Graph, b: WriteBatch)
    requires EndpointsExist(g.nodes, b) && g.nodes.Keys <= h.nodes.Keys
    ensures EndpointsExist(h.nodes, b)
  {
  }

  lemma ConvergedHasNodes(start: Graph, log: seq<WriteBatch>, g: Graph, h: Graph)
    requires NodesConverge(start, log, g, h)
    ensures g.nodes.Keys <= h.nodes.Keys
  {
    forall k | k in g.nodes ensures k in h.nodes {
      assert Get(g.nodes, k) == Get(h.nodes, k);
    }
  }

  lemma {:induction false} ReplayConverges(start: Graph, log: seq<WriteBatch>)
    requires Replay(EMPTY_GRAPH, log).Ok?
    ensures Replay(start, log).Ok?
    ensures NodesConverge(start, log, Replay(EMPTY_GRAPH, log).value, Replay(start, log).value)
    ensures EdgesConverge(start, log, Replay(EMPTY_GRAPH, log).value, Replay(start, log).value)
  {
    if log != [] {
      var front, last := log[..|log| - 1], log[|log| - 1];
      ReplayConverges(start, front);
      var g, h := Replay(EMPTY_GRAPH, front).value, Replay(start, front).value;
      ConvergedHasNodes(start, front, g, h);
      MoreNodesExist(g, h, last);
      NodesConvergeStep(start, front, g, h, last);
      EdgesConvergeStep(start, front, g, h, last);
      assert log == front + [last];
    }
  }

  /** Replaying a whole history over any leftover records of ids it once upserted is never
      rejected and gives the same graph as replaying it over nothing. */
  lemma HistoryForgetsStart(start: Graph, log: seq<WriteBatch>)
    requires Replay(EMPTY_GRAPH, log).Ok?
    requires start.nodes.Keys <= UpsertedNodes(log)
    requires start.edges.Keys <= UpsertedEdges(log)
    ensures Replay(start, log) == Replay(EMPTY_GRAPH, log)
  {
    ReplayConverges(start, log);
    var g, h := Replay(EMPTY_GRAPH, log).value, Replay(start, log).value;
    SameByGet(g.nodes, h.nodes);
    SameByGet(g.edges, h.edges);
  }

  // ---------------------------------------------------------------- what a log leaves of its start state

  /** Some batch of the log upserts or deletes this node. */
  predicate NodeNamed(log: seq<WriteBatch>, k: NodeId) {
    log != [] &&
    (var last := log[|log| - 1];
     NodeNamed(log[..|log| - 1], k) || k in NodesById(last.nodesUpserted) || k in last.deletedNodeIds)
  }

  predicate EdgeNamed(log: seq<WriteBatch>, k: EdgeId) {
    log != [] &&
    (var last := log[|log| - 1];
     EdgeNamed(log[..|log| - 1], k) || k in EdgesById(last.edgesUpserted) || k in last.deletedEdgeIds)
  }

  /** Some batch of the log deletes an end of this edge. */
  predicate LosesEnd(log: seq<WriteBatch>, e: EdgeRecord) {
    log != [] && (LosesEnd(log[..|log| - 1], e) || Touches(e, SetOf(log[|log| - 1].deletedNodeIds)))
  }

  /** What becomes of an edge that the log does not name. */
  function Kept(e: Option<EdgeRecord>, log: seq<WriteBatch>): Option<EdgeRecord> {
    if e.Some? && !LosesEnd(log, e.value) then e else None
  }

  lemma {:induction false} FoldNodeAt(start: Graph, log: seq<WriteBatch>, k: NodeId)
    ensures Get(Fold(start, log).nodes, k) ==
            if NodeNamed(log, k) then Get(Fold(EMPTY_GRAPH, log).nodes, k) else Get(start.nodes, k)
  {
    if log != [] {
      var front, last := log[..|log| - 1], log[|log| - 1];
      FoldNodeAt(start, front, k);
      NodesAfterAt(Fold(start, front).nodes, last, k);
      NodesAfterAt(Fold(EMPTY_GRAPH, front).nodes, last, k);
    }
  }

  lemma {:induction false} FoldEdgeAt(start: Graph, log: seq<WriteBatch>, k: EdgeId)
    ensures Get(Fold(start, log).edges, k) ==
            if EdgeNamed(log, k) then Get(Fold(EMPTY_GRAPH, log).edges, k) else Kept(Get(start.edges, k), log)
  {
    if log != [] {
      var front, last := log[..|log| - 1], log[|log| - 1];
      FoldEdgeAt(start, front, k);
      EdgesAfterAt(Fold(start, front).edges, last, k);
      EdgesAfterAt(Fold(EMPTY_GRAPH, front).edges, last, k);
    }
  }

  /** The log names or removes, cascades included, every record on which two graphs differ. */
  ghost predicate Settles(a: Graph, b: Graph, log: seq<WriteBatch>) {
    && (forall k | (k in a.nodes || k in b.nodes) && !NodeNamed(log, k) :: Get(a.nodes, k) == Get(b.nodes, k))
    && (forall k | (k in a.edges || k in b.edges) && !EdgeNamed(log, k) ::
          Kept(Get(a.edges, k), log) == Kept(Get(b.edges, k), log))
  }

  lemma NodesAgreeAt(a: Graph, b: Graph, log: seq<WriteBatch>, k: NodeId)
    ensures Get(Fold(a, log).nodes, k) == Get(Fold(b, log).nodes, k) <==>
            NodeNamed(log, k) || Get(a.nodes, k) == Get(b.nodes, k)
  {
    FoldNodeAt(a, log, k);
    FoldNodeAt(b, log, k);
  }

  lemma EdgesAgreeAt(a: Graph, b: Graph, log: seq<WriteBatch>, k: EdgeId)
    ensures Get(Fold(a, log).edges, k) == Get(Fold(b, log).edges, k) <==>
            EdgeNamed(log, k) || Kept(Get(a.edges, k), log) == Kept(Get(b.edges, k), log)
  {
    FoldEdgeAt(a, log, k);
    FoldEdgeAt(b, log, k);
  }

  /** Two graphs become one under a log exactly when the log settles their differences. */
  lemma FoldsAgreeIff(a: Graph, b: Graph, log: seq<WriteBatch>)
    ensures Fold(a, log) == Fold(b, log) <==> Settles(a, b, log)
  {
    var x, y := Fold(a, log), Fold(b, log);
    if Settles(a, b, log) {
      forall k ensures Get(x.nodes, k) == Get(y.nodes, k) {
        NodesAgreeAt(a, b, log, k);
      }
      forall k ensures Get(x.edges, k) == Get(y.edges, k) {
        EdgesAgreeAt(a, b, log, k);
      }
      SameByGet(x.nodes, y.nodes);
      SameByGet(x.edges, y.edges);
    }
    if x == y {
      forall k | !NodeNamed(log, k) ensures Get(a.nodes, k) == Get(b.nodes, k) {
        NodesAgreeAt(a, b, log, k);
      }
      forall k | !EdgeNamed(log, k) ensures Kept(Get(a.edges, k), log) == Kept(Get(b.edges, k), log) {
        EdgesAgreeAt(a, b, log, k);
      }
    }
  }

  // ---------------------------------------------------------------- which logs replay

  /** Every batch is one the engine would take for itself. */
  ghost predicate WellFormed(log: seq<WriteBatch>) {
    forall b | b in log :: !b.IsEmpty() && BatchNormal(b)
  }

  lemma {:induction false} AcceptedIsWellFormed(g: Graph, log: seq<WriteBatch>)
    requires AcceptedLog(g, log)
    ensures WellFormed(log)
  {
    if log != [] {
      AcceptedIsWellFormed(g, log[..|log| - 1]);
      assert log == log[..|log| - 1] + [log[|log| - 1]];
    }
  }

  /** A log of well-formed batches replays exactly when the engine would have accepted it. */
  lemma {:induction false} ReplaysIffAccepted(g: Graph, log: seq<WriteBatch>)
    requires WellFormed(log)
    ensures Replay(g, log).Ok? <==> AcceptedLog(g, log)
    ensures Replay(g, log).Err? ==> Replay(g, log) == Err(Validation)
  {
    if log != [] {
      ReplaysIffAccepted(g, log[..|log| - 1]);
      if Replay(g, log[..|log| - 1]).Ok? {
        ReplayIsFold(g, log[..|log| - 1]);
      }
    }
  }

  lemma {:induction false} AcceptedPrefix(g: Graph, log: seq<WriteBatch>, n: nat)
    requires AcceptedLog(g, log) && n <= |log|
    ensures AcceptedLog(g, log[..n])
    decreases |log|
  {
    if n < |log| {
      AcceptedPrefix(g, log[..|log| - 1], n);
      assert log[..|log| - 1][..n] == log[..n];
    } else {
      assert log[..n] == log;
    }
  }

  // ---------------------------------------------------------------- what a log needs of its start state

  /** The ends of upserted edges that the batch does not bring itself. */
  function Needs(b: WriteBatch): set<NodeId> {
    (set e | e in b.edgesUpserted :: e.source) + (set e | e in b.edgesUpserted :: e.target)
    - NodesById(b.nodesUpserted).Keys
  }

  /** Every node that a batch of the log needs is stored at the start, or named earlier in the
      log. */
  predicate Provided(start: Graph, log: seq<WriteBatch>) {
    log == [] ||
    (var front, last := log[..|log| - 1], log[|log| - 1];
     Provided(start, front) && forall n | n in Needs(last) :: n in start.nodes || NodeNamed(front, n))
  }

  lemma NeedsExist(nodes: map<NodeId, NodeRecord>, b: WriteBatch)
    ensures EndpointsExist(nodes, b) <==> Needs(b) <= nodes.Keys
  {
    if Needs(b) <= nodes.Keys {
      forall e | e in b.edgesUpserted
        ensures e.source in nodes || e.source in NodesById(b.nodesUpserted)
        ensures e.target in nodes || e.target in NodesById(b.nodesUpserted)
      {
        assert e.source in NodesById(b.nodesUpserted) || e.source in Needs(b);
        assert e.target in NodesById(b.nodesUpserted) || e.target in Needs(b);
      }
    }
  }

  lemma NodeThereIff(start: Graph, other: Graph, log: seq<WriteBatch>, n: NodeId)
    requires n in Fold(other, log).nodes
    ensures n in Fold(start, log).nodes <==> n in start.nodes || NodeNamed(log, n)
  {
    FoldNodeAt(start, log, n);
    FoldNodeAt(other, log, n);
    assert n in Fold(start, log).nodes <==> Get(Fold(start, log).nodes, n).Some?;
    assert n in Fold(other, log).nodes <==> Get(Fold(other, log).nodes, n).Some?;
  }

  /** A log accepted over one graph replays over another exactly when the other provides what
      the log needs and does not name itself before. */
  lemma {:induction false} ReplaysElsewhereIff(other: Graph, start: Graph, log: seq<WriteBatch>)
    requires AcceptedLog(other, log)
    ensures Replay(start, log).Ok? <==> Provided(start, log)
  {
    if log != [] {
      var front, last := log[..|log| - 1], log[|log| - 1];
      ReplaysElsewhereIff(other, start, front);
      if Replay(start, front).Ok? {
        ReplayIsFold(start, front);
        NeedsExist(Fold(start, front).nodes, last);
        NeedsExist(Fold(other, front).nodes, last);
        forall n | n in Needs(last)
          ensures n in Fold(start, front).nodes <==> n in start.nodes || NodeNamed(front, n)
        {
          NodeThereIff(start, other, front, n);
        }
      }
    }
  }

  lemma {:induction false} AcceptedSuffix(g: Graph, a: seq<WriteBatch>, b: seq<WriteBatch>)
    requires AcceptedLog(g, a + b)
    ensures AcceptedLog(g, a) && AcceptedLog(Fold(g, a), b)
  {
    if b == [] {
      assert a + b == a;
    } else {
      assert (a + b)[..|a + b| - 1] == a + b[..|b| - 1];
      AcceptedSuffix(g, a, b[..|b| - 1]);
      FoldConcat(g, a, b[..|b| - 1]);
    }
  }
}
