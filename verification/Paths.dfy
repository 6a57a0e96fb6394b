/** Paths between two nodes, and which of them two opposite searches can find (crates/query). */
module Paths {
  import opened Core
  import opened Reach

  datatype GraphPath = GraphPath(nodeIds: seq<NodeId>, edgeIds: seq<EdgeId>, hopCount: nat)

  /** The listed edges join the listed nodes from `a` to `b`; inner nodes are admitted. */
  ghost predicate PathBetween(s: Space, a: NodeId, b: NodeId, p: GraphPath) {
    && |p.nodeIds| == |p.edgeIds| + 1 && p.hopCount == |p.edgeIds|
    && p.nodeIds[0] == a && p.nodeIds[p.hopCount] == b
    && (forall j | 0 <= j < p.hopCount :: Joins(s, p.nodeIds[j], p.edgeIds[j], p.nodeIds[j + 1]))
    && (forall j | 0 < j < p.hopCount :: Admitted(s, p.nodeIds[j]))
  }

  /** A returned path is a walk of admitted hops exactly when its target is admitted: the
      backward side starts at the target without looking at its label. */
  lemma PathIsWalkIff(s: Space, a: NodeId, b: NodeId, p: GraphPath)
    requires PathBetween(s, a, b, p)
    ensures WalkBetween(s, a, b, p.nodeIds, p.edgeIds) <==> p.hopCount == 0 || Admitted(s, b)
  {
    if p.hopCount > 0 {
      assert WalkBetween(s, a, b, p.nodeIds, p.edgeIds) ==>
             Hop(s, p.nodeIds[p.hopCount - 1], p.edgeIds[p.hopCount - 1], b);
      if Admitted(s, b) {
        forall j | 0 <= j < p.hopCount ensures Hop(s, p.nodeIds[j], p.edgeIds[j], p.nodeIds[j + 1]) {
          assert j + 1 < p.hopCount ==> Admitted(s, p.nodeIds[j + 1]);
        }
      }
    }
  }

  /** Neither side starts with a look at its own label, but a single hop has to be found by one
      of the two from the other: one of its ends must be admitted. */
  ghost predicate Findable(s: Space, a: NodeId, b: NodeId, p: GraphPath) {
    PathBetween(s, a, b, p) && (p.hopCount == 1 ==> Admitted(s, a) || Admitted(s, b))
  }

  /** A path of a view under constraints, by the fields of its records. */
  ghost predicate PathOfRecords(v: GraphView, c: Constraints, d: Direction, a: NodeId, b: NodeId, p: GraphPath) {
    && |p.nodeIds| == |p.edgeIds| + 1 && p.hopCount == |p.edgeIds|
    && p.nodeIds[0] == a && p.nodeIds[p.hopCount] == b
    && (forall j | 0 <= j < p.hopCount ::
          && p.edgeIds[j] in v.edges
          && StepsAlong(d, v.edges[p.edgeIds[j]], p.nodeIds[j], p.nodeIds[j + 1])
          && (c.edgeTypes != [] ==> v.edges[p.edgeIds[j]].edgeType in c.edgeTypes))
    && (forall j | 0 < j < p.hopCount ::
          p.nodeIds[j] in v.nodes && (c.nodeLabels != [] ==> v.nodes[p.nodeIds[j]].nodeType in c.nodeLabels))
  }

  /** The paths that a search works with are those. */
  lemma PathIs(v: GraphView, c: Constraints, d: Direction, a: NodeId, b: NodeId, p: GraphPath)
    ensures PathBetween(SpaceOf(v, c, d), a, b, p) <==> PathOfRecords(v, c, d, a, b, p)
  {
    var s := SpaceOf(v, c, d);
    if PathBetween(s, a, b, p) {
      forall j | 0 <= j < p.hopCount
        ensures p.edgeIds[j] in v.edges && StepsAlong(d, v.edges[p.edgeIds[j]], p.nodeIds[j], p.nodeIds[j + 1])
        ensures c.edgeTypes != [] ==> v.edges[p.edgeIds[j]].edgeType in c.edgeTypes
      {
        JoinIs(v, c, d, p.nodeIds[j], p.edgeIds[j], p.nodeIds[j + 1]);
      }
      forall j | 0 < j < p.hopCount
        ensures p.nodeIds[j] in v.nodes && (c.nodeLabels != [] ==> v.nodes[p.nodeIds[j]].nodeType in c.nodeLabels)
      {
        assert Admitted(s, p.nodeIds[j]);
      }
    }
    if PathOfRecords(v, c, d, a, b, p) {
      forall j | 0 <= j < p.hopCount ensures Joins(s, p.nodeIds[j], p.edgeIds[j], p.nodeIds[j + 1]) {
        JoinIs(v, c, d, p.nodeIds[j], p.edgeIds[j], p.nodeIds[j + 1]);
      }
      forall j | 0 < j < p.hopCount ensures Admitted(s, p.nodeIds[j]) {
        assert p.nodeIds[j] in v.nodes && (c.nodeLabels != [] ==> v.nodes[p.nodeIds[j]].nodeType in c.nodeLabels);
      }
    }
  }

  lemma WalkIsFindable(s: Space, a: NodeId, b: NodeId, nodes: seq<NodeId>, edges: seq<EdgeId>)
    requires WalkBetween(s, a, b, nodes, edges)
    ensures Findable(s, a, b, GraphPath(nodes, edges, |edges|)) && (edges != [] ==> Admitted(s, b))
  {
    forall j | 0 < j <= |edges| ensures Admitted(s, nodes[j]) {
      assert Hop(s, nodes[j - 1], edges[j - 1], nodes[j]);
    }
  }

  // ---------------------------------------------------------------- paths and balls

  lemma {:induction false} PathStaysInBall(s: Space, a: NodeId, b: NodeId, p: GraphPath, i: nat)
    requires SpaceOk(s) && PathBetween(s, a, b, p) && (i < p.hopCount || (i == p.hopCount && Admitted(s, b)))
    ensures p.nodeIds[i] in Ball(s, a, i)
  {
    if i > 0 {
      PathStaysInBall(s, a, b, p, i - 1);
      NextHas(s, Ball(s, a, i - 1), p.nodeIds[i - 1], p.edgeIds[i - 1], p.nodeIds[i]);
    }
  }

  /** Seen from its end, a path stays within the backward ball, its first node if admitted. */
  lemma {:induction false} PathSeenFromEnd(s: Space, t: Space, a: NodeId, b: NodeId, p: GraphPath, i: nat)
    requires Opposite(s, t) && SpaceOk(t) && PathBetween(s, a, b, p) && i <= p.hopCount
    requires i > 0 || Admitted(s, a)
    ensures p.nodeIds[i] in Ball(t, b, p.hopCount - i)
    decreases p.hopCount - i
  {
    if i < p.hopCount {
      PathSeenFromEnd(s, t, a, b, p, i + 1);
      BackHop(s, t, p.nodeIds[i], p.edgeIds[i], p.nodeIds[i + 1], Ball(t, b, p.hopCount - 1 - i));
    }
  }

  lemma InBothBalls(s: Space, t: Space, a: NodeId, b: NodeId, i: nat, j: nat, p: GraphPath, m: nat)
    requires Opposite(s, t) && SpaceOk(s) && SpaceOk(t) && PathBetween(s, a, b, p)
    requires m <= i && m <= p.hopCount <= m + j
    requires m < p.hopCount || Admitted(s, b)
    requires m > 0 || Admitted(s, a)
    ensures p.nodeIds[m] in Ball(s, a, i) && p.nodeIds[m] in Ball(t, b, j)
  {
    PathStaysInBall(s, a, b, p, m);
    BallGrows(s, a, m, i);
    PathSeenFromEnd(s, t, a, b, p, m);
    BallGrows(t, b, p.hopCount - m, j);
  }

  /** While the two balls are disjoint no path that can be found is as short as their radii
      together. */
  lemma DisjointBallsNoShortPath(s: Space, t: Space, a: NodeId, b: NodeId, i: nat, j: nat, p: GraphPath)
    requires Opposite(s, t) && SpaceOk(s) && SpaceOk(t) && a != b && i >= 1 && j >= 1
    requires Ball(s, a, i) !! Ball(t, b, j) && Findable(s, a, b, p)
    ensures p.hopCount > i + j
  {
    if p.hopCount <= i + j {
      var m := if p.hopCount == 1 then (if Admitted(s, a) then 0 else 1) else Smaller(p.hopCount - 1, i);
      InBothBalls(s, t, a, b, i, j, p, m);
      assert false;
    }
  }

  /** No path that can be found has at most `n` hops. */
  ghost predicate NoPathWithin(s: Space, a: NodeId, b: NodeId, n: nat) {
    forall p | Findable(s, a, b, p) :: p.hopCount > n
  }

  /** No walk between the endpoints has at most `n` hops. */
  ghost predicate NoWalkWithin(s: Space, a: NodeId, b: NodeId, n: nat) {
    forall nodes, edges | WalkBetween(s, a, b, nodes, edges) :: |edges| > n
  }

  lemma NoPathNoWalk(s: Space, a: NodeId, b: NodeId, n: nat)
    requires NoPathWithin(s, a, b, n)
    ensures NoWalkWithin(s, a, b, n)
  {
    forall nodes, edges | WalkBetween(s, a, b, nodes, edges) ensures |edges| > n {
      WalkIsFindable(s, a, b, nodes, edges);
    }
  }

  /** No path that can be found has fewer than `n` hops. */
  ghost predicate Minimal(s: Space, a: NodeId, b: NodeId, n: nat) {
    forall p | Findable(s, a, b, p) :: p.hopCount >= n
  }

  lemma DisjointBallsBound(s: Space, t: Space, a: NodeId, b: NodeId, i: nat, j: nat)
    requires Opposite(s, t) && SpaceOk(s) && SpaceOk(t) && a != b && i >= 1 && j >= 1
    requires Ball(s, a, i) !! Ball(t, b, j)
    ensures NoPathWithin(s, a, b, i + j)
  {
    forall p | Findable(s, a, b, p) ensures p.hopCount > i + j {
      DisjointBallsNoShortPath(s, t, a, b, i, j, p);
    }
  }

  // ---------------------------------------------------------------- the direct edge

  /** The first listed neighbour that is known. */
  function FirstKnown(ns: seq<(EdgeId, NodeId)>, known: set<NodeId>): Option<NodeId> {
    if ns == [] then None
    else if ns[0].1 in known then Some(ns[0].1)
    else FirstKnown(ns[1..], known)
  }

  ghost predicate NoneKnown(ns: seq<(EdgeId, NodeId)>, known: set<NodeId>, t: nat)
    requires t <= |ns|
  {
    forall u | 0 <= u < t :: ns[u].1 !in known
  }

  lemma OneMoreUnknown(ns: seq<(EdgeId, NodeId)>, known: set<NodeId>, t: nat)
    requires t < |ns| && NoneKnown(ns, known, t) && ns[t].1 !in known
    ensures NoneKnown(ns, known, t + 1)
  {
  }

  lemma {:induction false} FirstKnownAt(ns: seq<(EdgeId, NodeId)>, known: set<NodeId>, t: nat)
    requires t <= |ns| && NoneKnown(ns, known, t) && (t < |ns| ==> ns[t].1 in known)
    ensures FirstKnown(ns, known) == if t < |ns| then Some(ns[t].1) else None
  {
    if t > 0 {
      assert NoneKnown(ns[1..], known, t - 1);
      FirstKnownAt(ns[1..], known, t - 1);
    }
  }

  /** The search passes by a direct edge to a target that is not admitted: the target lists
      another node that the source side knows before the source. */
  ghost predicate PassedBy(s: Space, t: Space, a: NodeId, b: NodeId) {
    && a != b && !Admitted(s, b) && a in Next(t, {b})
    && FirstKnown(Neighbors(t, b), Ball(s, a, 1)) != Some(a)
  }

  /** A target that is not admitted is found in one hop exactly if it lists the source. */
  lemma DirectIff(s: Space, t: Space, a: NodeId, b: NodeId)
    requires Opposite(s, t) && SpaceOk(t) && a != b && !Admitted(s, b)
    ensures a in Next(t, {b}) <==> exists p :: Findable(s, a, b, p) && p.hopCount == 1
  {
    if a in Next(t, {b}) {
      var u, k := HopInto(t, {b}, a);
      assert Joins(s, a, k, b);
      assert Findable(s, a, b, GraphPath([a, b], [k], 1));
    }
    if p :| Findable(s, a, b, p) && p.hopCount == 1 {
      BackHop(s, t, a, p.edgeIds[0], b, {b});
    }
  }

  // ---------------------------------------------------------------- what a search answers

  /** The answer can be found, and is shortest unless the search passes by a direct edge. */
  ghost predicate Answer(s: Space, t: Space, a: NodeId, b: NodeId, r: GraphPath) {
    && Findable(s, a, b, r)
    && (Minimal(s, a, b, r.hopCount) <==> !PassedBy(s, t, a, b))
    && (PassedBy(s, t, a, b) ==> r.hopCount == 2)
  }

  lemma NotPassedBy(s: Space, t: Space, a: NodeId, b: NodeId, i: nat, j: nat)
    requires Ball(s, a, i) !! Ball(t, b, j) && j >= 1
    ensures !PassedBy(s, t, a, b)
  {
    BallGrows(s, a, 0, i);
    BallGrows(t, b, 1, j);
    assert Ball(t, b, 0) == {b};
  }

  lemma DirectUnseen(s: Space, t: Space, a: NodeId, b: NodeId)
    requires Opposite(s, t) && SpaceOk(s) && SpaceOk(t) && a != b && b !in Ball(s, a, 1)
    requires Admitted(s, b) || a !in Next(t, {b})
    ensures NoPathWithin(s, a, b, 1)
  {
    forall p | Findable(s, a, b, p) ensures p.hopCount > 1 {
      if p.hopCount == 1 && Admitted(s, b) {
        PathStaysInBall(s, a, b, p, 1);
      } else if p.hopCount == 1 {
        DirectIff(s, t, a, b);
      }
    }
  }

  /** The first backward level meets at the first node listed by the target. */
  lemma AnswerAtTarget(s: Space, t: Space, a: NodeId, b: NodeId, r: GraphPath)
    requires Opposite(s, t) && SpaceOk(s) && SpaceOk(t) && a != b && b !in Ball(s, a, 1)
    requires Findable(s, a, b, r) && r.hopCount <= 2
    requires r.hopCount == 1 <==> FirstKnown(Neighbors(t, b), Ball(s, a, 1)) == Some(a)
    ensures Answer(s, t, a, b, r)
  {
    NoEmptyPath(s, a, b);
    if Admitted(s, b) || a !in Next(t, {b}) {
      DirectUnseen(s, t, a, b);
    } else {
      DirectIff(s, t, a, b);
    }
  }

  /** The sides met with this path after their balls of radii `i` and `j` were disjoint. */
  ghost predicate MetAfter(s: Space, t: Space, a: NodeId, b: NodeId, r: GraphPath, i: nat, j: nat) {
    && (i == j || i == j + 1) && Ball(s, a, i) !! Ball(t, b, j)
    && Findable(s, a, b, r) && r.hopCount <= i + j + 1
    && (i == 0 ==> Admitted(s, b))
    && (i == 1 && j == 0 ==> (r.hopCount == 1 <==> FirstKnown(Neighbors(t, b), Ball(s, a, 1)) == Some(a)))
  }

  ghost predicate Met(s: Space, t: Space, a: NodeId, b: NodeId, r: GraphPath) {
    exists i, j :: MetAfter(s, t, a, b, r, i, j)
  }

  lemma MetIsAnswer(s: Space, t: Space, a: NodeId, b: NodeId, r: GraphPath)
    requires Opposite(s, t) && SpaceOk(s) && SpaceOk(t) && a != b && Met(s, t, a, b, r)
    ensures Answer(s, t, a, b, r)
  {
    var i, j :| MetAfter(s, t, a, b, r, i, j);
    if i == 0 {
      NoEmptyPath(s, a, b);
    } else if j == 0 {
      assert Ball(t, b, 0) == {b};
      AnswerAtTarget(s, t, a, b, r);
    } else {
      NotPassedBy(s, t, a, b, i, j);
      DisjointBallsBound(s, t, a, b, i, j);
    }
  }

  lemma AnswerIsShortWalk(s: Space, t: Space, a: NodeId, b: NodeId, r: GraphPath)
    requires Answer(s, t, a, b, r) && r.hopCount > 0
    ensures NoWalkWithin(s, a, b, r.hopCount - 1)
  {
    forall nodes, edges | WalkBetween(s, a, b, nodes, edges) ensures |edges| > r.hopCount - 1 {
      WalkIsFindable(s, a, b, nodes, edges);
      assert PassedBy(s, t, a, b) ==> edges == [];
    }
  }

  lemma NoEmptyPath(s: Space, a: NodeId, b: NodeId)
    requires a != b
    ensures NoPathWithin(s, a, b, 0)
  {
  }
}
