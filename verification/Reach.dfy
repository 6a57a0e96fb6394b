/** Neighbour expansion over a graph view and the balls it generates (crates/query). */
module Reach {
  import opened Core

  datatype Direction = Outgoing | Incoming | Both

  function Reverse(d: Direction): Direction {
    match d case Outgoing => Incoming case Incoming => Outgoing case Both => Both
  }

  datatype Constraints = Constraints(edgeTypes: seq<string>, nodeLabels: seq<string>)

  /** What a search reads of a graph: records by id, and the incident edge ids of a node in
      the order in which the view lists them. */
  datatype GraphView = GraphView(
    nodes: map<NodeId, NodeRecord>,
    edges: map<EdgeId, EdgeRecord>,
    outgoing: map<NodeId, seq<EdgeId>>,
    incoming: map<NodeId, seq<EdgeId>>,
    both: map<NodeId, seq<EdgeId>>)

  function Listed(m: map<NodeId, seq<EdgeId>>, n: NodeId): seq<EdgeId> {
    if n in m then m[n] else []
  }

  function IncidentIds(v: GraphView, n: NodeId, d: Direction): seq<EdgeId> {
    match d
    case Outgoing => Listed(v.outgoing, n)
    case Incoming => Listed(v.incoming, n)
    case Both => Listed(v.both, n)
  }

  predicate Matches(e: EdgeRecord, n: NodeId, d: Direction) {
    match d
    case Outgoing => e.source == n
    case Incoming => e.target == n
    case Both => e.source == n || e.target == n
  }

  ghost predicate ViewOk(v: GraphView) {
    && (forall k | k in v.edges :: v.edges[k].id == k)
    && (forall n, d, k :: k in IncidentIds(v, n, d) <==> k in v.edges && Matches(v.edges[k], n, d))
  }

  /** A view searched in one direction under constraints, with the expansion of every node. */
  datatype Space = Space(
    view: GraphView,
    constraints: Constraints,
    direction: Direction,
    expansion: map<NodeId, seq<(EdgeId, NodeId)>>)

  /** Two spaces that search the same view in opposite directions. */
  ghost predicate Opposite(s: Space, t: Space) {
    s.view == t.view && s.constraints == t.constraints && t.direction == Reverse(s.direction)
  }

  predicate TypeAllowed(c: Constraints, e: EdgeRecord) {
    c.edgeTypes == [] || e.edgeType in c.edgeTypes
  }

  predicate LabelAllowed(v: GraphView, c: Constraints, n: NodeId) {
    n in v.nodes && (c.nodeLabels == [] || v.nodes[n].nodeType in c.nodeLabels)
  }

  /** A stored node that the label constraint admits. */
  predicate Admitted(s: Space, n: NodeId) {
    LabelAllowed(s.view, s.constraints, n)
  }

  /** Edge `e` leads from `u` to `w` in a direction. */
  predicate Leads(d: Direction, e: EdgeRecord, u: NodeId, w: NodeId) {
    match d
    case Outgoing => e.source == u && e.target == w
    case Incoming => e.target == u && e.source == w
    case Both => (e.source == u && e.target == w) || (e.target == u && e.source == w)
  }

  predicate Joins(s: Space, u: NodeId, k: EdgeId, w: NodeId) {
    k in s.view.edges && TypeAllowed(s.constraints, s.view.edges[k]) && Leads(s.direction, s.view.edges[k], u, w)
  }

  predicate Hop(s: Space, u: NodeId, k: EdgeId, w: NodeId) {
    Joins(s, u, k, w) && Admitted(s, w)
  }

  lemma JoinsOpposite(s: Space, t: Space, u: NodeId, k: EdgeId, w: NodeId)
    requires Opposite(s, t)
    ensures Joins(t, w, k, u) <==> Joins(s, u, k, w)
  {
  }

  function Neighbors(s: Space, u: NodeId): seq<(EdgeId, NodeId)> {
    if u in s.expansion then s.expansion[u] else []
  }

  /** The expansion lists exactly the hops out of every node. */
  ghost predicate SpaceOk(s: Space) {
    forall u, k, w :: (k, w) in Neighbors(s, u) <==> Hop(s, u, k, w)
  }

  // ---------------------------------------------------------------- expansion

  function OtherEnd(d: Direction, u: NodeId, e: EdgeRecord): NodeId {
    match d
    case Outgoing => e.target
    case Incoming => e.source
    case Both => if e.source == u then e.target else e.source
  }

  function ExpandAmong(v: GraphView, c: Constraints, d: Direction, u: NodeId, ids: seq<EdgeId>): seq<(EdgeId, NodeId)> {
    if ids == [] then []
    else
      var rest := ExpandAmong(v, c, d, u, ids[1..]);
      if ids[0] !in v.edges then rest
      else
        var e := v.edges[ids[0]];
        var w := OtherEnd(d, u, e);
        if TypeAllowed(c, e) && LabelAllowed(v, c, w) then [(e.id, w)] + rest else rest
  }

  /** `expand_neighbors`. */
  function ExpandNeighbors(v: GraphView, c: Constraints, d: Direction, u: NodeId): seq<(EdgeId, NodeId)> {
    ExpandAmong(v, c, d, u, IncidentIds(v, u, d))
  }

  function SpaceOf(v: GraphView, c: Constraints, d: Direction): Space {
    Space(v, c, d, map u | u in v.outgoing.Keys + v.incoming.Keys + v.both.Keys :: ExpandNeighbors(v, c, d, u))
  }

  lemma {:induction false} ExpandAmongExact(v: GraphView, c: Constraints, d: Direction, u: NodeId, ids: seq<EdgeId>,
                                            k: EdgeId, w: NodeId)
    requires forall x | x in v.edges :: v.edges[x].id == x
    requires forall x | x in ids :: x in v.edges && Matches(v.edges[x], u, d)
    ensures (k, w) in ExpandAmong(v, c, d, u, ids) <==>
            k in ids && TypeAllowed(c, v.edges[k]) && Leads(d, v.edges[k], u, w) && LabelAllowed(v, c, w)
  {
    if ids != [] {
      ExpandAmongExact(v, c, d, u, ids[1..], k, w);
      assert ids == [ids[0]] + ids[1..];
    }
  }

  lemma ExpandExact(v: GraphView, c: Constraints, d: Direction, u: NodeId, k: EdgeId, w: NodeId)
    requires ViewOk(v)
    ensures (k, w) in Neighbors(SpaceOf(v, c, d), u) <==> Hop(SpaceOf(v, c, d), u, k, w)
  {
    var ids := IncidentIds(v, u, d);
    assert forall x | x in ids :: x in v.edges && Matches(v.edges[x], u, d);
    ExpandAmongExact(v, c, d, u, ids, k, w);
    if k in v.edges && Leads(d, v.edges[k], u, w) {
      assert k in ids;
    }
  }

  /** Expanding a consistent view lists exactly the hops. */
  lemma SpaceOfOk(v: GraphView, c: Constraints, d: Direction)
    requires ViewOk(v)
    ensures SpaceOk(SpaceOf(v, c, d))
  {
    forall u, k, w ensures (k, w) in Neighbors(SpaceOf(v, c, d), u) <==> Hop(SpaceOf(v, c, d), u, k, w) {
      ExpandExact(v, c, d, u, k, w);
    }
  }

  /** An edge joins two nodes in the direction of a search, by its fields. */
  ghost predicate StepsAlong(d: Direction, e: EdgeRecord, u: NodeId, w: NodeId) {
    (d != Incoming && e.source == u && e.target == w) || (d != Outgoing && e.target == u && e.source == w)
  }

  lemma JoinIs(v: GraphView, c: Constraints, d: Direction, u: NodeId, k: EdgeId, w: NodeId)
    ensures Joins(SpaceOf(v, c, d), u, k, w) <==>
            && k in v.edges && StepsAlong(d, v.edges[k], u, w)
            && (c.edgeTypes != [] ==> v.edges[k].edgeType in c.edgeTypes)
  {
  }

  /** A hop enters a stored node of a listed label, if labels are listed. */
  lemma HopIs(v: GraphView, c: Constraints, d: Direction, u: NodeId, k: EdgeId, w: NodeId)
    ensures Hop(SpaceOf(v, c, d), u, k, w) <==>
            && k in v.edges && w in v.nodes && StepsAlong(d, v.edges[k], u, w)
            && (c.edgeTypes != [] ==> v.edges[k].edgeType in c.edgeTypes)
            && (c.nodeLabels != [] ==> v.nodes[w].nodeType in c.nodeLabels)
  {
    JoinIs(v, c, d, u, k, w);
  }

  /** Which hops an expansion lists, by the fields of the records: exactly the stored edges of a
      listed type, if types are listed, from the node in the direction of the search to a stored
      neighbour of a listed label, if labels are listed. */
  lemma ExpansionIff(v: GraphView, c: Constraints, d: Direction, u: NodeId, k: EdgeId, w: NodeId)
    requires ViewOk(v)
    ensures (k, w) in ExpandNeighbors(v, c, d, u) <==>
            && k in v.edges && w in v.nodes && StepsAlong(d, v.edges[k], u, w)
            && (c.edgeTypes != [] ==> v.edges[k].edgeType in c.edgeTypes)
            && (c.nodeLabels != [] ==> v.nodes[w].nodeType in c.nodeLabels)
  {
    ExpandExact(v, c, d, u, k, w);
    HopIs(v, c, d, u, k, w);
  }

  /** A queued node with the depth at which it was reached. */
  datatype Item = Item(node: NodeId, depth: nat)

  ghost function Targets(ps: seq<(EdgeId, NodeId)>): set<NodeId> {
    set p | p in ps :: p.1
  }

  lemma TargetsSnoc(ps: seq<(EdgeId, NodeId)>, t: nat)
    requires t < |ps|
    ensures Targets(ps[..t + 1]) == Targets(ps[..t]) + {ps[t].1} && ps[t] in ps
  {
    assert ps[..t + 1] == ps[..t] + [ps[t]];
  }

  lemma TargetsOfAll(s: Space, u: NodeId, ps: seq<(EdgeId, NodeId)>)
    requires ps == Neighbors(s, u)
    ensures Targets(ps[..0]) == {} && Targets(ps[..|ps|]) == Next(s, {u})
  {
    assert ps[..|ps|] == ps;
  }

  // ---------------------------------------------------------------- balls

  ghost function Next(s: Space, from: set<NodeId>): set<NodeId> {
    set u, p | u in from && p in Neighbors(s, u) :: p.1
  }

  /** The nodes within `k` hops of a root. */
  ghost function Ball(s: Space, root: NodeId, k: nat): set<NodeId> {
    if k == 0 then {root} else Ball(s, root, k - 1) + Next(s, Ball(s, root, k - 1))
  }

  lemma BallStep(s: Space, root: NodeId, k: nat, w: NodeId)
    requires k > 0 && w in Next(s, Ball(s, root, k - 1))
    ensures w in Ball(s, root, k)
  {
  }

  lemma NextHas(s: Space, from: set<NodeId>, u: NodeId, k: EdgeId, w: NodeId)
    requires SpaceOk(s) && u in from && Hop(s, u, k, w)
    ensures w in Next(s, from)
  {
    assert (k, w) in Neighbors(s, u);
  }

  lemma {:induction false} BallGrows(s: Space, root: NodeId, a: nat, b: nat)
    requires a <= b
    ensures Ball(s, root, a) <= Ball(s, root, b) && root in Ball(s, root, a)
    decreases b
  {
    if a < b {
      BallGrows(s, root, a, b - 1);
    } else if 0 < a {
      BallGrows(s, root, a - 1, a - 1);
    }
  }

  lemma {:induction false} BallSaturates(s: Space, root: NodeId, a: nat, b: nat, ball: set<NodeId>)
    requires a <= b && ball == Ball(s, root, a) && ball + Next(s, ball) == ball
    ensures Ball(s, root, b) == ball
  {
    if a < b {
      BallSaturates(s, root, a, b - 1, ball);
    }
  }

  // ---------------------------------------------------------------- walks

  /** A walk of admitted hops: every node it enters is admitted. */
  ghost predicate IsWalk(s: Space, nodes: seq<NodeId>, edges: seq<EdgeId>) {
    |nodes| == |edges| + 1 && forall i | 0 <= i < |edges| :: Hop(s, nodes[i], edges[i], nodes[i + 1])
  }

  ghost predicate WalkBetween(s: Space, a: NodeId, b: NodeId, nodes: seq<NodeId>, edges: seq<EdgeId>) {
    IsWalk(s, nodes, edges) && nodes[0] == a && nodes[|nodes| - 1] == b
  }

  lemma {:induction false} WalkStaysInBall(s: Space, nodes: seq<NodeId>, edges: seq<EdgeId>, i: nat)
    requires SpaceOk(s) && IsWalk(s, nodes, edges) && i < |nodes|
    ensures nodes[i] in Ball(s, nodes[0], i)
  {
    if i > 0 {
      WalkStaysInBall(s, nodes, edges, i - 1);
      NextHas(s, Ball(s, nodes[0], i - 1), nodes[i - 1], edges[i - 1], nodes[i]);
    }
  }

  lemma BackHop(s: Space, t: Space, u: NodeId, k: EdgeId, w: NodeId, from: set<NodeId>)
    requires Opposite(s, t) && SpaceOk(t) && Joins(s, u, k, w) && Admitted(s, u) && w in from
    ensures u in Next(t, from)
  {
    JoinsOpposite(s, t, u, k, w);
    assert Hop(t, w, k, u);
    NextHas(t, from, w, k, u);
  }

  lemma HopInto(s: Space, from: set<NodeId>, w: NodeId) returns (u: NodeId, k: EdgeId)
    requires SpaceOk(s) && w in Next(s, from)
    ensures u in from && Hop(s, u, k, w)
  {
    var p: (EdgeId, NodeId);
    u, p :| u in from && p in Neighbors(s, u) && p.1 == w;
    k := p.0;
    assert (k, w) in Neighbors(s, u);
  }

  lemma WalkExtends(s: Space, a: NodeId, b: NodeId, nodes: seq<NodeId>, edges: seq<EdgeId>, k: EdgeId, w: NodeId)
    requires WalkBetween(s, a, b, nodes, edges) && Hop(s, b, k, w)
    ensures WalkBetween(s, a, w, nodes + [w], edges + [k])
  {
  }

  /** Some walk of at most `k` hops leads from one node to another. */
  ghost predicate Reachable(s: Space, a: NodeId, b: NodeId, k: nat) {
    exists nodes, edges :: WalkBetween(s, a, b, nodes, edges) && |edges| <= k
  }

  lemma ReachableStep(s: Space, a: NodeId, u: NodeId, k: nat, e: EdgeId, w: NodeId)
    requires Reachable(s, a, u, k) && Hop(s, u, e, w)
    ensures Reachable(s, a, w, k + 1)
  {
    var nodes, edges :| WalkBetween(s, a, u, nodes, edges) && |edges| <= k;
    WalkExtends(s, a, u, nodes, edges, e, w);
  }

  lemma ReachableSelf(s: Space, a: NodeId)
    ensures Reachable(s, a, a, 0)
  {
    assert WalkBetween(s, a, a, [a], []);
  }

  lemma ReachableNext(s: Space, root: NodeId, ball: set<NodeId>, k: nat, w: NodeId)
    requires SpaceOk(s) && w in Next(s, ball) && forall u | u in ball :: Reachable(s, root, u, k)
    ensures Reachable(s, root, w, k + 1)
  {
    var u, e := HopInto(s, ball, w);
    ReachableStep(s, root, u, k, e, w);
  }

  lemma ReachableLonger(s: Space, a: NodeId, b: NodeId, k: nat)
    requires Reachable(s, a, b, k)
    ensures Reachable(s, a, b, k + 1)
  {
  }

  lemma {:induction false} BallReachable(s: Space, root: NodeId, k: nat)
    requires SpaceOk(s)
    ensures forall w | w in Ball(s, root, k) :: Reachable(s, root, w, k)
  {
    if k == 0 {
      ReachableSelf(s, root);
    } else {
      BallReachable(s, root, k - 1);
      var ball := Ball(s, root, k - 1);
      forall w | w in Ball(s, root, k) ensures Reachable(s, root, w, k) {
        if w in ball {
          ReachableLonger(s, root, w, k - 1);
        } else {
          ReachableNext(s, root, ball, k - 1, w);
        }
      }
    }
  }

  /** A ball is exactly the set of ends of the walks no longer than its radius. */
  lemma BallIsReachable(s: Space, root: NodeId, k: nat, w: NodeId)
    requires SpaceOk(s)
    ensures w in Ball(s, root, k) <==> Reachable(s, root, w, k)
  {
    if w in Ball(s, root, k) {
      BallReachable(s, root, k);
    }
    if Reachable(s, root, w, k) {
      var nodes, edges :| WalkBetween(s, root, w, nodes, edges) && |edges| <= k;
      WalkStaysInBall(s, nodes, edges, |edges|);
      BallGrows(s, root, |edges|, k);
    }
  }
}
