/** Undirected distances up to a radius (crates/query, `graph_distances`). */
module Distances {
  import opened Core
  import opened Reach
  import opened Traversal

  const MAX_DISTANCE: nat := 3

  // ---------------------------------------------------------------- the neighbours looked at

  /** The neighbours of a node in either direction; unlike `expand_neighbors` this does not
      ask whether the neighbour is stored. */
  function UncheckedAmong(v: GraphView, c: Constraints, u: NodeId, ids: seq<EdgeId>): seq<(EdgeId, NodeId)> {
    if ids == [] then []
    else
      var rest := UncheckedAmong(v, c, u, ids[1..]);
      if ids[0] !in v.edges || !TypeAllowed(c, v.edges[ids[0]]) then rest
      else [(v.edges[ids[0]].id, OtherEnd(Both, u, v.edges[ids[0]]))] + rest
  }

  ghost predicate EndsStored(v: GraphView) {
    forall k | k in v.edges :: v.edges[k].source in v.nodes && v.edges[k].target in v.nodes
  }

  /** On a graph without dangling edges the check makes no difference. */
  lemma {:induction false} UncheckedIsChecked(v: GraphView, c: Constraints, u: NodeId, ids: seq<EdgeId>)
    requires EndsStored(v) && c.nodeLabels == []
    ensures UncheckedAmong(v, c, u, ids) == ExpandAmong(v, c, Both, u, ids)
  {
    if ids != [] {
      UncheckedIsChecked(v, c, u, ids[1..]);
    }
  }

  function TypeOnly(edgeType: Option<string>): Constraints {
    Constraints(if edgeType.Some? then [edgeType.value] else [], [])
  }

  function UncheckedNeighbors(v: GraphView, edgeType: Option<string>, u: NodeId): seq<(EdgeId, NodeId)> {
    UncheckedAmong(v, TypeOnly(edgeType), u, IncidentIds(v, u, Both))
  }

  /** The undirected view that distances are taken in. */
  function Undirected(v: GraphView, edgeType: Option<string>): Space {
    Space(v, TypeOnly(edgeType), Both,
          map u | u in v.outgoing.Keys + v.incoming.Keys + v.both.Keys :: UncheckedNeighbors(v, edgeType, u))
  }

  lemma UndirectedNeighbors(v: GraphView, edgeType: Option<string>, u: NodeId)
    ensures UncheckedNeighbors(v, edgeType, u) == Neighbors(Undirected(v, edgeType), u)
  {
  }

  /** On a graph without dangling edges, this is the expansion that every search uses. */
  lemma UndirectedIsSpaceOf(v: GraphView, edgeType: Option<string>)
    requires EndsStored(v)
    ensures Undirected(v, edgeType) == SpaceOf(v, TypeOnly(edgeType), Both)
  {
    forall u ensures UncheckedNeighbors(v, edgeType, u) == ExpandNeighbors(v, TypeOnly(edgeType), Both, u) {
      UncheckedIsChecked(v, TypeOnly(edgeType), u, IncidentIds(v, u, Both));
    }
  }

  // ---------------------------------------------------------------- chains of edges

  /** A stored edge of the asked type that joins two nodes, in either direction. */
  ghost predicate Links(v: GraphView, edgeType: Option<string>, u: NodeId, k: EdgeId, w: NodeId) {
    && k in v.edges && (edgeType.Some? ==> v.edges[k].edgeType == edgeType.value)
    && (|| (v.edges[k].source == u && v.edges[k].target == w)
        || (v.edges[k].target == u && v.edges[k].source == w))
  }

  ghost predicate Chained(v: GraphView, edgeType: Option<string>, nodes: seq<NodeId>, edges: seq<EdgeId>) {
    |nodes| == |edges| + 1 && forall i | 0 <= i < |edges| :: Links(v, edgeType, nodes[i], edges[i], nodes[i + 1])
  }

  ghost predicate ChainBetween(v: GraphView, edgeType: Option<string>, a: NodeId, b: NodeId, nodes: seq<NodeId>,
                               edges: seq<EdgeId>) {
    Chained(v, edgeType, nodes, edges) && nodes[0] == a && nodes[|nodes| - 1] == b
  }

  ghost predicate WithinHops(v: GraphView, edgeType: Option<string>, a: NodeId, b: NodeId, k: nat) {
    exists nodes, edges :: ChainBetween(v, edgeType, a, b, nodes, edges) && |edges| <= k
  }

  lemma {:induction false} UncheckedAmongExact(v: GraphView, c: Constraints, u: NodeId, ids: seq<EdgeId>, k: EdgeId,
                                               w: NodeId)
    requires forall x | x in v.edges :: v.edges[x].id == x
    requires forall x | x in ids :: x in v.edges && Matches(v.edges[x], u, Both)
    ensures (k, w) in UncheckedAmong(v, c, u, ids) <==>
            k in ids && TypeAllowed(c, v.edges[k]) && Leads(Both, v.edges[k], u, w)
  {
    if ids != [] {
      UncheckedAmongExact(v, c, u, ids[1..], k, w);
      assert ids == [ids[0]] + ids[1..];
    }
  }

  /** The neighbours looked at are the other ends of the stored edges of the asked type. */
  lemma NeighborIff(v: GraphView, edgeType: Option<string>, u: NodeId, k: EdgeId, w: NodeId)
    requires ViewOk(v)
    ensures (k, w) in Neighbors(Undirected(v, edgeType), u) <==> Links(v, edgeType, u, k, w)
  {
    UndirectedNeighbors(v, edgeType, u);
    var ids := IncidentIds(v, u, Both);
    assert forall x | x in ids :: x in v.edges && Matches(v.edges[x], u, Both);
    UncheckedAmongExact(v, TypeOnly(edgeType), u, ids, k, w);
    assert k in ids <==> k in v.edges && Matches(v.edges[k], u, Both);
  }

  lemma ChainGrows(v: GraphView, edgeType: Option<string>, a: NodeId, u: NodeId, n: nat, k: EdgeId, w: NodeId)
    requires WithinHops(v, edgeType, a, u, n) && Links(v, edgeType, u, k, w)
    ensures WithinHops(v, edgeType, a, w, n + 1)
  {
    var nodes, edges :| ChainBetween(v, edgeType, a, u, nodes, edges) && |edges| <= n;
    assert ChainBetween(v, edgeType, a, w, nodes + [w], edges + [k]);
  }

  lemma ChainOfNone(v: GraphView, edgeType: Option<string>, a: NodeId)
    ensures WithinHops(v, edgeType, a, a, 0)
  {
    assert ChainBetween(v, edgeType, a, a, [a], []);
  }

  lemma ChainLonger(v: GraphView, edgeType: Option<string>, a: NodeId, b: NodeId, k: nat)
    requires WithinHops(v, edgeType, a, b, k)
    ensures WithinHops(v, edgeType, a, b, k + 1)
  {
    var nodes, edges :| ChainBetween(v, edgeType, a, b, nodes, edges) && |edges| <= k;
  }

  lemma NextIsChained(v: GraphView, edgeType: Option<string>, a: NodeId, near: set<NodeId>, k: nat, w: NodeId)
    requires ViewOk(v) && w in Next(Undirected(v, edgeType), near)
    requires forall u | u in near :: WithinHops(v, edgeType, a, u, k)
    ensures WithinHops(v, edgeType, a, w, k + 1)
  {
    var u, p :| u in near && p in Neighbors(Undirected(v, edgeType), u) && p.1 == w;
    assert (p.0, p.1) == p;
    NeighborIff(v, edgeType, u, p.0, w);
    ChainGrows(v, edgeType, a, u, k, p.0, w);
  }

  lemma {:induction false} BallIsChained(v: GraphView, edgeType: Option<string>, a: NodeId, k: nat)
    requires ViewOk(v)
    ensures forall w | w in Ball(Undirected(v, edgeType), a, k) :: WithinHops(v, edgeType, a, w, k)
  {
    if k == 0 {
      ChainOfNone(v, edgeType, a);
    } else {
      BallIsChained(v, edgeType, a, k - 1);
      var near := Ball(Undirected(v, edgeType), a, k - 1);
      forall w | w in Ball(Undirected(v, edgeType), a, k) ensures WithinHops(v, edgeType, a, w, k) {
        if w in near {
          ChainLonger(v, edgeType, a, w, k - 1);
        } else {
          NextIsChained(v, edgeType, a, near, k - 1, w);
        }
      }
    }
  }

  lemma LinkIsNext(v: GraphView, edgeType: Option<string>, u: NodeId, k: EdgeId, w: NodeId, near: set<NodeId>)
    requires ViewOk(v) && u in near && Links(v, edgeType, u, k, w)
    ensures w in Next(Undirected(v, edgeType), near)
  {
    NeighborIff(v, edgeType, u, k, w);
    assert (k, w) in Neighbors(Undirected(v, edgeType), u);
  }

  lemma {:induction false} ChainStaysInBall(v: GraphView, edgeType: Option<string>, nodes: seq<NodeId>,
                                            edges: seq<EdgeId>, i: nat)
    requires ViewOk(v) && Chained(v, edgeType, nodes, edges) && i < |nodes|
    ensures nodes[i] in Ball(Undirected(v, edgeType), nodes[0], i)
  {
    if i > 0 {
      ChainStaysInBall(v, edgeType, nodes, edges, i - 1);
      var s := Undirected(v, edgeType);
      LinkIsNext(v, edgeType, nodes[i - 1], edges[i - 1], nodes[i], Ball(s, nodes[0], i - 1));
      BallStep(s, nodes[0], i, nodes[i]);
    }
  }

  /** A ball of the undirected view holds exactly the ends of chains no longer than its radius. */
  lemma BallIsChains(v: GraphView, edgeType: Option<string>, a: NodeId, k: nat, w: NodeId)
    requires ViewOk(v)
    ensures w in Ball(Undirected(v, edgeType), a, k) <==> WithinHops(v, edgeType, a, w, k)
  {
    if w in Ball(Undirected(v, edgeType), a, k) {
      BallIsChained(v, edgeType, a, k);
    }
    if WithinHops(v, edgeType, a, w, k) {
      var nodes, edges :| ChainBetween(v, edgeType, a, w, nodes, edges) && |edges| <= k;
      ChainStaysInBall(v, edgeType, nodes, edges, |edges|);
      BallGrows(Undirected(v, edgeType), a, |edges|, k);
    }
  }

  /** The length of a shortest chain of at most three edges. */
  ghost predicate ShortestChain(v: GraphView, edgeType: Option<string>, a: NodeId, b: NodeId, d: nat) {
    d <= 3 && WithinHops(v, edgeType, a, b, d) && (d > 0 ==> !WithinHops(v, edgeType, a, b, d - 1))
  }

  lemma ChainIsDistance(v: GraphView, edgeType: Option<string>, start: NodeId, w: NodeId, d: nat)
    requires ViewOk(v)
    ensures AtDistance(Undirected(v, edgeType), start, Item(w, d)) <==>
            WithinHops(v, edgeType, start, w, d) && (d > 0 ==> !WithinHops(v, edgeType, start, w, d - 1))
  {
    BallIsChains(v, edgeType, start, d, w);
    if d > 0 {
      BallIsChains(v, edgeType, start, d - 1, w);
    }
  }

  lemma DistanceIsChain(v: GraphView, edgeType: Option<string>, start: NodeId, distances: map<NodeId, nat>, w: NodeId,
                        d: nat)
    requires ViewOk(v) && distances.Keys == Ball(Undirected(v, edgeType), start, MAX_DISTANCE)
    requires w in distances ==> AtDistance(Undirected(v, edgeType), start, Item(w, distances[w]))
    ensures Get(distances, w) == Some(d) <==> ShortestChain(v, edgeType, start, w, d)
  {
    var s := Undirected(v, edgeType);
    ChainIsDistance(v, edgeType, start, w, d);
    if w in distances {
      DistanceWithin(s, start, Item(w, distances[w]), MAX_DISTANCE);
      if ShortestChain(v, edgeType, start, w, d) {
        OneDistance(s, start, w, distances[w], d);
      }
    } else if ShortestChain(v, edgeType, start, w, d) {
      BallGrows(s, start, d, MAX_DISTANCE);
    }
  }

  lemma OneDistance(s: Space, start: NodeId, w: NodeId, d: nat, e: nat)
    requires AtDistance(s, start, Item(w, d)) && AtDistance(s, start, Item(w, e))
    ensures d == e
  {
    DistanceWithin(s, start, Item(w, d), e);
    DistanceWithin(s, start, Item(w, e), d);
  }

  // ---------------------------------------------------------------- the distance map

  function DistMap(order: seq<Item>): map<NodeId, nat> {
    if order == [] then map[] else DistMap(order[..|order| - 1])[order[|order| - 1].node := order[|order| - 1].depth]
  }

  lemma {:induction false} DistMapExact(s: Space, radius: nat, start: NodeId, order: seq<Item>)
    requires Good(s, start, order, radius)
    ensures DistMap(order).Keys == NodesOf(order)
    ensures forall w | w in DistMap(order) :: AtDistance(s, start, Item(w, DistMap(order)[w]))
  {
    if order != [] {
      DistMapExact(s, radius, start, order[..|order| - 1]);
    }
  }

  /** While a node at depth `d - 1` is expanded. */
  ghost predicate Growing(s: Space, radius: nat, start: NodeId, order: seq<Item>, d: nat, distances: map<NodeId, nat>) {
    && Good(s, start, order, radius) && TopDepth(order) <= d
    && distances == DistMap(order) && NodesOf(order) == distances.Keys
  }

  /** Between two items: the first `h` were taken and, within the radius, expanded. */
  ghost predicate Spread(s: Space, radius: nat, start: NodeId, order: seq<Item>, h: nat, distances: map<NodeId, nat>) {
    && h <= |order| && start in distances
    && Growing(s, radius, start, order, if h < |order| then order[h].depth + 1 else radius + 1, distances)
    && Next(s, Inner(order[..h], radius)) <= distances.Keys
  }

  lemma Discover(s: Space, radius: nat, start: NodeId, order: seq<Item>, d: nat, distances: map<NodeId, nat>, w: NodeId)
    requires Growing(s, radius, start, order, d, distances) && w !in distances && d <= radius &&
             AtDistance(s, start, Item(w, d))
    ensures Growing(s, radius, start, order + [Item(w, d)], d, distances[w := d])
  {
    GoodSnoc(s, start, order, radius, Item(w, d));
    Snoc(order, Item(w, d));
  }

  /** The inner loop: `or_insert_with` over the neighbours of one node. */
  method Relax(ns: seq<(EdgeId, NodeId)>, ghost s: Space, ghost radius: nat, ghost start: NodeId, d: nat,
               ghost order: seq<Item>, distances: map<NodeId, nat>)
    returns (distances': map<NodeId, nat>, pushed: seq<Item>)
    requires d <= radius && Growing(s, radius, start, order, d, distances)
    requires forall p | p in ns && p.1 !in distances :: AtDistance(s, start, Item(p.1, d))
    ensures Growing(s, radius, start, order + pushed, d, distances')
    ensures distances'.Keys == distances.Keys + Targets(ns[..|ns|])
  {
    distances', pushed := distances, [];
    ghost var o := order;
    for t := 0 to |ns|
      invariant o == order + pushed && Growing(s, radius, start, o, d, distances')
      invariant distances'.Keys == distances.Keys + Targets(ns[..t])
    {
      TargetsSnoc(ns, t);
      var w := ns[t].1;
      if w !in distances' {
        Discover(s, radius, start, o, d, distances', w);
        Regroup(order, pushed, [Item(w, d)]);
        distances', pushed, o := distances'[w := d], pushed + [Item(w, d)], o + [Item(w, d)];
      }
    }
  }

  lemma NeighborsAtDistance(s: Space, start: NodeId, u: NodeId, d: nat, near: set<NodeId>)
    requires d > 0 && u in Ball(s, start, d - 1) && Ball(s, start, d - 1) <= near
    ensures forall p | p in Neighbors(s, u) && p.1 !in near :: AtDistance(s, start, Item(p.1, d))
  {
    forall p | p in Neighbors(s, u) && p.1 !in near ensures AtDistance(s, start, Item(p.1, d)) {
      NeighborAtDistance(s, start, u, d, p);
    }
  }

  lemma ReadyToExpand(s: Space, radius: nat, start: NodeId, order: seq<Item>, h: nat, distances: map<NodeId, nat>)
    requires Spread(s, radius, start, order, h, distances) && h < |order|
    ensures order[h].depth <= radius && order[h].node in Ball(s, start, order[h].depth)
    ensures Ball(s, start, order[h].depth) <= distances.Keys
  {
    GoodAt(s, start, order, radius, h);
    SmallerBallsVisited(s, start, order, h, radius, distances.Keys, order[h].depth);
  }

  lemma Expanded(s: Space, radius: nat, start: NodeId, order: seq<Item>, h: nat, before: set<NodeId>, pushed: seq<Item>,
                 distances: map<NodeId, nat>)
    requires h < |order| && start in before && before <= distances.Keys && Next(s, Inner(order[..h], radius)) <= before
    requires order[h].depth < radius ==> Next(s, {order[h].node}) <= distances.Keys
    requires Growing(s, radius, start, order + pushed, order[h].depth + 1, distances)
    ensures Spread(s, radius, start, order + pushed, h + 1, distances)
  {
    var o := order + pushed;
    assert o[h] == order[h] && o[..h] == order[..h];
    NextDepth(s, start, o, radius, h);
    InnerTaken(s, o, radius, h, distances.Keys);
  }

  lemma FirstItem(s: Space, radius: nat, start: NodeId)
    ensures Spread(s, radius, start, [Item(start, 0)], 0, map[start := 0])
  {
    var none: seq<Item> := [];
    var x := Item(start, 0);
    Snoc(none, x);
    assert none + [x] == [x] && [x][..0] == none;
    assert AtDistance(s, start, x) && TopDepth(none) == 0;
    assert Good(s, start, [x], radius);
    assert DistMap(none) == map[] && DistMap([x]) == map[start := 0];
    assert Inner([x][..0], radius) == {} && Next(s, {}) == {};
  }

  lemma {:induction false} OrderInBall(s: Space, start: NodeId, order: seq<Item>, maxDepth: nat)
    requires Good(s, start, order, maxDepth)
    ensures NodesOf(order) <= Ball(s, start, maxDepth)
  {
    if order != [] {
      OrderInBall(s, start, order[..|order| - 1], maxDepth);
      BallGrows(s, start, order[|order| - 1].depth, maxDepth);
    }
  }

  lemma OrderCount(s: Space, radius: nat, start: NodeId, order: seq<Item>)
    requires Good(s, start, order, radius)
    ensures |order| <= |Ball(s, start, radius)|
  {
    OrderedCount(order, radius);
    OrderInBall(s, start, order, radius);
    SubsetCount(NodesOf(order), Ball(s, start, radius));
  }

  lemma DistancesDone(s: Space, radius: nat, start: NodeId, order: seq<Item>, distances: map<NodeId, nat>)
    requires Spread(s, radius, start, order, |order|, distances)
    ensures distances.Keys == Ball(s, start, radius)
    ensures forall w | w in distances :: AtDistance(s, start, Item(w, distances[w]))
  {
    OrderInBall(s, start, order, radius);
    SmallerBallsVisited(s, start, order, |order|, radius, distances.Keys, radius);
    DistMapExact(s, radius, start, order);
  }

  method ExpandNode(ns: seq<(EdgeId, NodeId)>, ghost s: Space, ghost radius: nat, ghost start: NodeId, ghost u: NodeId,
                    d: nat, ghost order: seq<Item>, distances: map<NodeId, nat>)
    returns (distances': map<NodeId, nat>, pushed: seq<Item>)
    requires 0 < d <= radius && Growing(s, radius, start, order, d, distances) && ns == Neighbors(s, u)
    requires u in Ball(s, start, d - 1) && Ball(s, start, d - 1) <= distances.Keys
    ensures Growing(s, radius, start, order + pushed, d, distances')
    ensures distances'.Keys == distances.Keys + Next(s, {u})
  {
    NeighborsAtDistance(s, start, u, d, distances.Keys);
    distances', pushed := Relax(ns, s, radius, start, d, order, distances);
    TargetsOfAll(s, u, ns);
  }

  /** One turn of the outer loop. */
  method TakeNode(ns: seq<(EdgeId, NodeId)>, ghost s: Space, radius: nat, ghost start: NodeId, item: Item,
                  ghost order: seq<Item>, ghost h: nat, distances: map<NodeId, nat>)
    returns (distances': map<NodeId, nat>, pushed: seq<Item>)
    requires h < |order| && item == order[h] && ns == Neighbors(s, item.node)
    requires Spread(s, radius, start, order, h, distances)
    ensures Spread(s, radius, start, order + pushed, h + 1, distances')
  {
    distances', pushed := distances, [];
    if item.depth < radius {
      ReadyToExpand(s, radius, start, order, h, distances);
      distances', pushed := ExpandNode(ns, s, radius, start, item.node, item.depth + 1, order, distances);
    } else {
      assert order + [] == order;
    }
    Expanded(s, radius, start, order, h, distances.Keys, pushed, distances');
  }

  /** `graph_distances`: exactly the nodes within three undirected hops, each with the length
      of a shortest walk to it. */
  method GraphDistances(v: GraphView, start: NodeId, edgeType: Option<string>) returns (distances: map<NodeId, nat>)
    ensures start !in v.nodes ==> distances == map[]
    ensures start in v.nodes ==> distances.Keys == Ball(Undirected(v, edgeType), start, MAX_DISTANCE)
    ensures start in v.nodes ==>
              forall w | w in distances :: AtDistance(Undirected(v, edgeType), start, Item(w, distances[w]))
    ensures ViewOk(v) && start in v.nodes ==>
              forall w: NodeId, d: nat :: Get(distances, w) == Some(d) <==> ShortestChain(v, edgeType, start, w, d)
  {
    if start !in v.nodes {
      return map[];
    }
    ghost var s := Undirected(v, edgeType);
    distances := map[start := 0];
    var queue := [Item(start, 0)];
    ghost var order, h := queue, 0;
    FirstItem(s, MAX_DISTANCE, start);
    OrderCount(s, MAX_DISTANCE, start, order);
    while queue != []
      invariant Spread(s, MAX_DISTANCE, start, order, h, distances) && queue == order[h..]
      invariant |order| <= |Ball(s, start, MAX_DISTANCE)|
      decreases |Ball(s, start, MAX_DISTANCE)| - h
    {
      var ns := UncheckedNeighbors(v, edgeType, queue[0].node);
      UndirectedNeighbors(v, edgeType, queue[0].node);
      var pushed;
      distances, pushed := TakeNode(ns, s, MAX_DISTANCE, start, queue[0], order, h, distances);
      QueueShift(order, h, pushed);
      OrderCount(s, MAX_DISTANCE, start, order + pushed);
      queue, order, h := queue[1..] + pushed, order + pushed, h + 1;
    }
    DistancesDone(s, MAX_DISTANCE, start, order, distances);
    if ViewOk(v) {
      DistancesAreChains(v, edgeType, start, distances);
    }
  }

  lemma DistancesAreChains(v: GraphView, edgeType: Option<string>, start: NodeId, distances: map<NodeId, nat>)
    requires ViewOk(v) && distances.Keys == Ball(Undirected(v, edgeType), start, MAX_DISTANCE)
    requires forall w | w in distances :: AtDistance(Undirected(v, edgeType), start, Item(w, distances[w]))
    ensures forall w: NodeId, d: nat :: Get(distances, w) == Some(d) <==> ShortestChain(v, edgeType, start, w, d)
  {
    forall w: NodeId, d: nat ensures Get(distances, w) == Some(d) <==> ShortestChain(v, edgeType, start, w, d) {
      DistanceIsChain(v, edgeType, start, distances, w, d);
    }
  }

  /** The distance of a node is the length of a shortest walk to it. */
  lemma DistanceIsShortest(s: Space, start: NodeId, w: NodeId, d: nat)
    requires SpaceOk(s) && AtDistance(s, start, Item(w, d))
    ensures Reachable(s, start, w, d)
    ensures forall nodes, edges | WalkBetween(s, start, w, nodes, edges) :: |edges| >= d
  {
    BallIsReachable(s, start, d, w);
    forall nodes, edges | WalkBetween(s, start, w, nodes, edges) ensures |edges| >= d {
      WalkStaysInBall(s, nodes, edges, |edges|);
      DistanceWithin(s, start, Item(w, d), |edges|);
    }
  }
}
