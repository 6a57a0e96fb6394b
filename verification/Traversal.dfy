/** Bounded breadth-first traversal (crates/query, `TraversalExecutionIter`). */
module Traversal {
  import opened Core
  import opened Reach

  datatype Emission = NodeItem(node: NodeId) | EdgeItem(edge: EdgeId)

  // ---------------------------------------------------------------- distances

  /** A node stands at its exact distance from the start. */
  ghost predicate AtDistance(s: Space, start: NodeId, x: Item) {
    x.node in Ball(s, start, x.depth) && (x.depth > 0 ==> x.node !in Ball(s, start, x.depth - 1))
  }

  lemma DistanceWithin(s: Space, start: NodeId, x: Item, k: nat)
    requires AtDistance(s, start, x) && x.node in Ball(s, start, k)
    ensures x.depth <= k
  {
    if k < x.depth {
      BallGrows(s, start, k, x.depth - 1);
    }
  }

  // ---------------------------------------------------------------- the visiting order

  ghost function NodesOf(order: seq<Item>): set<NodeId> {
    if order == [] then {} else NodesOf(order[..|order| - 1]) + {order[|order| - 1].node}
  }

  function Ids(order: seq<Item>): seq<NodeId> {
    if order == [] then [] else Ids(order[..|order| - 1]) + [order[|order| - 1].node]
  }

  function TopDepth(order: seq<Item>): nat {
    if order == [] then 0 else order[|order| - 1].depth
  }

  /** Each node once, none at a smaller depth than the one before. */
  ghost predicate Ordered(order: seq<Item>, maxDepth: nat) {
    order == [] ||
    (var front, x := order[..|order| - 1], order[|order| - 1];
     Ordered(front, maxDepth) && TopDepth(front) <= x.depth <= maxDepth && x.node !in NodesOf(front))
  }

  ghost predicate Placed(s: Space, start: NodeId, order: seq<Item>) {
    order == [] || (Placed(s, start, order[..|order| - 1]) && AtDistance(s, start, order[|order| - 1]))
  }

  /** The order in which nodes were queued: each once, at its distance, never nearer than
      the one before. */
  ghost predicate Good(s: Space, start: NodeId, order: seq<Item>, maxDepth: nat) {
    Ordered(order, maxDepth) && Placed(s, start, order)
  }

  lemma Snoc(order: seq<Item>, x: Item)
    ensures (order + [x])[..|order|] == order
    ensures NodesOf(order + [x]) == NodesOf(order) + {x.node} && Ids(order + [x]) == Ids(order) + [x.node]
  {
    assert (order + [x])[..|order|] == order;
  }

  lemma {:induction false} OrderedAt(order: seq<Item>, maxDepth: nat, i: nat)
    requires Ordered(order, maxDepth) && i < |order|
    ensures order[i].depth <= TopDepth(order) <= maxDepth
    ensures order[i].node in NodesOf(order) && |Ids(order)| == |order| && Ids(order)[i] == order[i].node
  {
    var front := order[..|order| - 1];
    if i < |front| {
      OrderedAt(front, maxDepth, i);
    } else if front != [] {
      OrderedAt(front, maxDepth, 0);
    }
  }

  lemma {:induction false} PlacedAt(s: Space, start: NodeId, order: seq<Item>, i: nat)
    requires Placed(s, start, order) && i < |order|
    ensures AtDistance(s, start, order[i])
  {
    if i < |order| - 1 {
      PlacedAt(s, start, order[..|order| - 1], i);
    }
  }

  lemma GoodAt(s: Space, start: NodeId, order: seq<Item>, maxDepth: nat, i: nat)
    requires Good(s, start, order, maxDepth) && i < |order|
    ensures AtDistance(s, start, order[i]) && order[i].depth <= TopDepth(order) <= maxDepth
    ensures order[i].node in NodesOf(order) && |Ids(order)| == |order| && Ids(order)[i] == order[i].node
  {
    OrderedAt(order, maxDepth, i);
    PlacedAt(s, start, order, i);
  }

  lemma {:induction false} OrderedPair(order: seq<Item>, maxDepth: nat, i: nat, j: nat)
    requires Ordered(order, maxDepth) && i < j < |order|
    ensures order[i].depth <= order[j].depth && order[i].node != order[j].node
  {
    var front := order[..|order| - 1];
    if j < |front| {
      OrderedPair(front, maxDepth, i, j);
    } else {
      OrderedAt(front, maxDepth, i);
    }
  }

  lemma {:induction false} OrderedCount(order: seq<Item>, maxDepth: nat)
    requires Ordered(order, maxDepth)
    ensures |NodesOf(order)| == |order| && NodesOf(order) == SetOf(Ids(order))
  {
    if order != [] {
      OrderedCount(order[..|order| - 1], maxDepth);
    }
  }

  lemma {:induction false} IndexOf(order: seq<Item>, u: NodeId) returns (i: nat)
    requires u in NodesOf(order)
    ensures i < |order| && order[i].node == u
  {
    if order[|order| - 1].node == u {
      i := |order| - 1;
    } else {
      i := IndexOf(order[..|order| - 1], u);
    }
  }

  /** The nodes of the items that may be expanded. */
  ghost function Inner(order: seq<Item>, maxDepth: nat): set<NodeId> {
    if order == [] then {}
    else
      var front, x := Inner(order[..|order| - 1], maxDepth), order[|order| - 1];
      if x.depth < maxDepth then front + {x.node} else front
  }

  lemma {:induction false} InnerHas(order: seq<Item>, maxDepth: nat, i: nat)
    requires i < |order| && order[i].depth < maxDepth
    ensures order[i].node in Inner(order, maxDepth)
  {
    if i < |order| - 1 {
      InnerHas(order[..|order| - 1], maxDepth, i);
    }
  }

  lemma NextOf(s: Space, a: set<NodeId>, u: NodeId)
    ensures Next(s, a + {u}) == Next(s, a) + Next(s, {u})
  {
  }

  /** Once all items nearer than depth `k + 1` are expanded, a node of the ball of radius
      `k` leads only to visited nodes. */
  lemma InnerNodeExpanded(s: Space, start: NodeId, order: seq<Item>, h: nat, maxDepth: nat, visited: set<NodeId>,
                          k: nat, u: NodeId)
    requires Good(s, start, order, maxDepth) && h <= |order| && k < maxDepth
    requires Next(s, Inner(order[..h], maxDepth)) <= visited
    requires h < |order| ==> order[h].depth > k
    requires u in NodesOf(order) && u in Ball(s, start, k)
    ensures Next(s, {u}) <= visited
  {
    var i := IndexOf(order, u);
    GoodAt(s, start, order, maxDepth, i);
    DistanceWithin(s, start, order[i], k);
    if h < i {
      OrderedPair(order, maxDepth, h, i);
    }
    InnerHas(order[..h], maxDepth, i);
  }

  lemma NextByNode(s: Space, from: set<NodeId>, visited: set<NodeId>)
    requires forall u | u in from :: Next(s, {u}) <= visited
    ensures Next(s, from) <= visited
  {
    forall w | w in Next(s, from) ensures w in visited {
      var u, p :| u in from && p in Neighbors(s, u) && p.1 == w;
      assert w in Next(s, {u});
    }
  }

  lemma {:induction false} SmallerBallsVisited(s: Space, start: NodeId, order: seq<Item>, h: nat, maxDepth: nat,
                                               visited: set<NodeId>, k: nat)
    requires Good(s, start, order, maxDepth) && h <= |order| && k <= maxDepth
    requires NodesOf(order) == visited && start in visited && Next(s, Inner(order[..h], maxDepth)) <= visited
    requires h < |order| ==> order[h].depth >= k
    ensures Ball(s, start, k) <= visited
  {
    if k > 0 {
      SmallerBallsVisited(s, start, order, h, maxDepth, visited, k - 1);
      var ball := Ball(s, start, k - 1);
      forall u | u in ball ensures Next(s, {u}) <= visited {
        InnerNodeExpanded(s, start, order, h, maxDepth, visited, k - 1, u);
      }
      NextByNode(s, ball, visited);
    }
  }

  // ---------------------------------------------------------------- what is emitted

  function NodeSeq(log: seq<Emission>): seq<NodeId> {
    if log == [] then []
    else
      var front, last := NodeSeq(log[..|log| - 1]), log[|log| - 1];
      if last.NodeItem? then front + [last.node] else front
  }

  function EdgeSeq(log: seq<Emission>): seq<EdgeId> {
    if log == [] then []
    else
      var front, last := EdgeSeq(log[..|log| - 1]), log[|log| - 1];
      if last.EdgeItem? then front + [last.edge] else front
  }

  ghost function EdgeSet(log: seq<Emission>): set<EdgeId> {
    if log == [] then {}
    else
      var front, last := EdgeSet(log[..|log| - 1]), log[|log| - 1];
      if last.EdgeItem? then front + {last.edge} else front
  }

  /** The emitted edges are the visited ones, each once. */
  ghost predicate EdgesEmitted(log: seq<Emission>, visitedEdges: set<EdgeId>, limit: nat) {
    EdgeSet(log) == visitedEdges && |EdgeSeq(log)| == |visitedEdges| <= limit
  }

  lemma {:induction false} EdgeSetIsSetOf(log: seq<Emission>)
    ensures EdgeSet(log) == SetOf(EdgeSeq(log))
  {
    if log != [] {
      EdgeSetIsSetOf(log[..|log| - 1]);
    }
  }

  lemma EmitNode(log: seq<Emission>, n: NodeId)
    ensures var log' := log + [NodeItem(n)];
            NodeSeq(log') == NodeSeq(log) + [n] && EdgeSeq(log') == EdgeSeq(log) && EdgeSet(log') == EdgeSet(log)
  {
    assert (log + [NodeItem(n)])[..|log|] == log;
  }

  lemma EmitEdge(log: seq<Emission>, k: EdgeId, visitedEdges: set<EdgeId>, limit: nat)
    requires EdgesEmitted(log, visitedEdges, limit) && k !in visitedEdges && |visitedEdges| < limit
    ensures NodeSeq(log + [EdgeItem(k)]) == NodeSeq(log)
    ensures EdgesEmitted(log + [EdgeItem(k)], visitedEdges + {k}, limit)
  {
    assert (log + [EdgeItem(k)])[..|log|] == log;
  }

  // ---------------------------------------------------------------- which edges are emitted

  ghost function ListedIds(ps: seq<(EdgeId, NodeId)>): set<EdgeId> {
    set p | p in ps :: p.0
  }

  /** The edges of the hops out of some nodes. */
  ghost function HopIds(s: Space, from: set<NodeId>): set<EdgeId> {
    set u, p | u in from && p in Neighbors(s, u) :: p.0
  }

  /** Listed edges were added, all of them as long as there is room. */
  ghost predicate EdgesAdded(listed: set<EdgeId>, before: set<EdgeId>, after: set<EdgeId>, limit: nat) {
    before <= after <= before + listed && (|after| < limit ==> listed <= after)
  }

  /** Only edges of hops out of the expanded nodes were emitted, and all while there is room. */
  ghost predicate EdgesSoFar(s: Space, inner: set<NodeId>, visited: set<NodeId>, visitedEdges: set<EdgeId>,
                             limit: nat)
  {
    && visitedEdges <= HopIds(s, inner)
    && (|visited| < limit && |visitedEdges| < limit ==> HopIds(s, inner) <= visitedEdges)
  }

  lemma EdgesAddedTwice(a: set<EdgeId>, b: set<EdgeId>, e0: set<EdgeId>, e1: set<EdgeId>, e2: set<EdgeId>, limit: nat)
    requires EdgesAdded(a, e0, e1, limit) && EdgesAdded(b, e1, e2, limit)
    ensures EdgesAdded(a + b, e0, e2, limit)
  {
    SubsetCount(e1, e2);
  }

  lemma ListedSnoc(ps: seq<(EdgeId, NodeId)>, t: nat)
    requires t < |ps|
    ensures ListedIds(ps[..t + 1]) == ListedIds(ps[..t]) + {ps[t].0}
  {
    assert ps[..t + 1] == ps[..t] + [ps[t]];
  }

  lemma ListedOfAll(s: Space, u: NodeId, ps: seq<(EdgeId, NodeId)>)
    requires ps == Neighbors(s, u)
    ensures ListedIds(ps[..0]) == {} && ListedIds(ps[..|ps|]) == HopIds(s, {u})
  {
    assert ps[..|ps|] == ps;
  }

  lemma HopIdsOf(s: Space, a: set<NodeId>, u: NodeId)
    ensures HopIds(s, a + {u}) == HopIds(s, a) + HopIds(s, {u}) && HopIds(s, {}) == {}
  {
  }

  lemma HopIdsGrow(s: Space, a: set<NodeId>, b: set<NodeId>)
    requires a <= b
    ensures HopIds(s, a) <= HopIds(s, b)
  {
  }

  // ---------------------------------------------------------------- expanding one node

  /** The books while a node at depth `d - 1` is expanded. */
  ghost predicate Books(s: Space, start: NodeId, order: seq<Item>, maxDepth: nat, d: nat, limit: nat,
                        visited: set<NodeId>, visitedEdges: set<EdgeId>, log: seq<Emission>)
  {
    && Good(s, start, order, maxDepth) && TopDepth(order) <= d && |order| <= limit
    && NodesOf(order) <= visited && (|visited| <= limit ==> NodesOf(order) == visited)
    && (|visited| >= limit ==> |order| == limit)
    && NodeSeq(log) == Ids(order) && EdgesEmitted(log, visitedEdges, limit)
  }

  lemma GoodSnoc(s: Space, start: NodeId, order: seq<Item>, maxDepth: nat, x: Item)
    requires Good(s, start, order, maxDepth) && AtDistance(s, start, x)
    requires TopDepth(order) <= x.depth <= maxDepth && x.node !in NodesOf(order)
    ensures Good(s, start, order + [x], maxDepth) && TopDepth(order + [x]) == x.depth
  {
    assert (order + [x])[..|order + [x]| - 1] == order;
  }

  lemma VisitNode(s: Space, start: NodeId, order: seq<Item>, maxDepth: nat, d: nat, limit: nat, visited: set<NodeId>,
                  visitedEdges: set<EdgeId>, log: seq<Emission>, w: NodeId)
    requires Books(s, start, order, maxDepth, d, limit, visited, visitedEdges, log)
    requires d <= maxDepth && w !in visited && AtDistance(s, start, Item(w, d))
    ensures |visited + {w}| <= limit ==>
              Books(s, start, order + [Item(w, d)], maxDepth, d, limit, visited + {w}, visitedEdges,
                    log + [NodeItem(w)])
    ensures |visited + {w}| > limit ==> Books(s, start, order, maxDepth, d, limit, visited + {w}, visitedEdges, log)
  {
    if |visited + {w}| <= limit {
      OrderedCount(order, maxDepth);
      GoodSnoc(s, start, order, maxDepth, Item(w, d));
      Snoc(order, Item(w, d));
      EmitNode(log, w);
    }
  }

  lemma Regroup<T>(a: seq<T>, b: seq<T>, c: seq<T>)
    ensures (a + b) + c == a + (b + c)
  {
  }

  /** One step of the neighbour loop of `TraversalExecutionIter::next`. */
  method VisitOne(ghost s: Space, ghost start: NodeId, k: EdgeId, w: NodeId, d: nat, ghost maxDepth: nat, limit: nat,
                  ghost order: seq<Item>, visited: set<NodeId>, visitedEdges: set<EdgeId>, ghost log: seq<Emission>)
    returns (visited': set<NodeId>, visitedEdges': set<EdgeId>, pushed: seq<Item>, out: seq<Emission>)
    requires d <= maxDepth && Books(s, start, order, maxDepth, d, limit, visited, visitedEdges, log)
    requires w !in visited ==> AtDistance(s, start, Item(w, d))
    ensures Books(s, start, order + pushed, maxDepth, d, limit, visited', visitedEdges', log + out)
    ensures visited' == visited + {w} && |pushed| + |visited| <= |visited'|
    ensures EdgesAdded({k}, visitedEdges, visitedEdges', limit)
  {
    visited', visitedEdges', pushed, out := visited, visitedEdges, [], [];
    ghost var l := log;
    if |visitedEdges| < limit && k !in visitedEdges {
      EmitEdge(log, k, visitedEdges, limit);
      visitedEdges' := visitedEdges + {k};
      out, l := [EdgeItem(k)], log + [EdgeItem(k)];
    } else {
      assert log + [] == log;
    }
    if w !in visited {
      VisitNode(s, start, order, maxDepth, d, limit, visited, visitedEdges', l, w);
      visited' := visited + {w};
      if |visited'| <= limit {
        Regroup(log, out, [NodeItem(w)]);
        pushed, out := [Item(w, d)], out + [NodeItem(w)];
      } else {
        assert order + [] == order;
      }
    } else {
      assert order + [] == order && visited + {w} == visited;
    }
  }

  lemma NeighborInNext(s: Space, from: set<NodeId>, u: NodeId, p: (EdgeId, NodeId))
    requires u in from && p in Neighbors(s, u)
    ensures p.1 in Next(s, from)
  {
  }

  lemma JustReached(s: Space, start: NodeId, d: nat, w: NodeId)
    requires w in Ball(s, start, d) && (d > 0 ==> w !in Ball(s, start, d - 1))
    ensures AtDistance(s, start, Item(w, d))
  {
  }

  lemma NeighborAtDistance(s: Space, start: NodeId, u: NodeId, d: nat, p: (EdgeId, NodeId))
    requires d > 0 && u in Ball(s, start, d - 1) && p in Neighbors(s, u) && p.1 !in Ball(s, start, d - 1)
    ensures AtDistance(s, start, Item(p.1, d))
  {
    NeighborInNext(s, Ball(s, start, d - 1), u, p);
    BallStep(s, start, d, p.1);
    JustReached(s, start, d, p.1);
  }

  /** The neighbour loop of `TraversalExecutionIter::next`, for a node at depth `d - 1`. */
  method VisitNeighbors(s: Space, ghost start: NodeId, u: NodeId, d: nat, ghost maxDepth: nat, limit: nat,
                        ghost order: seq<Item>,
                        visited: set<NodeId>, visitedEdges: set<EdgeId>, ghost log: seq<Emission>)
    returns (visited': set<NodeId>, visitedEdges': set<EdgeId>, pushed: seq<Item>, out: seq<Emission>)
    requires 0 < d <= maxDepth && Books(s, start, order, maxDepth, d, limit, visited, visitedEdges, log)
    requires u in Ball(s, start, d - 1) && Ball(s, start, d - 1) <= visited
    ensures Books(s, start, order + pushed, maxDepth, d, limit, visited', visitedEdges', log + out)
    ensures visited' == visited + Next(s, {u})
    ensures |pushed| + |visited| <= |visited'|
    ensures EdgesAdded(HopIds(s, {u}), visitedEdges, visitedEdges', limit)
  {
    forall p | p in Neighbors(s, u) && p.1 !in visited ensures AtDistance(s, start, Item(p.1, d)) {
      NeighborAtDistance(s, start, u, d, p);
    }
    visited', visitedEdges', pushed, out :=
      VisitListed(s, start, Neighbors(s, u), d, maxDepth, limit, order, visited, visitedEdges, log);
    TargetsOfAll(s, u, Neighbors(s, u));
    ListedOfAll(s, u, Neighbors(s, u));
  }

  method VisitListed(ghost s: Space, ghost start: NodeId, ns: seq<(EdgeId, NodeId)>, d: nat, ghost maxDepth: nat,
                     limit: nat,
                     ghost order: seq<Item>, visited: set<NodeId>, visitedEdges: set<EdgeId>, ghost log: seq<Emission>)
    returns (visited': set<NodeId>, visitedEdges': set<EdgeId>, pushed: seq<Item>, out: seq<Emission>)
    requires d <= maxDepth && Books(s, start, order, maxDepth, d, limit, visited, visitedEdges, log)
    requires forall p | p in ns && p.1 !in visited :: AtDistance(s, start, Item(p.1, d))
    ensures Books(s, start, order + pushed, maxDepth, d, limit, visited', visitedEdges', log + out)
    ensures visited' == visited + Targets(ns[..|ns|])
    ensures |pushed| + |visited| <= |visited'|
    ensures EdgesAdded(ListedIds(ns[..|ns|]), visitedEdges, visitedEdges', limit)
  {
    visited', visitedEdges', pushed, out := visited, visitedEdges, [], [];
    ghost var o, l := order, log;
    for t := 0 to |ns|
      invariant o == order + pushed && l == log + out
      invariant Books(s, start, o, maxDepth, d, limit, visited', visitedEdges', l)
      invariant visited' == visited + Targets(ns[..t])
      invariant |pushed| + |visited| <= |visited'|
      invariant EdgesAdded(ListedIds(ns[..t]), visitedEdges, visitedEdges', limit)
    {
      TargetsSnoc(ns, t);
      ListedSnoc(ns, t);
      var (k, w) := ns[t];
      ghost var edges1 := visitedEdges';
      var pushed1, out1;
      visited', visitedEdges', pushed1, out1 :=
        VisitOne(s, start, k, w, d, maxDepth, limit, o, visited', visitedEdges', l);
      Regroup(order, pushed, pushed1);
      Regroup(log, out, out1);
      EdgesAddedTwice(ListedIds(ns[..t]), {k}, visitedEdges, edges1, visitedEdges', limit);
      pushed, o := pushed + pushed1, o + pushed1;
      out, l := out + out1, l + out1;
    }
  }

  // ---------------------------------------------------------------- the iterator

  /** Between two items: the first `h` were taken, and expanded while there was room. */
  ghost predicate Traversing(s: Space, start: NodeId, maxDepth: nat, limit: nat, order: seq<Item>, h: nat,
                             visited: set<NodeId>, visitedEdges: set<EdgeId>, log: seq<Emission>)
  {
    && h <= |order| && start in visited
    && Books(s, start, order, maxDepth, if h < |order| then order[h].depth + 1 else maxDepth + 1, limit,
             visited, visitedEdges, log)
    && (|visited| < limit ==> Next(s, Inner(order[..h], maxDepth)) <= visited)
    && EdgesSoFar(s, Inner(order[..h], maxDepth), visited, visitedEdges, limit)
  }

  ghost function Room(limit: nat, visited: set<NodeId>): nat {
    if |visited| < limit then limit - |visited| else 0
  }

  lemma NextDepth(s: Space, start: NodeId, order: seq<Item>, maxDepth: nat, h: nat)
    requires Good(s, start, order, maxDepth) && h < |order|
    ensures order[h].depth <= if h + 1 < |order| then order[h + 1].depth else maxDepth
    ensures TopDepth(order) <= maxDepth
  {
    GoodAt(s, start, order, maxDepth, h);
    if h + 1 < |order| {
      OrderedPair(order, maxDepth, h, h + 1);
    }
  }

  lemma InnerTaken(s: Space, order: seq<Item>, maxDepth: nat, h: nat, visited: set<NodeId>)
    requires h < |order| && Next(s, Inner(order[..h], maxDepth)) <= visited
    requires order[h].depth < maxDepth ==> Next(s, {order[h].node}) <= visited
    ensures Next(s, Inner(order[..h + 1], maxDepth)) <= visited
  {
    assert order[..h + 1][..h] == order[..h];
    NextOf(s, Inner(order[..h], maxDepth), order[h].node);
  }

  lemma InnerNext(order: seq<Item>, maxDepth: nat, h: nat)
    requires h < |order|
    ensures Inner(order[..h + 1], maxDepth) ==
            if order[h].depth < maxDepth then Inner(order[..h], maxDepth) + {order[h].node}
              else Inner(order[..h], maxDepth)
  {
    assert order[..h + 1][..h] == order[..h];
  }

  lemma SkipKeepsEdges(s: Space, order: seq<Item>, maxDepth: nat, h: nat, visited: set<NodeId>,
                       visitedEdges: set<EdgeId>, limit: nat)
    requires h < |order| && EdgesSoFar(s, Inner(order[..h], maxDepth), visited, visitedEdges, limit)
    requires order[h].depth >= maxDepth || |visited| >= limit
    ensures EdgesSoFar(s, Inner(order[..h + 1], maxDepth), visited, visitedEdges, limit)
  {
    InnerNext(order, maxDepth, h);
    HopIdsOf(s, Inner(order[..h], maxDepth), order[h].node);
  }

  lemma ExpandKeepsEdges(s: Space, inner: set<NodeId>, u: NodeId, visited: set<NodeId>, visited': set<NodeId>,
                         visitedEdges: set<EdgeId>, visitedEdges': set<EdgeId>, limit: nat)
    requires EdgesSoFar(s, inner, visited, visitedEdges, limit) && |visited| < limit
    requires EdgesAdded(HopIds(s, {u}), visitedEdges, visitedEdges', limit)
    ensures EdgesSoFar(s, inner + {u}, visited', visitedEdges', limit)
  {
    HopIdsOf(s, inner, u);
    SubsetCount(visitedEdges, visitedEdges');
  }

  lemma SkipTaken(s: Space, start: NodeId, maxDepth: nat, limit: nat, order: seq<Item>, h: nat,
                  visited: set<NodeId>, visitedEdges: set<EdgeId>, log: seq<Emission>)
    requires Traversing(s, start, maxDepth, limit, order, h, visited, visitedEdges, log) && h < |order|
    requires order[h].depth == maxDepth || |visited| >= limit
    ensures Traversing(s, start, maxDepth, limit, order, h + 1, visited, visitedEdges, log)
  {
    NextDepth(s, start, order, maxDepth, h);
    SkipKeepsEdges(s, order, maxDepth, h, visited, visitedEdges, limit);
    if |visited| < limit {
      InnerTaken(s, order, maxDepth, h, visited);
    }
  }

  lemma BeforeExpanding(s: Space, start: NodeId, maxDepth: nat, limit: nat, order: seq<Item>, h: nat,
                        visited: set<NodeId>, visitedEdges: set<EdgeId>, log: seq<Emission>)
    requires Traversing(s, start, maxDepth, limit, order, h, visited, visitedEdges, log) && h < |order|
    requires |visited| < limit
    ensures order[h].depth <= maxDepth && order[h].node in Ball(s, start, order[h].depth)
    ensures Ball(s, start, order[h].depth) <= visited && |order| == |visited|
  {
    GoodAt(s, start, order, maxDepth, h);
    OrderedCount(order, maxDepth);
    SmallerBallsVisited(s, start, order, h, maxDepth, visited, order[h].depth);
  }

  lemma AfterExpanding(s: Space, start: NodeId, maxDepth: nat, limit: nat, order: seq<Item>, h: nat,
                       visited: set<NodeId>,
                       pushed: seq<Item>, visited': set<NodeId>, visitedEdges': set<EdgeId>, log': seq<Emission>)
    requires h < |order| && start in visited && Next(s, Inner(order[..h], maxDepth)) <= visited
    requires visited' == visited + Next(s, {order[h].node}) && order[h].depth < maxDepth
    requires EdgesSoFar(s, Inner(order[..h], maxDepth) + {order[h].node}, visited', visitedEdges', limit)
    requires Books(s, start, order + pushed, maxDepth, order[h].depth + 1, limit, visited', visitedEdges', log')
    ensures Traversing(s, start, maxDepth, limit, order + pushed, h + 1, visited', visitedEdges', log')
  {
    var o := order + pushed;
    assert o[h] == order[h] && o[..h] == order[..h];
    NextDepth(s, start, o, maxDepth, h);
    InnerTaken(s, o, maxDepth, h, visited');
    InnerNext(o, maxDepth, h);
  }

  /** Take one item of the queue and, within the bounds, expand it. */
  method TakeItem(s: Space, ghost start: NodeId, item: Item, maxDepth: nat, limit: nat, ghost order: seq<Item>,
                  ghost taken: nat, visited: set<NodeId>, visitedEdges: set<EdgeId>, ghost log: seq<Emission>)
    returns (visited': set<NodeId>, visitedEdges': set<EdgeId>, pushed: seq<Item>, out: seq<Emission>)
    requires taken < |order| && item == order[taken]
    requires Traversing(s, start, maxDepth, limit, order, taken, visited, visitedEdges, log)
    ensures Traversing(s, start, maxDepth, limit, order + pushed, taken + 1, visited', visitedEdges', log + out)
    ensures Room(limit, visited') + |pushed| <= Room(limit, visited)
  {
    if item.depth == maxDepth || |visited| >= limit {
      SkipTaken(s, start, maxDepth, limit, order, taken, visited, visitedEdges, log);
      assert order + [] == order && log + [] == log;
      return visited, visitedEdges, [], [];
    }
    BeforeExpanding(s, start, maxDepth, limit, order, taken, visited, visitedEdges, log);
    visited', visitedEdges', pushed, out :=
      VisitNeighbors(s, start, item.node, item.depth + 1, maxDepth, limit, order, visited, visitedEdges, log);
    ExpandKeepsEdges(s, Inner(order[..taken], maxDepth), item.node, visited, visited', visitedEdges, visitedEdges',
                     limit);
    AfterExpanding(s, start, maxDepth, limit, order, taken, visited, pushed, visited', visitedEdges', log + out);
  }

  lemma FirstVisit(s: Space, start: NodeId, maxDepth: nat, limit: nat)
    requires limit >= 1
    ensures Traversing(s, start, maxDepth, limit, [Item(start, 0)], 0, {start}, {}, [NodeItem(start)])
  {
    var none: seq<Item> := [];
    var quiet: seq<Emission> := [];
    var x := Item(start, 0);
    Snoc(none, x);
    EmitNode(quiet, start);
    assert none + [x] == [x] && quiet + [NodeItem(start)] == [NodeItem(start)];
    assert [x][..0] == none;
    assert Good(s, start, none, maxDepth) && TopDepth(none) == 0 && NodesOf(none) == {};
    assert AtDistance(s, start, x);
    assert Good(s, start, [x], maxDepth);
    assert Inner([x][..0], maxDepth) == {};
    assert Next(s, {}) == {};
    HopIdsOf(s, {}, start);
  }

  lemma QueueShift(order: seq<Item>, taken: nat, pushed: seq<Item>)
    requires taken < |order|
    ensures (order + pushed)[taken + 1..] == order[taken..][1..] + pushed && order[taken..][0] == order[taken]
  {
  }

  lemma MoveFirst(a: seq<Emission>, b: seq<Emission>)
    requires b != []
    ensures a + b == (a + [b[0]]) + b[1..]
  {
  }

  /** All items ever queued, how many of them were taken, and all emissions so far. */
  datatype Trace = Trace(order: seq<Item>, taken: nat, log: seq<Emission>)

  /** What holds even after a time-out. */
  ghost predicate Tracked(s: Space, start: NodeId, maxDepth: nat, limit: nat, tr: Trace, visited: set<NodeId>,
                          visitedEdges: set<EdgeId>)
  {
    if start in s.view.nodes then Traversing(s, start, maxDepth, limit, tr.order, tr.taken, visited, visitedEdges,
                                             tr.log)
    else tr == Trace([], 0, [])
  }

  ghost predicate QueueOf(tr: Trace, queue: seq<Item>) {
    tr.taken <= |tr.order| && queue == tr.order[tr.taken..]
  }

  method TakeFirst(s: Space, ghost start: NodeId, maxDepth: nat, limit: nat, queue: seq<Item>, visited: set<NodeId>,
                   visitedEdges: set<EdgeId>, ghost tr: Trace)
    returns (visited': set<NodeId>, visitedEdges': set<EdgeId>, queue': seq<Item>, out: seq<Emission>, ghost tr': Trace)
    requires Tracked(s, start, maxDepth, limit, tr, visited, visitedEdges) && QueueOf(tr, queue) && queue != []
    ensures Tracked(s, start, maxDepth, limit, tr', visited', visitedEdges') && QueueOf(tr', queue')
    ensures tr'.log == tr.log + out && tr'.taken == tr.taken + 1
    ensures Room(limit, visited') + |queue'| < Room(limit, visited) + |queue|
  {
    var pushed;
    visited', visitedEdges', pushed, out :=
      TakeItem(s, start, queue[0], maxDepth, limit, tr.order, tr.taken, visited, visitedEdges, tr.log);
    QueueShift(tr.order, tr.taken, pushed);
    queue' := queue[1..] + pushed;
    tr' := Trace(tr.order + pushed, tr.taken + 1, tr.log + out);
  }

  /** The loop of `TraversalExecutionIter::next`: take items until something is pending. The
      clock runs out after `ticks` more items. */
  method Refill(s: Space, ghost start: NodeId, maxDepth: nat, limit: nat, queue: seq<Item>, visited: set<NodeId>,
                visitedEdges: set<EdgeId>, ticks: nat, ghost tr: Trace)
    returns (visited': set<NodeId>, visitedEdges': set<EdgeId>, queue': seq<Item>, out: seq<Emission>,
             timedOut: bool, ticks': nat, ghost tr': Trace)
    requires Tracked(s, start, maxDepth, limit, tr, visited, visitedEdges) && QueueOf(tr, queue)
    ensures Tracked(s, start, maxDepth, limit, tr', visited', visitedEdges') && (!timedOut ==> QueueOf(tr', queue'))
    ensures tr'.log == tr.log + out && (timedOut ==> out == [])
    ensures out == [] && !timedOut ==> queue' == []
    ensures out != [] ==> Room(limit, visited') + |queue'| < Room(limit, visited) + |queue|
    ensures ticks' + tr'.taken == ticks + tr.taken && (timedOut ==> ticks' == 0 && tr'.taken < |tr'.order|)
  {
    visited', visitedEdges', queue', out, timedOut := visited, visitedEdges, queue, [], false;
    ticks', tr' := ticks, tr;
    while queue' != [] && out == []
      invariant Tracked(s, start, maxDepth, limit, tr', visited', visitedEdges') && QueueOf(tr', queue')
      invariant tr'.log == tr.log + out && ticks' + tr'.taken == ticks + tr.taken && !timedOut
      invariant Room(limit, visited') + |queue'| <= Room(limit, visited) + |queue|
      invariant out != [] ==> Room(limit, visited') + |queue'| < Room(limit, visited) + |queue|
      decreases Room(limit, visited') + |queue'|
    {
      if ticks' == 0 {
        queue', timedOut := queue'[1..], true;
        return;
      }
      ticks' := ticks' - 1;
      visited', visitedEdges', queue', out, tr' :=
        TakeFirst(s, start, maxDepth, limit, queue', visited', visitedEdges', tr');
    }
  }

  /** What holds of the iterator's fields even after a time-out. */
  ghost predicate SaneState(s: Space, start: NodeId, maxDepth: nat, limit: nat, visited: set<NodeId>,
                            visitedEdges: set<EdgeId>, pending: seq<Emission>, tr: Trace, emitted: seq<Emission>,
                            ticks: nat, budget: nat)
  {
    && Tracked(s, start, maxDepth, limit, tr, visited, visitedEdges) && tr.log == emitted + pending
    && ticks + tr.taken == budget
  }

  /** The clock ran out with an item left. */
  ghost predicate Late(ticks: nat, tr: Trace) {
    ticks == 0 && tr.taken < |tr.order|
  }

  /** Some course of the traversal explains the values, and the queue is what it has left. */
  ghost predicate Explained(s: Space, start: NodeId, maxDepth: nat, limit: nat, visited: set<NodeId>,
                            visitedEdges: set<EdgeId>, pending: seq<Emission>, emitted: seq<Emission>, ticks: nat,
                            budget: nat, queue: seq<Item>)
  {
    exists tr: Trace ::
      && SaneState(s, start, maxDepth, limit, visited, visitedEdges, pending, tr, emitted, ticks, budget)
      && QueueOf(tr, queue)
  }

  /** The same, but the clock ran out with an item left. */
  ghost predicate ExplainedLate(s: Space, start: NodeId, maxDepth: nat, limit: nat, visited: set<NodeId>,
                                visitedEdges: set<EdgeId>, pending: seq<Emission>, emitted: seq<Emission>, ticks: nat,
                                budget: nat)
  {
    exists tr: Trace ::
      && SaneState(s, start, maxDepth, limit, visited, visitedEdges, pending, tr, emitted, ticks, budget)
      && Late(ticks, tr)
  }

  method Advance(s: Space, ghost start: NodeId, maxDepth: nat, limit: nat, queue: seq<Item>, visited: set<NodeId>,
                 visitedEdges: set<EdgeId>, pending: seq<Emission>, ticks: nat, ghost budget: nat,
                 ghost emitted: seq<Emission>)
    returns (visited': set<NodeId>, visitedEdges': set<EdgeId>, queue': seq<Item>, pending': seq<Emission>,
             r: Option<Emission>, timedOut: bool, ticks': nat, ghost emitted': seq<Emission>)
    requires Explained(s, start, maxDepth, limit, visited, visitedEdges, pending, emitted, ticks, budget, queue)
    ensures emitted' == if r.Some? then emitted + [r.value] else emitted
    ensures if timedOut
            then ExplainedLate(s, start, maxDepth, limit, visited', visitedEdges', pending', emitted', ticks', budget)
            else Explained(s, start, maxDepth, limit, visited', visitedEdges', pending', emitted', ticks', budget,
                           queue')
    ensures r.Some? ==> !timedOut
    ensures r.None? ==> pending' == [] && (!timedOut ==> queue' == [])
    ensures r.Some? ==> var a, b := Room(limit, visited') + |queue'|, Room(limit, visited) + |queue|;
                        a < b || (a == b && |pending'| < |pending|)
  {
    ghost var tr :|
      && SaneState(s, start, maxDepth, limit, visited, visitedEdges, pending, tr, emitted, ticks, budget)
      && QueueOf(tr, queue);
    visited', visitedEdges', queue', pending', timedOut := visited, visitedEdges, queue, pending, false;
    ticks', emitted' := ticks, emitted;
    if pending == [] {
      assert emitted + [] == emitted;
      visited', visitedEdges', queue', pending', timedOut, ticks', tr :=
        Refill(s, start, maxDepth, limit, queue, visited, visitedEdges, ticks, tr);
    }
    if pending' == [] {
      r := None;
      assert SaneState(s, start, maxDepth, limit, visited', visitedEdges', pending', tr, emitted', ticks', budget);
      return;
    }
    MoveFirst(emitted, pending');
    r, emitted', pending' := Some(pending'[0]), emitted + [pending'[0]], pending'[1..];
    assert SaneState(s, start, maxDepth, limit, visited', visitedEdges', pending', tr, emitted', ticks', budget);
  }

  class TraversalIter {
    const space: Space
    const start: NodeId
    const maxDepth: nat
    const limit: nat
    /** How many items may be taken before the clock runs out. */
    const budget: nat
    var visitedNodes: set<NodeId>
    var visitedEdges: set<EdgeId>
    var queue: seq<Item>
    var pending: seq<Emission>
    var ticks: nat
    /** The items handed out so far. */
    ghost var emitted: seq<Emission>

    ghost predicate Valid()
      reads this
    {
      Explained(space, start, maxDepth, limit, visitedNodes, visitedEdges, pending, emitted, ticks, budget, queue)
    }

    ghost predicate OutOfTime()
      reads this
    {
      ExplainedLate(space, start, maxDepth, limit, visitedNodes, visitedEdges, pending, emitted, ticks, budget)
    }

    ghost function Measure(): nat
      reads this
    {
      Room(limit, visitedNodes) + |queue|
    }

    constructor (space: Space, start: NodeId, maxDepth: nat, limit: nat, budget: nat)
      requires limit >= 1
      ensures Valid() && emitted == []
      ensures this.space == space && this.start == start && this.maxDepth == maxDepth && this.limit == limit
      ensures this.budget == budget
    {
      this.space, this.start, this.maxDepth, this.limit, this.budget := space, start, maxDepth, limit, budget;
      visitedNodes, visitedEdges, queue, pending, ticks := {}, {}, [], [], budget;
      emitted := [];
      ghost var tr := Trace([], 0, []);
      if start in space.view.nodes {
        visitedNodes, queue, pending := {start}, [Item(start, 0)], [NodeItem(start)];
        tr := Trace([Item(start, 0)], 0, [NodeItem(start)]);
        FirstVisit(space, start, maxDepth, limit);
      }
      new;
      assert SaneState(space, start, maxDepth, limit, visitedNodes, visitedEdges, pending, tr, emitted, ticks, budget);
      assert QueueOf(tr, queue);
    }

    /** `TraversalExecutionIter::next`; the clock may cut the traversal short at every item. */
    method Next() returns (r: Option<Emission>, timedOut: bool)
      requires Valid()
      modifies this
      ensures if timedOut then OutOfTime() else Valid()
      ensures r.Some? ==> emitted == old(emitted) + [r.value] && !timedOut
      ensures r.None? ==> emitted == old(emitted) && pending == []
      ensures r.None? && !timedOut ==> queue == []
      ensures r.Some? ==> Measure() < old(Measure()) || (Measure() == old(Measure()) && |pending| < old(|pending|))
    {
      visitedNodes, visitedEdges, queue, pending, r, timedOut, ticks, emitted :=
        Advance(space, start, maxDepth, limit, queue, visitedNodes, visitedEdges, pending, ticks, budget, emitted);
    }
  }

  // ---------------------------------------------------------------- what a traversal returns

  /** Each node once, at most `limit`, all within the ball, no node before a nearer one. */
  ghost predicate BreadthFirst(s: Space, start: NodeId, maxDepth: nat, limit: nat, nodes: seq<NodeId>) {
    && NoRepeats(nodes) && |nodes| <= limit
    && (forall i | 0 <= i < |nodes| :: nodes[i] in Ball(s, start, maxDepth))
    && (forall i, j, k: nat | 0 <= i < j < |nodes| && nodes[j] in Ball(s, start, k) :: nodes[i] in Ball(s, start, k))
  }

  lemma OrderIsBreadthFirst(s: Space, start: NodeId, maxDepth: nat, limit: nat, order: seq<Item>)
    requires Good(s, start, order, maxDepth) && |order| <= limit
    ensures BreadthFirst(s, start, maxDepth, limit, Ids(order))
  {
    if order != [] {
      GoodAt(s, start, order, maxDepth, 0);
    }
    OrderedCount(order, maxDepth);
    forall i | 0 <= i < |order| ensures Ids(order)[i] == order[i].node && order[i].node in Ball(s, start, maxDepth) {
      GoodAt(s, start, order, maxDepth, i);
      BallGrows(s, start, order[i].depth, maxDepth);
    }
    forall i, j, k: nat | 0 <= i < j < |order| && order[j].node in Ball(s, start, k)
      ensures order[i].node in Ball(s, start, k)
    {
      GoodAt(s, start, order, maxDepth, i);
      GoodAt(s, start, order, maxDepth, j);
      OrderedPair(order, maxDepth, i, j);
      DistanceWithin(s, start, order[j], k);
      BallGrows(s, start, order[i].depth, k);
    }
  }

  /** With room for the whole ball, exactly the ball is visited. */
  lemma WholeBallVisited(s: Space, start: NodeId, maxDepth: nat, limit: nat, order: seq<Item>,
                         visited: set<NodeId>, visitedEdges: set<EdgeId>, log: seq<Emission>)
    requires Traversing(s, start, maxDepth, limit, order, |order|, visited, visitedEdges, log)
    requires SetOf(Ids(order)) <= Ball(s, start, maxDepth) && |Ball(s, start, maxDepth)| <= limit
    ensures SetOf(Ids(order)) == Ball(s, start, maxDepth)
  {
    OrderedCount(order, maxDepth);
    if |visited| < limit {
      SmallerBallsVisited(s, start, order, |order|, maxDepth, visited, maxDepth);
    } else {
      SubsetCount(SetOf(Ids(order)), Ball(s, start, maxDepth));
    }
  }

  /** The nodes that are near enough to be expanded. */
  ghost function NearBall(s: Space, start: NodeId, maxDepth: nat): set<NodeId> {
    if maxDepth == 0 then {} else Ball(s, start, maxDepth - 1)
  }

  lemma ItemIsNear(s: Space, start: NodeId, x: Item, maxDepth: nat)
    requires AtDistance(s, start, x) && x.depth < maxDepth
    ensures x.node in NearBall(s, start, maxDepth)
  {
    NearIsBall(s, start, maxDepth - 1);
    BallGrows(s, start, x.depth, maxDepth - 1);
  }

  lemma NearIsBall(s: Space, start: NodeId, k: nat)
    ensures NearBall(s, start, k + 1) == Ball(s, start, k)
  {
  }

  lemma {:induction false} InnerIsNear(s: Space, start: NodeId, order: seq<Item>, maxDepth: nat)
    requires Placed(s, start, order)
    ensures Inner(order, maxDepth) <= NearBall(s, start, maxDepth) && Inner(order, maxDepth) <= NodesOf(order)
  {
    if order != [] {
      var x := order[|order| - 1];
      InnerIsNear(s, start, order[..|order| - 1], maxDepth);
      if x.depth < maxDepth {
        ItemIsNear(s, start, x, maxDepth);
      }
    }
  }

  lemma NearIsInner(s: Space, start: NodeId, order: seq<Item>, maxDepth: nat)
    requires Good(s, start, order, maxDepth) && NearBall(s, start, maxDepth) <= NodesOf(order)
    ensures NearBall(s, start, maxDepth) <= Inner(order, maxDepth)
  {
    forall u | u in NearBall(s, start, maxDepth) ensures u in Inner(order, maxDepth) {
      var i := IndexOf(order, u);
      GoodAt(s, start, order, maxDepth, i);
      DistanceWithin(s, start, order[i], maxDepth - 1);
      InnerHas(order, maxDepth, i);
    }
  }

  lemma {:induction false} InnerGrows(order: seq<Item>, maxDepth: nat, h: nat)
    requires h <= |order|
    ensures Inner(order[..h], maxDepth) <= Inner(order, maxDepth)
  {
    if h < |order| {
      InnerGrows(order[..|order| - 1], maxDepth, h);
      assert order[..|order| - 1][..h] == order[..h];
    } else {
      assert order[..h] == order;
    }
  }

  /** Every emitted edge leads out of an emitted node that is near enough to be expanded. */
  lemma EdgesLeadOut(s: Space, start: NodeId, maxDepth: nat, limit: nat, order: seq<Item>, taken: nat,
                     visited: set<NodeId>, visitedEdges: set<EdgeId>, items: seq<Emission>)
    requires Traversing(s, start, maxDepth, limit, order, taken, visited, visitedEdges, items)
    ensures SetOf(EdgeSeq(items)) <= HopIds(s, NearBall(s, start, maxDepth) * SetOf(NodeSeq(items)))
  {
    EdgeSetIsSetOf(items);
    OrderedCount(order, maxDepth);
    InnerGrows(order, maxDepth, taken);
    InnerIsNear(s, start, order, maxDepth);
    HopIdsGrow(s, Inner(order[..taken], maxDepth), NearBall(s, start, maxDepth) * SetOf(NodeSeq(items)));
  }

  /** With room for the ball and to spare, and for all edges out of its inner part, exactly
      those edges are emitted. */
  lemma WholeBallEdges(s: Space, start: NodeId, maxDepth: nat, limit: nat, order: seq<Item>,
                       visited: set<NodeId>, visitedEdges: set<EdgeId>, items: seq<Emission>)
    requires Traversing(s, start, maxDepth, limit, order, |order|, visited, visitedEdges, items)
    requires SetOf(Ids(order)) == Ball(s, start, maxDepth) && |Ball(s, start, maxDepth)| < limit
    requires |HopIds(s, NearBall(s, start, maxDepth))| <= limit
    ensures SetOf(EdgeSeq(items)) == HopIds(s, NearBall(s, start, maxDepth))
  {
    var near := NearBall(s, start, maxDepth);
    assert order[..|order|] == order;
    EdgeSetIsSetOf(items);
    OrderedCount(order, maxDepth);
    InnerIsNear(s, start, order, maxDepth);
    if maxDepth > 0 {
      BallGrows(s, start, maxDepth - 1, maxDepth);
    }
    NearIsInner(s, start, order, maxDepth);
    assert Inner(order, maxDepth) == near;
    SubsetCount(visitedEdges, HopIds(s, near));
  }

  lemma EndOfTraversal(s: Space, start: NodeId, maxDepth: nat, limit: nat, order: seq<Item>, taken: nat,
                       visited: set<NodeId>, visitedEdges: set<EdgeId>, items: seq<Emission>, timedOut: bool)
    requires Traversing(s, start, maxDepth, limit, order, taken, visited, visitedEdges, items)
    requires !timedOut ==> taken == |order|
    ensures BreadthFirst(s, start, maxDepth, limit, NodeSeq(items))
    ensures !timedOut && |Ball(s, start, maxDepth)| <= limit ==> SetOf(NodeSeq(items)) == Ball(s, start, maxDepth)
    ensures SetOf(EdgeSeq(items)) <= HopIds(s, NearBall(s, start, maxDepth) * SetOf(NodeSeq(items)))
    ensures !timedOut && |Ball(s, start, maxDepth)| < limit && |HopIds(s, NearBall(s, start, maxDepth))| <= limit ==>
              SetOf(EdgeSeq(items)) == HopIds(s, NearBall(s, start, maxDepth))
    ensures |NodeSeq(items)| == |order|
  {
    OrderIsBreadthFirst(s, start, maxDepth, limit, order);
    OrderedCount(order, maxDepth);
    EdgesLeadOut(s, start, maxDepth, limit, order, taken, visited, visitedEdges, items);
    if !timedOut && |Ball(s, start, maxDepth)| <= limit {
      WholeBallVisited(s, start, maxDepth, limit, order, visited, visitedEdges, items);
      if |Ball(s, start, maxDepth)| < limit && |HopIds(s, NearBall(s, start, maxDepth))| <= limit {
        WholeBallEdges(s, start, maxDepth, limit, order, visited, visitedEdges, items);
      }
    }
  }

  /** What a traversal from a stored node returns. The clock stops it only after `ticks` nodes. */
  ghost predicate Traversed(s: Space, start: NodeId, maxDepth: nat, limit: nat, ticks: nat, items: seq<Emission>,
                            timedOut: bool)
  {
    var nodes, edges, near := NodeSeq(items), EdgeSeq(items), NearBall(s, start, maxDepth);
    && BreadthFirst(s, start, maxDepth, limit, nodes)
    && NoRepeats(edges) && |edges| <= limit && SetOf(edges) <= HopIds(s, near * SetOf(nodes))
    && (timedOut ==> |nodes| > ticks)
    && (!timedOut && |Ball(s, start, maxDepth)| <= limit ==> SetOf(nodes) == Ball(s, start, maxDepth))
    && (!timedOut && |Ball(s, start, maxDepth)| < limit && |HopIds(s, near)| <= limit ==>
        SetOf(edges) == HopIds(s, near))
  }

  /** A whole traversal: collect the iterator until it ends. */
  method Traverse(space: Space, start: NodeId, maxDepth: nat, limit: nat, ticks: nat)
    returns (items: seq<Emission>, timedOut: bool)
    requires limit >= 1
    ensures start !in space.view.nodes ==> items == [] && !timedOut
    ensures start in space.view.nodes ==> Traversed(space, start, maxDepth, limit, ticks, items, timedOut)
  {
    var it := new TraversalIter(space, start, maxDepth, limit, ticks);
    items, timedOut := [], false;
    while true
      invariant it.Valid() && it.emitted == items && fresh(it)
      invariant it.space == space && it.start == start && it.maxDepth == maxDepth && it.limit == limit
      invariant it.budget == ticks
      decreases it.Measure(), |it.pending|
    {
      var r, late := it.Next();
      if r.None? {
        timedOut := late;
        break;
      }
      items := items + [r.value];
    }
    assert items + [] == items;
    ghost var tr: Trace;
    if timedOut {
      tr :| SaneState(space, start, maxDepth, limit, it.visitedNodes, it.visitedEdges, it.pending, tr, items, it.ticks,
                      ticks) && Late(it.ticks, tr);
    } else {
      tr :| SaneState(space, start, maxDepth, limit, it.visitedNodes, it.visitedEdges, it.pending, tr, items, it.ticks,
                      ticks) && QueueOf(tr, it.queue);
    }
    EdgeSetIsSetOf(items);
    if start in space.view.nodes {
      EndOfTraversal(space, start, maxDepth, limit, tr.order, tr.taken, it.visitedNodes, it.visitedEdges, items,
                     timedOut);
    }
  }

  /** The traversal of a consistent view: with room for all of them, exactly the nodes at
      the end of a walk of at most `maxDepth` hops. */
  method TraverseView(v: GraphView, c: Constraints, d: Direction, start: NodeId, maxDepth: nat, limit: nat, ticks: nat)
    returns (items: seq<Emission>, timedOut: bool)
    requires ViewOk(v) && limit >= 1
    ensures start !in v.nodes ==> items == [] && !timedOut
    ensures start in v.nodes ==> Traversed(SpaceOf(v, c, d), start, maxDepth, limit, ticks, items, timedOut)
    ensures start in v.nodes && !timedOut && |Ball(SpaceOf(v, c, d), start, maxDepth)| <= limit ==>
              forall n :: n in NodeSeq(items) <==> Reachable(SpaceOf(v, c, d), start, n, maxDepth)
    ensures forall k | k in EdgeSeq(items) :: EmittedHop(SpaceOf(v, c, d), start, maxDepth, items, k)
    ensures forall k | k in EdgeSeq(items) ::
              && k in v.edges && (c.edgeTypes != [] ==> v.edges[k].edgeType in c.edgeTypes)
              && (|| (d != Incoming && v.edges[k].source in NodeSeq(items))
                  || (d != Outgoing && v.edges[k].target in NodeSeq(items)))
    ensures forall n | n in NodeSeq(items) && n != start ::
              n in v.nodes && (c.nodeLabels != [] ==> v.nodes[n].nodeType in c.nodeLabels)
  {
    var s := SpaceOf(v, c, d);
    items, timedOut := Traverse(s, start, maxDepth, limit, ticks);
    SpaceOfOk(v, c, d);
    forall n ensures n in Ball(s, start, maxDepth) <==> Reachable(s, start, n, maxDepth) {
      BallIsReachable(s, start, maxDepth, n);
    }
    assert forall n :: n in NodeSeq(items) <==> n in SetOf(NodeSeq(items));
    forall k | k in EdgeSeq(items) ensures EmittedHop(s, start, maxDepth, items, k) {
      EmittedEdgeIsHop(s, start, maxDepth, items, k);
    }
    forall k | k in EdgeSeq(items)
      ensures k in v.edges && (c.edgeTypes != [] ==> v.edges[k].edgeType in c.edgeTypes)
      ensures || (d != Incoming && v.edges[k].source in NodeSeq(items))
              || (d != Outgoing && v.edges[k].target in NodeSeq(items))
    {
      EmittedEdgeIs(v, c, d, start, maxDepth, items, k);
    }
    forall n | n in NodeSeq(items) && n != start
      ensures n in v.nodes && (c.nodeLabels != [] ==> v.nodes[n].nodeType in c.nodeLabels)
    {
      assert n in SetOf(NodeSeq(items));
      BallAdmitted(v, c, d, start, maxDepth, n);
    }
  }

  lemma EmittedEdgeIs(v: GraphView, c: Constraints, d: Direction, start: NodeId, maxDepth: nat, items: seq<Emission>,
                      k: EdgeId)
    requires EmittedHop(SpaceOf(v, c, d), start, maxDepth, items, k)
    ensures k in v.edges && (c.edgeTypes != [] ==> v.edges[k].edgeType in c.edgeTypes)
    ensures || (d != Incoming && v.edges[k].source in NodeSeq(items))
            || (d != Outgoing && v.edges[k].target in NodeSeq(items))
  {
    var s := SpaceOf(v, c, d);
    var u, w :| u in NodeSeq(items) && u in NearBall(s, start, maxDepth) && Hop(s, u, k, w);
    HopIs(v, c, d, u, k, w);
  }

  lemma {:induction false} BallAdmitted(v: GraphView, c: Constraints, d: Direction, start: NodeId, k: nat, n: NodeId)
    requires ViewOk(v) && n in Ball(SpaceOf(v, c, d), start, k) && n != start
    ensures n in v.nodes && (c.nodeLabels != [] ==> v.nodes[n].nodeType in c.nodeLabels)
  {
    var s := SpaceOf(v, c, d);
    SpaceOfOk(v, c, d);
    if n in Ball(s, start, k - 1) {
      BallAdmitted(v, c, d, start, k - 1, n);
    } else {
      var u, e := HopInto(s, Ball(s, start, k - 1), n);
      HopIs(v, c, d, u, e, n);
    }
  }

  /** The edge is an admitted hop out of an emitted node nearer than the depth limit. */
  ghost predicate EmittedHop(s: Space, start: NodeId, maxDepth: nat, items: seq<Emission>, k: EdgeId) {
    exists u, w :: u in NodeSeq(items) && u in NearBall(s, start, maxDepth) && Hop(s, u, k, w)
  }

  lemma EmittedEdgeIsHop(s: Space, start: NodeId, maxDepth: nat, items: seq<Emission>, k: EdgeId)
    requires SpaceOk(s) && k in HopIds(s, NearBall(s, start, maxDepth) * SetOf(NodeSeq(items)))
    ensures EmittedHop(s, start, maxDepth, items, k)
  {
    var from := NearBall(s, start, maxDepth) * SetOf(NodeSeq(items));
    var u, p :| u in from && p in Neighbors(s, u) && p.0 == k;
    assert (p.0, p.1) in Neighbors(s, u);
  }
}
