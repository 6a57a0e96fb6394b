/** Level-synchronous bidirectional breadth-first search (crates/query, `shortest_path`). */
module ShortestPath {
  import opened Core
  import opened Reach
  import opened Paths

  datatype Parent = Parent(previous: Option<NodeId>, viaEdge: Option<EdgeId>)

  type Parents = map<NodeId, Parent>

  type Queue = seq<Item>

  // ---------------------------------------------------------------- one side of the search

  /** The parent links form a tree of hops rooted at `root`; `depth` counts the links. */
  ghost predicate Tree(s: Space, root: NodeId, parents: Parents, depth: map<NodeId, nat>) {
    && parents.Keys == depth.Keys
    && root in parents && parents[root] == Parent(None, None) && depth[root] == 0
    && (forall n | n in parents && n != root :: Linked(s, parents, depth, n))
  }

  ghost predicate Linked(s: Space, parents: Parents, depth: map<NodeId, nat>, n: NodeId)
    requires n in parents && parents.Keys == depth.Keys
  {
    && parents[n].previous.Some? && parents[n].viaEdge.Some?
    && parents[n].previous.value in parents
    && depth[n] == depth[parents[n].previous.value] + 1
    && Hop(s, parents[n].previous.value, parents[n].viaEdge.value, n)
  }

  /** Level `i` is complete: `ball` is reached, the queue holds its nodes at depth `i`, and
      every node nearer to the root has been expanded into it. */
  ghost predicate Level(s: Space, root: NodeId, parents: Parents, depth: map<NodeId, nat>, queue: Queue, i: nat,
                        ball: set<NodeId>)
  {
    && Tree(s, root, parents, depth) && parents.Keys == ball
    && (forall n | n in depth :: depth[n] <= i)
    && (forall n | n in depth && depth[n] < i :: Next(s, {n}) <= ball)
    && (forall q | q in queue :: q.node in depth && depth[q.node] == i && q.depth == i)
    && (forall n | n in depth && depth[n] == i :: Item(n, i) in queue)
  }

  /** In the middle of level `i`: besides `ball`, the nodes in `found` are reached. */
  ghost predicate Partial(s: Space, root: NodeId, parents: Parents, depth: map<NodeId, nat>, i: nat,
                          ball: set<NodeId>, found: set<NodeId>, added: Queue)
  {
    && Tree(s, root, parents, depth) && parents.Keys == ball + found
    && (forall n | n in depth :: if n in ball then depth[n] <= i else depth[n] == i + 1)
    && (forall q | q in added :: q.node in depth && depth[q.node] == i + 1 && q.depth == i + 1)
    && (forall n | n in depth && depth[n] == i + 1 :: Item(n, i + 1) in added)
  }

  lemma StartLevel(s: Space, root: NodeId)
    ensures Level(s, root, map[root := Parent(None, None)], map[root := 0], [Item(root, 0)], 0, Ball(s, root, 0))
  {
  }

  lemma NextUnion(s: Space, a: set<NodeId>, u: NodeId)
    ensures Next(s, a + {u}) == Next(s, a) + Next(s, {u})
    ensures Next(s, {}) == {}
  {
  }

  /** When every node of level `i` has been expanded, level `i + 1` is complete. */
  lemma ExpandedLevel(s: Space, ball: set<NodeId>, depth: map<NodeId, nat>, i: nat, done: set<NodeId>)
    requires ball <= depth.Keys && done <= ball
    requires forall n | n in ball && depth[n] < i :: Next(s, {n}) <= ball
    requires forall n | n in ball && depth[n] >= i :: n in done
    ensures ball + Next(s, done) == ball + Next(s, ball)
  {
    forall w | w in Next(s, ball) ensures w in ball + Next(s, done) {
      var u, p :| u in ball && p in Neighbors(s, u) && p.1 == w;
      if depth[u] < i {
        assert w in Next(s, {u});
      }
    }
  }

  lemma AddChildTree(s: Space, root: NodeId, parents: Parents, depth: map<NodeId, nat>, u: NodeId, k: EdgeId, w: NodeId)
    requires Tree(s, root, parents, depth)
    requires u in depth && w !in parents && Hop(s, u, k, w)
    ensures Tree(s, root, parents[w := Parent(Some(u), Some(k))], depth[w := depth[u] + 1])
  {
    var parents', depth' := parents[w := Parent(Some(u), Some(k))], depth[w := depth[u] + 1];
    assert parents'.Keys == depth'.Keys;
    forall n | n in parents' && n != root ensures Linked(s, parents', depth', n) {
      assert n != w ==> Linked(s, parents, depth, n);
    }
  }

  lemma AddChild(s: Space, root: NodeId, parents: Parents, depth: map<NodeId, nat>, i: nat, ball: set<NodeId>,
                 found: set<NodeId>, added: Queue, u: NodeId, k: EdgeId, w: NodeId)
    requires Partial(s, root, parents, depth, i, ball, found, added)
    requires u in depth && depth[u] == i && w !in parents && Hop(s, u, k, w)
    ensures Partial(s, root, parents[w := Parent(Some(u), Some(k))], depth[w := i + 1], i, ball, found + {w},
                    added + [Item(w, i + 1)])
  {
    AddChildTree(s, root, parents, depth, u, k, w);
    AddToLevel(depth, i, added, w);
    assert parents[w := Parent(Some(u), Some(k))].Keys == ball + (found + {w});
  }

  lemma AddToLevel(depth: map<NodeId, nat>, i: nat, added: Queue, w: NodeId)
    requires w !in depth
    requires forall q | q in added :: q.node in depth && depth[q.node] == i + 1 && q.depth == i + 1
    requires forall n | n in depth && depth[n] == i + 1 :: Item(n, i + 1) in added
    ensures var depth', added' := depth[w := i + 1], added + [Item(w, i + 1)];
            && (forall q | q in added' :: q.node in depth' && depth'[q.node] == i + 1 && q.depth == i + 1)
            && (forall n | n in depth' && depth'[n] == i + 1 :: Item(n, i + 1) in added')
  {
  }

  /** A meeting node: reached from this side at depth `i`, and known to the other side. */
  ghost predicate Meeting(s: Space, root: NodeId, parents: Parents, depth: map<NodeId, nat>, other: Parents, m: NodeId,
                          i: nat)
  {
    Tree(s, root, parents, depth) && m in parents && m in other && depth[m] == i
  }

  ghost predicate Keeps(a: map<NodeId, nat>, b: map<NodeId, nat>) {
    forall n | n in a :: n in b && b[n] == a[n]
  }

  /** One neighbour in the inner loop of `expand_frontier`. */
  method VisitChild(ghost s: Space, ghost root: NodeId, parents: Parents, ghost depth: map<NodeId, nat>, other: Parents,
                    u: NodeId, k: EdgeId,
                    w: NodeId, i: nat, ghost ball: set<NodeId>, ghost found: set<NodeId>, ghost added: Queue)
    returns (parents': Parents, ghost depth': map<NodeId, nat>, pushed: Queue, meet: Option<NodeId>)
    requires Partial(s, root, parents, depth, i, ball, found, added) && Hop(s, u, k, w)
    requires u in depth && depth[u] == i && parents.Keys !! other.Keys
    ensures meet.None? ==> Partial(s, root, parents', depth', i, ball, found + {w}, added + pushed)
    ensures meet.None? ==> parents'.Keys !! other.Keys
    ensures meet.Some? ==> Meeting(s, root, parents', depth', other, meet.value, i + 1)
    ensures meet == if w in other then Some(w) else None
    ensures Keeps(depth, depth')
  {
    parents', depth', pushed, meet := parents, depth, [], None;
    if w in parents {
      SkipChild(s, root, parents, depth, i, ball, found, added, w);
      assert added + [] == added;
    } else {
      AddChild(s, root, parents, depth, i, ball, found, added, u, k, w);
      parents', depth' := parents[w := Parent(Some(u), Some(k))], depth[w := i + 1];
      if w in other {
        meet := Some(w);
      } else {
        pushed := [Item(w, i + 1)];
      }
    }
  }

  lemma KeepsTrans(a: map<NodeId, nat>, b: map<NodeId, nat>, c: map<NodeId, nat>)
    requires Keeps(a, b) && Keeps(b, c)
    ensures Keeps(a, c)
  {
  }

  /** The inner loop of `expand_frontier`. */
  method ExpandNode(s: Space, root: NodeId, parents: Parents, ghost depth: map<NodeId, nat>, other: Parents,
                    u: NodeId, i: nat, ghost ball: set<NodeId>, ghost found: set<NodeId>, ghost added: Queue)
    returns (parents': Parents, ghost depth': map<NodeId, nat>, pushed: Queue, meet: Option<NodeId>)
    requires SpaceOk(s) && Partial(s, root, parents, depth, i, ball, found, added)
    requires u in depth && depth[u] == i && parents.Keys !! other.Keys
    ensures meet.None? ==> Partial(s, root, parents', depth', i, ball, found + Next(s, {u}), added + pushed)
    ensures meet.None? ==> parents'.Keys !! other.Keys
    ensures meet.Some? ==> Meeting(s, root, parents', depth', other, meet.value, i + 1)
    ensures meet == FirstKnown(Neighbors(s, u), other.Keys)
    ensures Keeps(depth, depth')
  {
    NeighborsAreHops(s, u);
    parents', depth', pushed, meet :=
      ExpandHops(s, root, parents, depth, other, u, Neighbors(s, u), i, ball, found, added);
    TargetsOfAll(s, u, Neighbors(s, u));
    assert Neighbors(s, u)[..|Neighbors(s, u)|] == Neighbors(s, u);
  }

  method ExpandHops(ghost s: Space, ghost root: NodeId, parents: Parents, ghost depth: map<NodeId, nat>, other: Parents,
                    u: NodeId, ns: seq<(EdgeId, NodeId)>, i: nat, ghost ball: set<NodeId>, ghost found: set<NodeId>,
                    ghost added: Queue)
    returns (parents': Parents, ghost depth': map<NodeId, nat>, pushed: Queue, meet: Option<NodeId>)
    requires Partial(s, root, parents, depth, i, ball, found, added)
    requires forall t | 0 <= t < |ns| :: Hop(s, u, ns[t].0, ns[t].1)
    requires u in depth && depth[u] == i && parents.Keys !! other.Keys
    ensures meet.None? ==> Partial(s, root, parents', depth', i, ball, found + Targets(ns), added + pushed)
    ensures meet.None? ==> parents'.Keys !! other.Keys
    ensures meet.Some? ==> Meeting(s, root, parents', depth', other, meet.value, i + 1)
    ensures meet == FirstKnown(ns, other.Keys)
    ensures Keeps(depth, depth')
  {
    parents', depth', pushed, meet := parents, depth, [], None;
    ghost var f, a := found, added;
    for t := 0 to |ns|
      invariant f == found + Targets(ns[..t]) && a == added + pushed
      invariant Partial(s, root, parents', depth', i, ball, f, a)
      invariant parents'.Keys !! other.Keys && meet.None?
      invariant Keeps(depth, depth')
      invariant NoneKnown(ns, other.Keys, t)
    {
      MoreTargets(found, ns, t);
      ghost var before := depth';
      var more;
      parents', depth', more, meet := VisitChild(s, root, parents', depth', other, u, ns[t].0, ns[t].1, i, ball, f, a);
      KeepsTrans(depth, before, depth');
      if meet.Some? {
        FirstKnownAt(ns, other.Keys, t);
        return;
      }
      OneMoreUnknown(ns, other.Keys, t);
      AppendTwice(added, pushed, more);
      pushed, a, f := pushed + more, a + more, f + {ns[t].1};
    }
    FirstKnownAt(ns, other.Keys, |ns|);
    assert ns[..|ns|] == ns;
  }

  lemma MoreTargets(found: set<NodeId>, ns: seq<(EdgeId, NodeId)>, t: nat)
    requires t < |ns|
    ensures found + Targets(ns[..t]) + {ns[t].1} == found + Targets(ns[..t + 1])
  {
    TargetsSnoc(ns, t);
  }

  lemma NeighborsAreHops(s: Space, u: NodeId)
    requires SpaceOk(s)
    ensures forall t | 0 <= t < |Neighbors(s, u)| :: Hop(s, u, Neighbors(s, u)[t].0, Neighbors(s, u)[t].1)
  {
    forall t | 0 <= t < |Neighbors(s, u)| ensures Hop(s, u, Neighbors(s, u)[t].0, Neighbors(s, u)[t].1) {
      var p := Neighbors(s, u)[t];
      assert (p.0, p.1) in Neighbors(s, u);
    }
  }

  lemma SkipChild(s: Space, root: NodeId, parents: Parents, depth: map<NodeId, nat>, i: nat, ball: set<NodeId>,
                  found: set<NodeId>, added: Queue, w: NodeId)
    requires Partial(s, root, parents, depth, i, ball, found, added) && w in parents
    ensures Partial(s, root, parents, depth, i, ball, found + {w}, added)
  {
    assert ball + (found + {w}) == ball + found;
  }

  ghost function NodesOf(q: Queue): set<NodeId> {
    set x | x in q :: x.node
  }

  lemma FinishLevel(s: Space, root: NodeId, before: Queue, depth0: map<NodeId, nat>, parents: Parents,
                    depth: map<NodeId, nat>, i: nat, ball: set<NodeId>, added: Queue)
    requires ball == depth0.Keys && Keeps(depth0, depth)
    requires forall n | n in depth0 && depth0[n] < i :: Next(s, {n}) <= ball
    requires forall n | n in depth0 && depth0[n] >= i :: Item(n, i) in before
    requires forall q | q in before :: q.node in depth0
    requires Partial(s, root, parents, depth, i, ball, Next(s, NodesOf(before)), added)
    ensures Level(s, root, parents, depth, added, i + 1, ball + Next(s, ball))
  {
    forall n | n in ball && depth[n] >= i ensures n in NodesOf(before) {
      assert Item(n, i) in before;
    }
    ExpandedLevel(s, ball, depth, i, NodesOf(before));
    forall n | n in depth && depth[n] < i + 1 ensures Next(s, {n}) <= ball + Next(s, ball) {
      assert n in ball;
    }
  }

  lemma NodesOfSnoc(q: Queue, j: nat)
    requires j < |q|
    ensures NodesOf(q[..j + 1]) == NodesOf(q[..j]) + {q[j].node}
  {
    assert q[..j + 1] == q[..j] + [q[j]];
  }

  lemma PopFront(queue: Queue, added: Queue, j: nat)
    requires j < |queue|
    ensures (queue[j..] + added)[1..] == queue[j + 1..] + added && (queue[j..] + added)[0] == queue[j]
    ensures queue[j] in queue
  {
  }

  lemma AppendTwice(a: Queue, b: Queue, c: Queue)
    ensures (a + b) + c == a + (b + c)
  {
  }

  /** The state of a level after `j` of its items, `level` being the queue at its start. */
  ghost predicate Sweep(s: Space, root: NodeId, level: Queue, parents0: Parents, depth0: map<NodeId, nat>, i: nat,
                        maxDepth: nat,
                        ball: set<NodeId>, j: nat, queue: Queue, parents: Parents, depth: map<NodeId, nat>,
                        added: Queue)
  {
    && j <= |level| && queue == level[j..] + added && Keeps(depth0, depth)
    && (i < maxDepth ==> Partial(s, root, parents, depth, i, ball, Next(s, NodesOf(level[..j])), added))
    && (i == maxDepth ==> parents == parents0 && depth == depth0 && added == [])
  }

  method ExpandItem(s: Space, root: NodeId, ghost level: Queue, ghost parents0: Parents, ghost depth0: map<NodeId, nat>,
                    other: Parents, maxDepth: nat, ghost i: nat, ghost ball: set<NodeId>, ghost j: nat,
                    queue: Queue, parents: Parents, ghost depth: map<NodeId, nat>, ghost added: Queue)
    returns (queue': Queue, parents': Parents, ghost depth': map<NodeId, nat>, ghost added': Queue,
             meet: Option<NodeId>)
    requires SpaceOk(s) && Level(s, root, parents0, depth0, level, i, ball)
    requires i <= maxDepth && j < |level| && parents.Keys !! other.Keys
    requires Sweep(s, root, level, parents0, depth0, i, maxDepth, ball, j, queue, parents, depth, added)
    ensures meet.None? ==>
              parents'.Keys !! other.Keys &&
              Sweep(s, root, level, parents0, depth0, i, maxDepth, ball, j + 1, queue', parents', depth', added')
    ensures meet.Some? ==> i < maxDepth && Meeting(s, root, parents', depth', other, meet.value, i + 1)
    ensures i < maxDepth ==> meet == FirstKnown(Neighbors(s, level[j].node), other.Keys)
  {
    PopFront(level, added, j);
    NodesOfSnoc(level, j);
    var item := queue[0];
    queue', parents', depth', added', meet := queue[1..], parents, depth, added, None;
    if item.depth != maxDepth {
      NextUnion(s, NodesOf(level[..j]), item.node);
      var pushed;
      parents', depth', pushed, meet :=
        ExpandNodeKeeping(s, root, parents, depth0, depth, other, item.node, item.depth, ball,
                          Next(s, NodesOf(level[..j])), added);
      if meet.None? {
        AppendTwice(level[j + 1..], added, pushed);
        queue', added' := queue' + pushed, added + pushed;
      }
    }
  }

  /** `expand_frontier`: expand one whole level, unless the two sides meet in the middle of
      it; nodes at the depth limit are dropped from the queue unexpanded. */
  method ExpandFrontier(s: Space, root: NodeId, queue: Queue, parents: Parents, ghost depth: map<NodeId, nat>,
                        other: Parents, maxDepth: nat, ghost i: nat, ghost ball: set<NodeId>)
    returns (queue': Queue, parents': Parents, ghost depth': map<NodeId, nat>, meet: Option<NodeId>)
    requires SpaceOk(s) && Level(s, root, parents, depth, queue, i, ball)
    requires i <= maxDepth && parents.Keys !! other.Keys
    ensures meet.None? && i < maxDepth ==> Level(s, root, parents', depth', queue', i + 1, ball + Next(s, ball))
    ensures meet.None? && i == maxDepth ==> parents' == parents && depth' == depth && queue' == []
    ensures meet.None? ==> parents'.Keys !! other.Keys
    ensures meet.Some? ==> i < maxDepth && Meeting(s, root, parents', depth', other, meet.value, i + 1)
    ensures |queue| == 1 && i < maxDepth ==> meet == FirstKnown(Neighbors(s, queue[0].node), other.Keys)
  {
    queue', parents', depth', meet := queue, parents, depth, None;
    ghost var added: Queue := [];
    StartSweep(s, root, queue, parents, depth, i, maxDepth, ball);
    for j := 0 to |queue|
      invariant meet.None? && parents'.Keys !! other.Keys
      invariant Sweep(s, root, queue, parents, depth, i, maxDepth, ball, j, queue', parents', depth', added)
      invariant j > 0 && i < maxDepth ==> FirstKnown(Neighbors(s, queue[j - 1].node), other.Keys) == None
    {
      queue', parents', depth', added, meet :=
        ExpandItem(s, root, queue, parents, depth, other, maxDepth, i, ball, j, queue', parents', depth', added);
      if meet.Some? {
        return;
      }
    }
    EndSweep(s, root, queue, parents, depth, i, maxDepth, ball, queue', parents', depth', added);
  }

  lemma StartSweep(s: Space, root: NodeId, queue: Queue, parents: Parents, depth: map<NodeId, nat>, i: nat,
                   maxDepth: nat, ball: set<NodeId>)
    requires Level(s, root, parents, depth, queue, i, ball)
    ensures Sweep(s, root, queue, parents, depth, i, maxDepth, ball, 0, queue, parents, depth, [])
  {
    NextUnion(s, {}, root);
    assert NodesOf(queue[..0]) == {};
    assert queue[0..] + [] == queue;
  }

  lemma EndSweep(s: Space, root: NodeId, level: Queue, parents0: Parents, depth0: map<NodeId, nat>, i: nat,
                 maxDepth: nat,
                 ball: set<NodeId>, queue: Queue, parents: Parents, depth: map<NodeId, nat>, added: Queue)
    requires Level(s, root, parents0, depth0, level, i, ball)
    requires Sweep(s, root, level, parents0, depth0, i, maxDepth, ball, |level|, queue, parents, depth, added)
    ensures queue == added
    ensures i < maxDepth ==> Level(s, root, parents, depth, queue, i + 1, ball + Next(s, ball))
  {
    assert level[..|level|] == level && level[|level|..] + added == added;
    if i < maxDepth {
      FinishLevel(s, root, level, depth0, parents, depth, i, ball, added);
    }
  }

  method ExpandNodeKeeping(s: Space, root: NodeId, parents: Parents, ghost depth0: map<NodeId, nat>,
                           ghost depth: map<NodeId, nat>,
                           other: Parents, u: NodeId, i: nat, ghost ball: set<NodeId>, ghost found: set<NodeId>,
                           ghost added: Queue)
    returns (parents': Parents, ghost depth': map<NodeId, nat>, pushed: Queue, meet: Option<NodeId>)
    requires SpaceOk(s) && Partial(s, root, parents, depth, i, ball, found, added)
    requires Keeps(depth0, depth) && u in depth0 && depth0[u] == i && parents.Keys !! other.Keys
    ensures meet.None? ==> Partial(s, root, parents', depth', i, ball, found + Next(s, {u}), added + pushed)
    ensures meet.None? ==> parents'.Keys !! other.Keys
    ensures meet.Some? ==> Meeting(s, root, parents', depth', other, meet.value, i + 1)
    ensures meet == FirstKnown(Neighbors(s, u), other.Keys)
    ensures Keeps(depth0, depth')
  {
    parents', depth', pushed, meet := ExpandNode(s, root, parents, depth, other, u, i, ball, found, added);
  }

  // ---------------------------------------------------------------- path reconstruction

  /** The chain of parent links from a node up to the root, as listed by the loops of
      `reconstruct_path`. */
  ghost predicate Chain(s: Space, nodes: seq<NodeId>, edges: seq<EdgeId>) {
    |nodes| == |edges| + 1 && forall j | 0 <= j < |edges| :: Hop(s, nodes[j + 1], edges[j], nodes[j])
  }

  method ClimbToRoot(s: Space, root: NodeId, parents: Parents, ghost depth: map<NodeId, nat>, m: NodeId)
    returns (nodes: seq<NodeId>, edges: seq<EdgeId>)
    requires Tree(s, root, parents, depth) && m in parents
    ensures Chain(s, nodes, edges) && nodes[0] == m && nodes[|nodes| - 1] == root
    ensures |edges| == depth[m]
  {
    var cursor := m;
    nodes, edges := [m], [];
    while parents[cursor].previous.Some?
      invariant cursor in parents && Chain(s, nodes, edges) && nodes[0] == m && nodes[|nodes| - 1] == cursor
      invariant |edges| + depth[cursor] == depth[m]
      decreases depth[cursor]
    {
      assert Linked(s, parents, depth, cursor);
      var parent := parents[cursor];
      edges := edges + [parent.viaEdge.value];
      cursor := parent.previous.value;
      nodes := nodes + [cursor];
    }
  }

  function Reversed<T>(s: seq<T>): (r: seq<T>)
    ensures |r| == |s| && forall i | 0 <= i < |s| :: r[i] == s[|s| - 1 - i]
  {
    seq(|s|, i requires 0 <= i < |s| => s[|s| - 1 - i])
  }

  lemma JoinChains(s: Space, t: Space, ln: seq<NodeId>, le: seq<EdgeId>, rn: seq<NodeId>, re: seq<EdgeId>, j: nat)
    requires Opposite(s, t) && Chain(s, ln, le) && Chain(t, rn, re) && ln[0] == rn[0]
    requires j < |le| + |re|
    ensures var nodes, edges := Reversed(ln) + rn[1..], Reversed(le) + re;
            Joins(s, nodes[j], edges[j], nodes[j + 1]) && (0 < j ==> Admitted(s, nodes[j]))
  {
    if j < |le| {
      var k := |le| - 1 - j;
      assert Hop(s, ln[k + 1], le[k], ln[k]);
      assert k + 1 < |le| ==> Hop(s, ln[k + 2], le[k + 1], ln[k + 1]);
    } else {
      var k := j - |le|;
      assert Hop(t, rn[k + 1], re[k], rn[k]);
      JoinsOpposite(s, t, rn[k], re[k], rn[k + 1]);
    }
  }

  /** The one hop of two chains was found by the side that is not at its end. */
  lemma OneHopChains(s: Space, t: Space, ln: seq<NodeId>, le: seq<EdgeId>, rn: seq<NodeId>, re: seq<EdgeId>)
    requires Opposite(s, t) && Chain(s, ln, le) && Chain(t, rn, re) && ln[0] == rn[0]
    ensures |le| + |re| == 1 ==> Admitted(s, ln[|ln| - 1]) || Admitted(s, rn[|rn| - 1])
  {
    if |le| == 1 {
      assert Hop(s, ln[1], le[0], ln[0]);
    } else if |re| == 1 {
      assert Hop(t, rn[1], re[0], rn[0]);
    }
  }

  lemma JoinedPath(s: Space, t: Space, ln: seq<NodeId>, le: seq<EdgeId>, rn: seq<NodeId>, re: seq<EdgeId>,
                   p: GraphPath)
    requires Opposite(s, t) && Chain(s, ln, le) && Chain(t, rn, re) && ln[0] == rn[0]
    requires p == GraphPath(Reversed(ln) + rn[1..], Reversed(le) + re, |le| + |re|)
    ensures Findable(s, ln[|ln| - 1], rn[|rn| - 1], p)
  {
    forall j | 0 <= j < p.hopCount
      ensures Joins(s, p.nodeIds[j], p.edgeIds[j], p.nodeIds[j + 1]) && (0 < j ==> Admitted(s, p.nodeIds[j]))
    {
      JoinChains(s, t, ln, le, rn, re, j);
    }
    OneHopChains(s, t, ln, le, rn, re);
  }

  /** `reconstruct_path`. Its last check, that the chains end at source and target, never fails. */
  method ReconstructPath(s: Space, t: Space, source: NodeId, target: NodeId, m: NodeId,
                         fp: Parents, ghost fd: map<NodeId, nat>, bp: Parents, ghost bd: map<NodeId, nat>)
    returns (r: Option<GraphPath>)
    requires Opposite(s, t) && Tree(s, source, fp, fd) && Tree(t, target, bp, bd) && m in fp && m in bp
    ensures r.Some? && Findable(s, source, target, r.value) && r.value.hopCount == fd[m] + bd[m]
  {
    var ln, le := ClimbToRoot(s, source, fp, fd, m);
    var rn, re := ClimbToRoot(t, target, bp, bd, m);
    var p := GraphPath(Reversed(ln) + rn[1..], Reversed(le) + re, |le| + |re|);
    JoinedPath(s, t, ln, le, rn, re, p);
    r := if p.nodeIds[0] == source && p.nodeIds[|p.nodeIds| - 1] == target then Some(p) else None;
  }

  // ---------------------------------------------------------------- the search

  lemma EmptyQueueSaturates(s: Space, root: NodeId, parents: Parents, depth: map<NodeId, nat>, i: nat,
                            ball: set<NodeId>)
    requires Level(s, root, parents, depth, [], i, ball)
    ensures i > 0 && ball + Next(s, ball) == ball
  {
    forall w | w in Next(s, ball) ensures w in ball {
      var u, p :| u in ball && p in Neighbors(s, u) && p.1 == w;
      assert depth[u] != i;
      assert w in Next(s, {u});
    }
  }

  /** When one side has reached all it can, the two never meet. */
  lemma ExhaustedSide(s: Space, t: Space, a: NodeId, b: NodeId, i: nat, n: nat)
    requires Opposite(s, t) && SpaceOk(s) && SpaceOk(t) && a != b && 0 < i <= n
    requires Ball(s, a, i) !! Ball(t, b, i)
    requires || Ball(s, a, i) + Next(s, Ball(s, a, i)) == Ball(s, a, i)
             || Ball(t, b, i) + Next(t, Ball(t, b, i)) == Ball(t, b, i)
    ensures NoPathWithin(s, a, b, n)
  {
    if Ball(s, a, i) + Next(s, Ball(s, a, i)) == Ball(s, a, i) {
      BallSaturates(s, a, i, n, Ball(s, a, i));
      DisjointBallsBound(s, t, a, b, n, i);
    } else {
      BallSaturates(t, b, i, n, Ball(t, b, i));
      DisjointBallsBound(s, t, a, b, i, n);
    }
  }

  lemma SpentBound(s: Space, t: Space, a: NodeId, b: NodeId, n: nat)
    requires Opposite(s, t) && SpaceOk(s) && SpaceOk(t) && a != b && Ball(s, a, n) !! Ball(t, b, n)
    ensures NoPathWithin(s, a, b, 2 * n)
  {
    if n == 0 {
      NoEmptyPath(s, a, b);
    } else {
      DisjointBallsBound(s, t, a, b, n, n);
    }
  }

  /** Some turn of the search finds its time or its node budget used up. The clock runs out
      after `ticks` turns. */
  ghost predicate BudgetEnds(s: Space, t: Space, source: NodeId, target: NodeId, maxDepth: nat, limit: nat,
                             ticks: nat)
  {
    exists i: nat :: i <= maxDepth && BudgetEndsAt(s, t, source, target, i, limit, ticks)
  }

  ghost predicate BudgetEndsAt(s: Space, t: Space, source: NodeId, target: NodeId, i: nat, limit: nat, ticks: nat) {
    ticks <= i || |Ball(s, source, i)| + |Ball(t, target, i)| >= limit
  }

  lemma ForwardMeets(s: Space, t: Space, a: NodeId, b: NodeId, i: nat, fp: Parents, fd: map<NodeId, nat>, bp: Parents,
                     bd: map<NodeId, nat>, bq: Queue, m: NodeId, r: GraphPath)
    requires Opposite(s, t) && SpaceOk(s) && SpaceOk(t) && a != b && Ball(s, a, i) !! Ball(t, b, i)
    requires Meeting(s, a, fp, fd, bp, m, i + 1) && Level(t, b, bp, bd, bq, i, Ball(t, b, i))
    requires Findable(s, a, b, r) && r.hopCount == fd[m] + bd[m]
    ensures Met(s, t, a, b, r) && r.hopCount <= 2 * i + 1
  {
    if i == 0 {
      assert m in Ball(t, b, 0) && Linked(s, fp, fd, m);
    }
    assert MetAfter(s, t, a, b, r, i, i);
  }

  lemma BackwardMeets(s: Space, t: Space, a: NodeId, b: NodeId, i: nat, fp: Parents, fd: map<NodeId, nat>, fq: Queue,
                      bp: Parents, bd: map<NodeId, nat>, m: NodeId, r: GraphPath)
    requires Opposite(s, t) && SpaceOk(s) && SpaceOk(t) && a != b && Ball(s, a, i + 1) !! Ball(t, b, i)
    requires Meeting(t, b, bp, bd, fp, m, i + 1) && Level(s, a, fp, fd, fq, i + 1, Ball(s, a, i + 1))
    requires i == 0 ==> FirstKnown(Neighbors(t, b), Ball(s, a, 1)) == Some(m)
    requires Findable(s, a, b, r) && r.hopCount == fd[m] + bd[m]
    ensures Met(s, t, a, b, r) && r.hopCount <= 2 * i + 2
  {
    assert fd[m] == 0 <==> m == a by {
      assert m != a ==> Linked(s, fp, fd, m);
    }
    assert MetAfter(s, t, a, b, r, i + 1, i);
  }

  /** Both sides have completed level `i` without meeting. */
  ghost predicate Apart(s: Space, t: Space, a: NodeId, b: NodeId, fq: Queue, fp: Parents, fd: map<NodeId, nat>,
                        bq: Queue, bp: Parents, bd: map<NodeId, nat>, i: nat)
  {
    && Level(s, a, fp, fd, fq, i, Ball(s, a, i)) && Level(t, b, bp, bd, bq, i, Ball(t, b, i))
    && Ball(s, a, i) !! Ball(t, b, i) && (i == 0 ==> bq == [Item(b, 0)])
  }

  ghost predicate Searching(s: Space, t: Space, a: NodeId, b: NodeId, fq: Queue, fp: Parents, bq: Queue, bp: Parents,
                            i: nat)
  {
    exists fd, bd, level: nat :: level == i && Apart(s, t, a, b, fq, fp, fd, bq, bp, bd, level)
  }

  lemma MakeSearching(s: Space, t: Space, a: NodeId, b: NodeId, fq: Queue, fp: Parents, fd: map<NodeId, nat>,
                      bq: Queue, bp: Parents, bd: map<NodeId, nat>, i: nat)
    requires Apart(s, t, a, b, fq, fp, fd, bq, bp, bd, i)
    ensures Searching(s, t, a, b, fq, fp, bq, bp, i)
  {
  }

  lemma NextApart(s: Space, t: Space, a: NodeId, b: NodeId, fq: Queue, fp: Parents, fd: map<NodeId, nat>,
                  bq: Queue, bp: Parents, bd: map<NodeId, nat>, i: nat, fb: set<NodeId>, bb: set<NodeId>)
    requires fb == Ball(s, a, i + 1) && bb == Ball(t, b, i + 1) && fp.Keys !! bp.Keys
    requires Level(s, a, fp, fd, fq, i + 1, fb) && Level(t, b, bp, bd, bq, i + 1, bb)
    ensures Searching(s, t, a, b, fq, fp, bq, bp, i + 1)
  {
    MakeSearching(s, t, a, b, fq, fp, fd, bq, bp, bd, i + 1);
  }

  lemma NextBall(s: Space, root: NodeId, i: nat)
    ensures Ball(s, root, i) + Next(s, Ball(s, root, i)) == Ball(s, root, i + 1)
  {
  }

  /** One turn of the search: a level on the side of the source, then one on the other side. */
  method Turn(s: Space, t: Space, source: NodeId, target: NodeId, fq: Queue, fp: Parents,
              bq: Queue, bp: Parents, maxDepth: nat, ghost i: nat)
    returns (fq': Queue, fp': Parents, bq': Queue, bp': Parents, r: Option<GraphPath>)
    requires Opposite(s, t) && SpaceOk(s) && SpaceOk(t) && source != target && i <= maxDepth
    requires Searching(s, t, source, target, fq, fp, bq, bp, i)
    ensures r.Some? ==> Met(s, t, source, target, r.value) && r.value.hopCount <= 2 * maxDepth
    ensures r.None? && i < maxDepth ==> Searching(s, t, source, target, fq', fp', bq', bp', i + 1)
    ensures r.None? && i == maxDepth ==> fq' == [] && NoPathWithin(s, source, target, 2 * maxDepth)
  {
    ghost var fd, bd :| Apart(s, t, source, target, fq, fp, fd, bq, bp, bd, i);
    ghost var fd', bd';
    var meet;
    bq', bp' := bq, bp;
    fq', fp', fd', meet := ExpandFrontier(s, source, fq, fp, fd, bp, maxDepth, i, Ball(s, source, i));
    if meet.Some? {
      r := ReconstructPath(s, t, source, target, meet.value, fp', fd', bp, bd);
      ForwardMeets(s, t, source, target, i, fp', fd', bp, bd, bq, meet.value, r.value);
      return;
    }
    bq', bp', bd', meet := ExpandFrontier(t, target, bq, bp, bd, fp', maxDepth, i, Ball(t, target, i));
    r := None;
    if meet.Some? {
      r := ReconstructPath(s, t, source, target, meet.value, fp', fd', bp', bd');
      BackwardMeets(s, t, source, target, i, fp', fd', fq', bp', bd', meet.value, r.value);
    } else if i == maxDepth {
      SpentBound(s, t, source, target, maxDepth);
    } else {
      NextBall(s, source, i);
      NextBall(t, target, i);
      NextApart(s, t, source, target, fq', fp', fd', bq', bp', bd', i, Ball(s, source, i + 1), Ball(t, target, i + 1));
    }
  }

  lemma AnswerSelf(s: Space, t: Space, a: NodeId)
    ensures Answer(s, t, a, a, GraphPath([a], [], 0))
  {
  }

  lemma StartSearching(s: Space, t: Space, a: NodeId, b: NodeId)
    requires a != b
    ensures Searching(s, t, a, b, [Item(a, 0)], map[a := Parent(None, None)],
                      [Item(b, 0)], map[b := Parent(None, None)], 0)
  {
    StartLevel(s, a);
    StartLevel(t, b);
    MakeSearching(s, t, a, b, [Item(a, 0)], map[a := Parent(None, None)], map[a := 0],
                  [Item(b, 0)], map[b := Parent(None, None)], map[b := 0], 0);
  }

  lemma BudgetSpent(s: Space, t: Space, a: NodeId, b: NodeId, fq: Queue, fp: Parents,
                    bq: Queue, bp: Parents, i: nat, maxDepth: nat, limit: nat, ticks: nat)
    requires Searching(s, t, a, b, fq, fp, bq, bp, i) && i <= maxDepth
    requires ticks <= i || |fp| + |bp| >= limit
    ensures BudgetEnds(s, t, a, b, maxDepth, limit, ticks)
  {
    var fd, bd :| Apart(s, t, a, b, fq, fp, fd, bq, bp, bd, i);
    assert |fp| == |fp.Keys| && |bp| == |bp.Keys|;
    assert BudgetEndsAt(s, t, a, b, i, limit, ticks);
  }

  /** The turns of the search, until it meets, has nothing left to expand, or is cut off. */
  method Search(s: Space, t: Space, source: NodeId, target: NodeId, maxDepth: nat, limit: nat, ticks: nat)
    returns (r: Option<GraphPath>, cutOff: bool)
    requires Opposite(s, t) && SpaceOk(s) && SpaceOk(t) && source != target
    ensures r.Some? ==> Met(s, t, source, target, r.value) && r.value.hopCount <= 2 * maxDepth
    ensures r.None? && !cutOff ==> NoPathWithin(s, source, target, 2 * maxDepth)
    ensures cutOff ==> r.None? && BudgetEnds(s, t, source, target, maxDepth, limit, ticks)
  {
    r, cutOff := None, false;
    var fq, bq: Queue := [Item(source, 0)], [Item(target, 0)];
    var fp, bp: Parents := map[source := Parent(None, None)], map[target := Parent(None, None)];
    ghost var i, spent: bool := 0, false;
    var turn := 0;
    StartSearching(s, t, source, target);
    while fq != [] && bq != []
      invariant i <= maxDepth && (!spent ==> turn == i) && r.None?
      invariant !spent ==> Searching(s, t, source, target, fq, fp, bq, bp, i)
      invariant spent ==> fq == [] && NoPathWithin(s, source, target, 2 * maxDepth)
      decreases maxDepth - i, !spent
    {
      if turn >= ticks || |fp| + |bp| >= limit {
        BudgetSpent(s, t, source, target, fq, fp, bq, bp, i, maxDepth, limit, ticks);
        return None, true;
      }
      turn := turn + 1;
      fq, fp, bq, bp, r := Turn(s, t, source, target, fq, fp, bq, bp, maxDepth, i);
      if r.Some? {
        return;
      }
      if i < maxDepth {
        i := i + 1;
      } else {
        spent := true;
      }
    }
    if !spent {
      OneSideEmpty(s, t, source, target, fq, fp, bq, bp, i, maxDepth);
    }
  }

  /** `shortest_path` over the two opposite expansions of a view. `cutOff` tells whether the time
      or node budget ended it. */
  method FindShortestPath(s: Space, t: Space, source: NodeId, target: NodeId, maxDepth: nat, limit: nat, ticks: nat)
    returns (r: Option<GraphPath>, cutOff: bool)
    requires Opposite(s, t) && SpaceOk(s) && SpaceOk(t)
    ensures source !in s.view.nodes || target !in s.view.nodes ==> r.None?
    ensures r.Some? ==> Answer(s, t, source, target, r.value) && r.value.hopCount <= 2 * maxDepth
    ensures r.None? && !cutOff && source in s.view.nodes && target in s.view.nodes ==>
              NoPathWithin(s, source, target, 2 * maxDepth)
    ensures cutOff ==> r.None? && BudgetEnds(s, t, source, target, maxDepth, limit, ticks)
  {
    if source !in s.view.nodes || target !in s.view.nodes {
      return None, false;
    }
    if source == target {
      AnswerSelf(s, t, source);
      return Some(GraphPath([source], [], 0)), false;
    }
    r, cutOff := Search(s, t, source, target, maxDepth, limit, ticks);
    if r.Some? {
      MetIsAnswer(s, t, source, target, r.value);
    }
  }

  lemma OneSideEmpty(s: Space, t: Space, a: NodeId, b: NodeId, fq: Queue, fp: Parents,
                     bq: Queue, bp: Parents, i: nat, maxDepth: nat)
    requires Opposite(s, t) && SpaceOk(s) && SpaceOk(t) && a != b && i <= maxDepth
    requires Searching(s, t, a, b, fq, fp, bq, bp, i) && (fq == [] || bq == [])
    ensures NoPathWithin(s, a, b, 2 * maxDepth)
  {
    var fd, bd :| Apart(s, t, a, b, fq, fp, fd, bq, bp, bd, i);
    if fq == [] {
      EmptyQueueSaturates(s, a, fp, fd, i, Ball(s, a, i));
    } else {
      EmptyQueueSaturates(t, b, bp, bd, i, Ball(t, b, i));
    }
    ExhaustedSide(s, t, a, b, i, 2 * maxDepth);
  }

  /** `shortest_path` on a consistent view. */
  method ShortestPath(v: GraphView, c: Constraints, d: Direction, source: NodeId, target: NodeId, maxDepth: nat,
                      limit: nat, ticks: nat)
    returns (r: Option<GraphPath>, cutOff: bool)
    requires ViewOk(v)
    ensures source !in v.nodes || target !in v.nodes ==> r.None?
    ensures r.Some? ==>
              var s, t := SpaceOf(v, c, d), SpaceOf(v, c, Reverse(d));
              && Findable(s, source, target, r.value) && r.value.hopCount <= 2 * maxDepth
              && (Minimal(s, source, target, r.value.hopCount) <==> !PassedBy(s, t, source, target))
              && (PassedBy(s, t, source, target) ==> r.value.hopCount == 2)
    ensures r.Some? ==> PathOfRecords(v, c, d, source, target, r.value)
    ensures r.None? && !cutOff && source in v.nodes && target in v.nodes ==>
              NoPathWithin(SpaceOf(v, c, d), source, target, 2 * maxDepth)
    ensures r.Some? && r.value.hopCount > 0 ==> NoWalkWithin(SpaceOf(v, c, d), source, target, r.value.hopCount - 1)
    ensures r.None? && !cutOff && source in v.nodes && target in v.nodes ==>
              NoWalkWithin(SpaceOf(v, c, d), source, target, 2 * maxDepth)
    ensures cutOff ==>
              r.None? && BudgetEnds(SpaceOf(v, c, d), SpaceOf(v, c, Reverse(d)), source, target, maxDepth, limit, ticks)
  {
    SpaceOfOk(v, c, d);
    SpaceOfOk(v, c, Reverse(d));
    var s, t := SpaceOf(v, c, d), SpaceOf(v, c, Reverse(d));
    r, cutOff := FindShortestPath(s, t, source, target, maxDepth, limit, ticks);
    if r.Some? {
      PathIs(v, c, d, source, target, r.value);
      if r.value.hopCount > 0 {
        AnswerIsShortWalk(s, t, source, target, r.value);
      }
    } else if !cutOff && source in v.nodes && target in v.nodes {
      NoPathNoWalk(s, source, target, 2 * maxDepth);
    }
  }
}
