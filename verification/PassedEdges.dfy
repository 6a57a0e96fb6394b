/** A target that the label constraint does not admit, with a direct edge and a way around. */
module PassedEdges {
  import opened Core
  import opened Reach
  import opened Paths
  import opened ShortestPath

  const AB := EdgeRecord("ab", "a", "b", "e", map[])
  const AX := EdgeRecord("ax", "a", "x", "e", map[])
  const XB := EdgeRecord("xb", "x", "b", "e", map[])

  const ONLY_T := Constraints([], ["t"])

  /** The edges into the target, in the order in which the view lists them. */
  function IntoTarget(aroundFirst: bool): seq<EdgeId> {
    if aroundFirst then ["xb", "ab"] else ["ab", "xb"]
  }

  /** "a" and "x" have the admitted type "t", "b" has not; edges a -> b, a -> x and x -> b. */
  function Fork(aroundFirst: bool): GraphView {
    GraphView(
      map["a" := Plain("a", "t"), "x" := Plain("x", "t"), "b" := Plain("b", "u")],
      map["ab" := AB, "ax" := AX, "xb" := XB],
      map["a" := ["ab", "ax"], "x" := ["xb"]],
      map["x" := ["ax"], "b" := IntoTarget(aroundFirst)],
      map["a" := ["ab", "ax"], "x" := ["ax", "xb"], "b" := IntoTarget(aroundFirst)])
  }

  lemma Distinct()
    ensures "a" != "b" && "a" != "x" && "x" != "b" && "t" != "u"
    ensures "ab" != "ax" && "ab" != "xb" && "ax" != "xb"
  {
    assert "a"[0] != "b"[0] && "a"[0] != "x"[0] && "x"[0] != "b"[0] && "t"[0] != "u"[0];
    assert "ab"[1] != "ax"[1] && "ab"[0] != "xb"[0] && "ax"[0] != "xb"[0];
  }

  lemma ForkListsEdges(aroundFirst: bool, n: NodeId, d: Direction, k: EdgeId)
    ensures var v := Fork(aroundFirst);
            k in IncidentIds(v, n, d) <==> k in v.edges && Matches(v.edges[k], n, d)
  {
    Distinct();
    match d
    case Outgoing =>
    case Incoming =>
    case Both =>
  }

  lemma ForkOk(aroundFirst: bool)
    ensures ViewOk(Fork(aroundFirst))
  {
    var v := Fork(aroundFirst);
    Distinct();
    forall n, d, k ensures k in IncidentIds(v, n, d) <==> k in v.edges && Matches(v.edges[k], n, d) {
      ForkListsEdges(aroundFirst, n, d, k);
    }
  }

  lemma ForkBall(s: Space, aroundFirst: bool)
    requires s == SpaceOf(Fork(aroundFirst), ONLY_T, Outgoing)
    ensures "x" in Ball(s, "a", 1) && "a" in Ball(s, "a", 1) && !Admitted(s, "b") && Admitted(s, "a")
  {
    Distinct();
    ForkOk(aroundFirst);
    SpaceOfOk(Fork(aroundFirst), ONLY_T, Outgoing);
    assert Hop(s, "a", "ax", "x");
    NextHas(s, Ball(s, "a", 0), "a", "ax", "x");
  }

  lemma ForkInto(t: Space, aroundFirst: bool)
    requires t == SpaceOf(Fork(aroundFirst), ONLY_T, Incoming)
    ensures Neighbors(t, "b") == if aroundFirst then [("xb", "x"), ("ab", "a")] else [("ab", "a"), ("xb", "x")]
  {
    Distinct();
    if aroundFirst {
      ExpandTwo(Fork(true), ONLY_T, "b", "xb", "ab");
    } else {
      ExpandTwo(Fork(false), ONLY_T, "b", "ab", "xb");
    }
  }

  lemma ExpandTwo(v: GraphView, c: Constraints, u: NodeId, k: EdgeId, l: EdgeId)
    requires k in v.edges && v.edges[k].id == k && l in v.edges && v.edges[l].id == l
    requires TypeAllowed(c, v.edges[k]) && LabelAllowed(v, c, v.edges[k].source)
    requires TypeAllowed(c, v.edges[l]) && LabelAllowed(v, c, v.edges[l].source)
    ensures ExpandAmong(v, c, Incoming, u, [k, l]) == [(k, v.edges[k].source), (l, v.edges[l].source)]
  {
    assert [k, l][1..] == [l];
    assert ExpandAmong(v, c, Incoming, u, [l]) == [(l, v.edges[l].source)];
  }

  lemma ForkPassedIff(s: Space, t: Space, aroundFirst: bool)
    requires s == SpaceOf(Fork(aroundFirst), ONLY_T, Outgoing) && t == SpaceOf(Fork(aroundFirst), ONLY_T, Incoming)
    ensures PassedBy(s, t, "a", "b") <==> aroundFirst
  {
    Distinct();
    ForkBall(s, aroundFirst);
    ForkInto(t, aroundFirst);
    assert ("ab", "a") in Neighbors(t, "b");
    var ns, known := Neighbors(t, "b"), Ball(s, "a", 1);
    FirstKnownAt(ns, known, 0);
  }

  /** The direct edge, as a path that can be found. */
  lemma ForkDirect(s: Space, aroundFirst: bool)
    requires s == SpaceOf(Fork(aroundFirst), ONLY_T, Outgoing)
    ensures Findable(s, "a", "b", GraphPath(["a", "b"], ["ab"], 1))
  {
    ForkBall(s, aroundFirst);
  }

  lemma {:induction false} BallIsSmall(s: Space, root: NodeId, k: nat)
    requires SpaceOk(s)
    ensures Ball(s, root, k) <= s.view.nodes.Keys + {root}
  {
    if k > 0 {
      BallIsSmall(s, root, k - 1);
      forall w | w in Next(s, Ball(s, root, k - 1)) ensures w in s.view.nodes {
        var u, e := HopInto(s, Ball(s, root, k - 1), w);
      }
    }
  }

  lemma ForkBudget(s: Space, t: Space, aroundFirst: bool, limit: nat, ticks: nat)
    requires s == SpaceOf(Fork(aroundFirst), ONLY_T, Outgoing) && t == SpaceOf(Fork(aroundFirst), ONLY_T, Incoming)
    requires limit > 6 && ticks > 1
    ensures !BudgetEnds(s, t, "a", "b", 1, limit, ticks)
  {
    ForkOk(aroundFirst);
    SpaceOfOk(Fork(aroundFirst), ONLY_T, Outgoing);
    SpaceOfOk(Fork(aroundFirst), ONLY_T, Incoming);
    forall i: nat | i <= 1 ensures !BudgetEndsAt(s, t, "a", "b", i, limit, ticks) {
      BallIsSmall(s, "a", i);
      BallIsSmall(t, "b", i);
      SubsetCount(Ball(s, "a", i), {"a", "x", "b"});
      SubsetCount(Ball(t, "b", i), {"a", "x", "b"});
    }
  }

  lemma ForkAnswer(s: Space, t: Space, aroundFirst: bool, r: GraphPath)
    requires s == SpaceOf(Fork(aroundFirst), ONLY_T, Outgoing) && t == SpaceOf(Fork(aroundFirst), ONLY_T, Incoming)
    requires Answer(s, t, "a", "b", r)
    ensures r.hopCount == if aroundFirst then 2 else 1
  {
    Distinct();
    ForkPassedIff(s, t, aroundFirst);
    ForkDirect(s, aroundFirst);
    NoEmptyPath(s, "a", "b");
  }

  lemma ForkIsAnswered(s: Space, aroundFirst: bool)
    requires s == SpaceOf(Fork(aroundFirst), ONLY_T, Outgoing)
    ensures !NoPathWithin(s, "a", "b", 2)
  {
    ForkDirect(s, aroundFirst);
    assert !(GraphPath(["a", "b"], ["ab"], 1).hopCount > 2);
  }

  /** One graph, one question: two hops or one, by the order in which the target lists its edges. */
  method DirectEdgeIsPassedBy(aroundFirst: bool, limit: nat, ticks: nat) returns (r: Option<GraphPath>, cutOff: bool)
    requires limit > 6 && ticks > 1
    ensures ViewOk(Fork(aroundFirst))
    ensures Findable(SpaceOf(Fork(aroundFirst), ONLY_T, Outgoing), "a", "b", GraphPath(["a", "b"], ["ab"], 1))
    ensures !cutOff && r.Some? && r.value.hopCount == if aroundFirst then 2 else 1
  {
    ghost var s := SpaceOf(Fork(aroundFirst), ONLY_T, Outgoing);
    ghost var t := SpaceOf(Fork(aroundFirst), ONLY_T, Incoming);
    ForkOk(aroundFirst);
    ForkDirect(s, aroundFirst);
    ForkIsAnswered(s, aroundFirst);
    ForkBudget(s, t, aroundFirst, limit, ticks);
    r, cutOff := ShortestPath.ShortestPath(Fork(aroundFirst), ONLY_T, Outgoing, "a", "b", 1, limit, ticks);
    ForkAnswer(s, t, aroundFirst, r.value);
  }
}
