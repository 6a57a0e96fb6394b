/** Runs of log shipping in which a compaction of the leader costs the follower a commit. */
module LostShipments {
  import opened Core
  import opened Log
  import opened Samples
  import opened Replication

  lemma {:induction false} RunConcat(start: Graph, w: Pair, a: seq<Event>, b: seq<Event>)
    ensures Run(w, a + b) == Run(Run(w, a), b)
    ensures Legal(start, w, a + b) <==> Legal(start, w, a) && Legal(start, Run(w, a), b)
    decreases |a|
  {
    if a == [] {
      assert a + b == b;
    } else {
      assert (a + b)[1..] == a[1..] + b;
      RunConcat(start, After(w, a[0]), a[1..], b);
    }
  }

  lemma RunOne(start: Graph, w: Pair, e: Event)
    ensures Run(w, [e]) == After(w, e) && (Legal(start, w, [e]) <==> Happens(start, w, e))
  {
    assert [e][1..] == [];
  }

  lemma RunTwo(start: Graph, w: Pair, e: Event, e': Event)
    ensures Run(w, [e, e']) == After(After(w, e), e')
    ensures Legal(start, w, [e, e']) <==> Happens(start, w, e) && Happens(start, After(w, e), e')
  {
    assert [e, e'] == [e] + [e'];
    RunConcat(start, w, [e], [e']);
    RunOne(start, w, e);
    RunOne(start, After(w, e), e');
  }

  // ---------------------------------------------------------------- one commit shipped, then a restart

  const NEW_PAIR := Pair("l", 1, [], 1, State(EMPTY_GRAPH, 0, 0))

  const ONLY_A := Graph(map["a" := Plain("a", "t")], map[])

  const UNTIL_RESTART := [Commit(NODE_A), Delivery(1, 0)] + [Restart]

  function Restarted(): Pair {
    Pair("l", 1, [Record("l", 1, 1, NODE_A)], 1, State(ONLY_A, 1, 1))
  }

  lemma NewPairKeepsUp(start: Graph, w: Pair)
    requires w.history == [] && w.follower == State(start, 0, 0)
    ensures KeepsUp(start, w) && Frontier(w) == 0 && LeaderGraph(start, w) == start
  {
    assert Split([], 0, 0);
  }

  lemma FirstShipped(start: Graph, w: Pair, b: WriteBatch)
    requires w.history == [] && w.follower == State(start, 0, 0) && w.nextLsn == 1 && w.term > 0
    requires Accepted(start, b)
    ensures Happens(start, w, Commit(b)) && Happens(start, After(w, Commit(b)), Delivery(1, 0))
    ensures After(After(w, Commit(b)), Delivery(1, 0)) ==
            Pair(w.leader, w.term, [NextRecord(w, b)], 2, State(Apply(start, b), w.term, 1))
  {
    NewPairKeepsUp(start, w);
    var r := NextRecord(w, b);
    assert [] + [r] == [r] && [r][..1] == [r];
    FirstTaken(start, r);
  }

  lemma FirstTaken(start: Graph, r: Record)
    requires r.sourceLsn == 1 && r.sourceTerm > 0 && Accepted(start, r.batch)
    ensures Since([r], 0) == [r]
    ensures Deliver(State(start, 0, 0), [r]) == (State(Apply(start, r.batch), r.sourceTerm, 1), true)
  {
    SinceAll([r], 0);
    TakesNew(0, 0, [r], [], r.sourceTerm);
    assert [r] + [] == [r];
    ApplyOne(start, r);
  }

  lemma ApplyOne(g: Graph, r: Record)
    ensures ApplyAll(g, [r]) == if Accepted(g, r.batch) then (Apply(g, r.batch), true) else (g, false)
  {
    assert [r][1..] == [];
  }

  lemma RestartedByRun(w: Pair, events: seq<Event>)
    requires w == NEW_PAIR && events == UNTIL_RESTART
    ensures Run(w, events) == Restarted() && Legal(EMPTY_GRAPH, w, events)
  {
    PlainAccepted(EMPTY_GRAPH, "a", "t");
    PlainApplied(EMPTY_GRAPH, "a", "t");
    FirstShipped(EMPTY_GRAPH, w, NODE_A);
    RunConcat(EMPTY_GRAPH, w, [Commit(NODE_A), Delivery(1, 0)], [Restart]);
    RunTwo(EMPTY_GRAPH, w, Commit(NODE_A), Delivery(1, 0));
    RunOne(EMPTY_GRAPH, Pair(w.leader, w.term, [NextRecord(w, NODE_A)], 2, State(ONLY_A, 1, 1)), Restart);
  }

  lemma RestartedInStep()
    ensures LeaderGraph(EMPTY_GRAPH, Restarted()) == ONLY_A
  {
    PlainApplied(EMPTY_GRAPH, "a", "t");
    var log := Batches(Restarted().history);
    assert log == [NODE_A] && log[..0] == [];
  }

  // ---------------------------------------------------------------- two commits after the restart

  /** The leader after two more commits. */
  function TwoCommits(w: Pair, b: WriteBatch, c: WriteBatch): Pair {
    After(After(w, Commit(b)), Commit(c))
  }

  lemma LowThenHigh(w: Pair, b: WriteBatch, c: WriteBatch)
    requires w == Restarted()
    ensures TwoCommits(w, b, c).history == w.history + [Record("l", 1, 1, b)] + [Record("l", 1, 2, c)]
    ensures Since(TwoCommits(w, b, c).history, 1) == [Record("l", 1, 2, c)]
  {
    SinceSplits(w.history + [Record("l", 1, 1, b)], [Record("l", 1, 2, c)], 1);
  }

  lemma TwoCommitsNumbers(w: Pair, b: WriteBatch, c: WriteBatch)
    requires w == Restarted()
    ensures AllAtMost(TwoCommits(w, b, c).history, 2) && OfTerm(TwoCommits(w, b, c).history, 1)
  {
  }

  lemma HighTaken(g: Graph, r: Record)
    requires r.sourceTerm == 1 && r.sourceLsn == 2
    ensures Deliver(State(g, 1, 1), [r]) ==
            if Accepted(g, r.batch) then (State(Apply(g, r.batch), 1, 2), true) else (State(g, 1, 1), false)
  {
    TakesNew(1, 1, [r], [], 1);
    assert [r] + [] == [r];
    ApplyOne(g, r);
  }

  lemma LeaderHas(start: Graph, w: Pair, b: WriteBatch, c: WriteBatch)
    ensures LeaderGraph(start, After(w, Commit(b))) == Apply(LeaderGraph(start, w), b)
    ensures LeaderGraph(start, TwoCommits(w, b, c)) == Apply(Apply(LeaderGraph(start, w), b), c)
  {
    var w1 := After(w, Commit(b));
    BatchesSnoc(w.history, NextRecord(w, b));
    BatchesSnoc(w1.history, NextRecord(w1, c));
    AcceptedNext(start, Batches(w.history), b);
    AcceptedNext(start, Batches(w1.history), c);
  }

  lemma RunGoesOn(w: Pair, b: WriteBatch, c: WriteBatch)
    requires w == Restarted() && Accepted(ONLY_A, b) && Accepted(Apply(ONLY_A, b), c)
    ensures var events := UNTIL_RESTART + ([Commit(b), Commit(c)] + [Delivery(3, 1)]);
            && Legal(EMPTY_GRAPH, NEW_PAIR, events)
            && Run(NEW_PAIR, events) == After(TwoCommits(w, b, c), Delivery(3, 1))
  {
    RestartedInStep();
    LeaderHas(EMPTY_GRAPH, w, b, c);
    RestartedByRun(NEW_PAIR, UNTIL_RESTART);
    RunConcat(EMPTY_GRAPH, NEW_PAIR, UNTIL_RESTART, [Commit(b), Commit(c)] + [Delivery(3, 1)]);
    RunConcat(EMPTY_GRAPH, w, [Commit(b), Commit(c)], [Delivery(3, 1)]);
    RunTwo(EMPTY_GRAPH, w, Commit(b), Commit(c));
    RunOne(EMPTY_GRAPH, TwoCommits(w, b, c), Delivery(3, 1));
  }

  lemma FullDelivery(w: Pair, f: State, ok: bool)
    requires Deliver(w.follower, Since(w.history, w.follower.applied)) == (f, ok)
    ensures After(w, Delivery(|w.history|, w.follower.applied)) == w.(follower := f)
  {
    WholeIsPast(w);
  }

  /** A follower that has the highest number changes no more, whatever it is sent. */
  lemma NothingLeft(w: Pair, n: nat, k: nat)
    requires AllAtMost(w.history, w.follower.applied) && OfTerm(w.history, w.term)
    requires w.follower.term <= w.term && n <= |w.history|
    ensures Deliver(w.follower, PastAnswer(w.history, n, k)) == (w.follower, true)
  {
    var answer := PastAnswer(w.history, n, k);
    SinceSubset(w.history[..n], k);
    forall r | r in answer ensures r.sourceLsn <= w.follower.applied && r.sourceTerm == w.term {
      assert r in w.history;
    }
    SkipsOld(w.follower.term, w.follower.applied, answer, []);
    assert answer + [] == answer;
  }

  lemma NothingEver(w: Pair)
    requires AllAtMost(w.history, w.follower.applied) && OfTerm(w.history, w.term) && w.follower.term <= w.term
    ensures forall n: nat, k: nat | n <= |w.history| ::
              Deliver(w.follower, PastAnswer(w.history, n, k)) == (w.follower, true)
  {
    forall n: nat, k: nat | n <= |w.history|
      ensures Deliver(w.follower, PastAnswer(w.history, n, k)) == (w.follower, true)
    {
      NothingLeft(w, n, k);
    }
  }

  /** Commit "a" and ship it, compact, commit "b" (number 1 again) and "c" (number 2), ship all
      there is: the follower takes it without error, has "c", and never gets "b". */
  lemma RestartLosesCommit(events: seq<Event>) returns (w: Pair)
    requires events == UNTIL_RESTART + ([Commit(NODE_B), Commit(NODE_C)] + [Delivery(3, 1)])
    ensures Legal(EMPTY_GRAPH, NEW_PAIR, events) && w == Run(NEW_PAIR, events)
    ensures "b" in LeaderGraph(EMPTY_GRAPH, w).nodes
    ensures "b" !in w.follower.live.nodes && "c" in w.follower.live.nodes
    ensures forall n: nat, k: nat | n <= |w.history| ::
              Deliver(w.follower, PastAnswer(w.history, n, k)) == (w.follower, true)
  {
    var r := Restarted();
    PlainAccepted(ONLY_A, "b", "t");
    PlainApplied(ONLY_A, "b", "t");
    PlainAccepted(Apply(ONLY_A, NODE_B), "c", "t");
    PlainApplied(Apply(ONLY_A, NODE_B), "c", "t");
    RunGoesOn(r, NODE_B, NODE_C);
    w := LosesB(r);
    LeaderHas(EMPTY_GRAPH, r, NODE_B, NODE_C);
    LeaderSame(EMPTY_GRAPH, w, TwoCommits(r, NODE_B, NODE_C));
    RestartedInStep();
    NothingEver(w);
  }

  lemma LeaderSame(start: Graph, w: Pair, v: Pair)
    requires w.history == v.history
    ensures LeaderGraph(start, w) == LeaderGraph(start, v)
  {
  }

  lemma LosesB(r: Pair) returns (w: Pair)
    requires r == Restarted()
    ensures w == After(TwoCommits(r, NODE_B, NODE_C), Delivery(3, 1))
    ensures w == TwoCommits(r, NODE_B, NODE_C).(follower := w.follower)
    ensures "b" !in w.follower.live.nodes && "c" in w.follower.live.nodes
    ensures w.follower.applied == 2 && w.follower.term == w.term
    ensures AllAtMost(w.history, 2) && OfTerm(w.history, w.term)
  {
    LowThenHigh(r, NODE_B, NODE_C);
    HighTaken(ONLY_A, Record("l", 1, 2, NODE_C));
    TwoCommitsNumbers(r, NODE_B, NODE_C);
    PlainAccepted(ONLY_A, "c", "t");
    PlainApplied(ONLY_A, "c", "t");
    assert "c"[0] != "b"[0] && "a"[0] != "b"[0];
    FullDelivery(TwoCommits(r, NODE_B, NODE_C), State(Apply(ONLY_A, NODE_C), 1, 2), true);
    w := TwoCommits(r, NODE_B, NODE_C).(follower := State(Apply(ONLY_A, NODE_C), 1, 2));
  }

  /** The same with an edge from "a" to "b" instead of "c": the follower's engine rejects the
      edge, its position does not move, and every later full answer fails in the same way. */
  lemma RestartBlocksShipping(events: seq<Event>) returns (w: Pair)
    requires events == UNTIL_RESTART + ([Commit(NODE_B), Commit(EDGE_AB)] + [Delivery(3, 1)])
    ensures Legal(EMPTY_GRAPH, NEW_PAIR, events) && w == Run(NEW_PAIR, events)
    ensures "e" in LeaderGraph(EMPTY_GRAPH, w).edges && w.follower.live == ONLY_A
    ensures Deliver(w.follower, Since(w.history, w.follower.applied)) == (w.follower, false)
  {
    var r := Restarted();
    Different();
    PlainAccepted(ONLY_A, "b", "t");
    PlainApplied(ONLY_A, "b", "t");
    EdgeNeedsB(Apply(ONLY_A, NODE_B));
    EdgeNeedsB(ONLY_A);
    RunGoesOn(r, NODE_B, EDGE_AB);
    LowThenHigh(r, NODE_B, EDGE_AB);
    HighTaken(ONLY_A, Record("l", 1, 2, EDGE_AB));
    FullDelivery(TwoCommits(r, NODE_B, EDGE_AB), r.follower, false);
    w := After(TwoCommits(r, NODE_B, EDGE_AB), Delivery(3, 1));
    LeaderHas(EMPTY_GRAPH, r, NODE_B, EDGE_AB);
    RestartedInStep();
    EdgeStored(Apply(ONLY_A, NODE_B));
  }

  lemma EdgeStored(g: Graph)
    ensures "e" in Apply(g, EDGE_AB).edges
  {
    EdgesByIdSpec(EDGE_AB.edgesUpserted);
    assert EDGE_AB.edgesUpserted[0] in EDGE_AB.edgesUpserted;
    EdgesAfterAt(g.edges, EDGE_AB, "e");
  }
}
