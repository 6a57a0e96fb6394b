/** Log shipping from a leader to a follower (crates/replication, crates/api). */
module Replication {
  import opened Core
  import opened Log

  datatype Record = Record(sourceNode: string, sourceTerm: nat, sourceLsn: nat, batch: WriteBatch)

  datatype Mode = Disabled | Leader | Follower

  function Batches(h: seq<Record>): seq<WriteBatch> {
    seq(|h|, i requires 0 <= i < |h| => h[i].batch)
  }

  // ---------------------------------------------------------------- selecting and validating

  /** `history_since`. */
  function Since(h: seq<Record>, after: nat): (r: seq<Record>)
    ensures |r| <= |h|
  {
    if h == [] then []
    else if h[|h| - 1].sourceLsn > after then Since(h[..|h| - 1], after) + [h[|h| - 1]]
    else Since(h[..|h| - 1], after)
  }

  /** `validate_replication_records`: what a follower in a term, at a source LSN, takes. */
  function Validate(term: nat, applied: nat, records: seq<Record>): Result<seq<Record>>
    decreases |records|
  {
    if records == [] then Ok([])
    else if records[0].sourceTerm < term then Err(Conflict)
    else if records[0].sourceLsn <= applied then Validate(term, applied, records[1..])
    else match Validate(records[0].sourceTerm, records[0].sourceLsn, records[1..])
      case Err(e) => Err(e)
      case Ok(rest) => Ok([records[0]] + rest)
  }

  /** The engine's part: apply batches until one is rejected. */
  function ApplyAll(g: Graph, records: seq<Record>): (Graph, bool)
    decreases |records|
  {
    if records == [] then (g, true)
    else if !Accepted(g, records[0].batch) then (g, false)
    else ApplyAll(Apply(g, records[0].batch), records[1..])
  }

  /** A follower: its graph, and the term and source LSN it has reached. */
  datatype State = State(live: Graph, term: nat, applied: nat)

  /** `apply_replication_records`. When the engine rejects a batch the batches before it
      stay applied, but the source LSN does not move. */
  function Deliver(f: State, records: seq<Record>): (State, bool) {
    match Validate(f.term, f.applied, records)
    case Err(_) => (f, false)
    case Ok(taken) =>
      var (live, ok) := ApplyAll(f.live, taken);
      if !ok || taken == [] then (f.(live := live), ok)
      else (State(live, taken[|taken| - 1].sourceTerm, taken[|taken| - 1].sourceLsn), true)
  }

  /** One record of a lower term than the follower's refuses the whole answer, whatever else it
      holds. */
  lemma {:induction false} LowerTermFails(term: nat, applied: nat, records: seq<Record>, i: nat)
    requires i < |records| && records[i].sourceTerm < term
    ensures Validate(term, applied, records) == Err(Conflict)
    decreases |records|
  {
    if records[0].sourceTerm >= term {
      assert records[1..][i - 1] == records[i];
      if records[0].sourceLsn <= applied {
        LowerTermFails(term, applied, records[1..], i - 1);
      } else {
        LowerTermFails(records[0].sourceTerm, records[0].sourceLsn, records[1..], i - 1);
      }
    }
  }

  lemma LowerTermRefused(f: State, records: seq<Record>, i: nat)
    requires i < |records| && records[i].sourceTerm < f.term
    ensures Deliver(f, records) == (f, false)
  {
    LowerTermFails(f.term, f.applied, records, i);
  }

  lemma {:induction false} ApplyAllStops(g: Graph, front: seq<Record>, r: Record, rest: seq<Record>)
    requires AcceptedLog(g, Batches(front)) && !Accepted(Fold(g, Batches(front)), r.batch)
    ensures ApplyAll(g, front + [r] + rest) == (Fold(g, Batches(front)), false)
    decreases |front|
  {
    var all := front + [r] + rest;
    if front == [] {
      assert all[0] == r && Batches(front) == [];
    } else {
      assert all[0] == front[0] && all[1..] == front[1..] + [r] + rest;
      assert Batches(front) == [front[0].batch] + Batches(front[1..]);
      AcceptedSuffix(g, [front[0].batch], Batches(front[1..]));
      FoldConcat(g, [front[0].batch], Batches(front[1..]));
      FoldOne(g, front[0].batch);
      ApplyAllStops(Apply(g, front[0].batch), front[1..], r, rest);
    }
  }

  lemma FoldOne(g: Graph, b: WriteBatch)
    ensures Fold(g, [b]) == Apply(g, b) && (AcceptedLog(g, [b]) <==> Accepted(g, b))
  {
    assert [b][..0] == [];
  }

  /** When the engine rejects a record half-way, the follower keeps what came before it, and
      neither its term nor its source LSN moves, so it asks for all of it again. */
  lemma RejectedMidway(f: State, front: seq<Record>, r: Record, rest: seq<Record>)
    requires Validate(f.term, f.applied, front + [r] + rest) == Ok(front + [r] + rest)
    requires AcceptedLog(f.live, Batches(front)) && !Accepted(Fold(f.live, Batches(front)), r.batch)
    ensures Deliver(f, front + [r] + rest) == (State(Fold(f.live, Batches(front)), f.term, f.applied), false)
  {
    ApplyAllStops(f.live, front, r, rest);
  }

  // ---------------------------------------------------------------- answers

  ghost predicate Rising(h: seq<Record>) {
    forall i, j | 0 <= i < j < |h| :: h[i].sourceLsn < h[j].sourceLsn
  }

  ghost predicate AllAtMost(h: seq<Record>, lsn: nat) {
    forall r | r in h :: r.sourceLsn <= lsn
  }

  ghost predicate AllAfter(h: seq<Record>, lsn: nat) {
    forall r | r in h :: r.sourceLsn > lsn
  }

  ghost predicate OfTerm(h: seq<Record>, term: nat) {
    forall r | r in h :: r.sourceTerm == term
  }

  lemma {:induction false} SinceNone(h: seq<Record>, after: nat)
    requires AllAtMost(h, after)
    ensures Since(h, after) == []
  {
    if h != [] {
      SinceNone(h[..|h| - 1], after);
    }
  }

  lemma {:induction false} SinceAll(h: seq<Record>, after: nat)
    requires AllAfter(h, after)
    ensures Since(h, after) == h
  {
    if h != [] {
      SinceAll(h[..|h| - 1], after);
    }
  }

  lemma {:induction false} SinceConcat(a: seq<Record>, b: seq<Record>, after: nat)
    ensures Since(a + b, after) == Since(a, after) + Since(b, after)
  {
    if b == [] {
      assert a + b == a;
    } else {
      assert (a + b)[..|a + b| - 1] == a + b[..|b| - 1];
      SinceConcat(a, b[..|b| - 1], after);
    }
  }

  lemma {:induction false} SinceSubset(h: seq<Record>, after: nat)
    ensures forall r | r in Since(h, after) :: r in h && r.sourceLsn > after
  {
    if h != [] {
      SinceSubset(h[..|h| - 1], after);
    }
  }

  /** `history_since` cuts a history where it splits at the asked number. */
  lemma SinceSplits(past: seq<Record>, news: seq<Record>, after: nat)
    requires AllAtMost(past, after) && AllAfter(news, after)
    ensures Since(past + news, after) == news
  {
    SinceConcat(past, news, after);
    SinceNone(past, after);
    SinceAll(news, after);
    assert [] + news == news;
  }

  lemma {:induction false} SkipsOld(term: nat, applied: nat, past: seq<Record>, news: seq<Record>)
    requires AllAtMost(past, applied) && forall r | r in past :: r.sourceTerm >= term
    ensures Validate(term, applied, past + news) == Validate(term, applied, news)
  {
    if past == [] {
      assert past + news == news;
    } else {
      assert (past + news)[1..] == past[1..] + news;
      assert (past + news)[0] == past[0] && past[0] in past;
      SkipsOld(term, applied, past[1..], news);
    }
  }

  /** A follower takes rising new records, and none numbered no higher that comes after them. */
  lemma {:induction false} TakesNew(term: nat, applied: nat, news: seq<Record>, late: seq<Record>, reign: nat)
    requires Rising(news) && AllAfter(news, applied) && OfTerm(news, reign) && term <= reign && OfTerm(late, reign)
    requires AllAtMost(late, if news == [] then applied else news[|news| - 1].sourceLsn)
    ensures Validate(term, applied, news + late) == Ok(news)
    decreases |news|
  {
    if news == [] {
      SkipsOld(term, applied, late, []);
      assert news + late == late && late + [] == late;
    } else {
      var first := news[0];
      assert first in news && (news + late)[0] == first && (news + late)[1..] == news[1..] + late;
      forall r | r in news[1..] ensures r.sourceLsn > first.sourceLsn && r.sourceTerm == reign {
        assert r in news;
      }
      if |news| > 1 {
        assert news[1..][|news| - 2] == news[|news| - 1];
      }
      TakesNew(reign, first.sourceLsn, news[1..], late, reign);
      assert [first] + news[1..] == news;
    }
  }

  // ---------------------------------------------------------------- applying

  lemma {:induction false} ApplyAllIsReplay(g: Graph, records: seq<Record>)
    requires WellFormed(Batches(records))
    ensures ApplyAll(g, records).1 <==> Replay(g, Batches(records)).Ok?
    ensures ApplyAll(g, records).1 ==> Replay(g, Batches(records)) == Ok(ApplyAll(g, records).0)
    decreases |records|
  {
    if records != [] {
      var b, rest := records[0].batch, records[1..];
      assert Batches(records) == [b] + Batches(rest);
      assert b in Batches(records);
      assert WellFormed(Batches(rest)) by {
        assert forall x | x in Batches(rest) :: x in Batches(records);
      }
      ReplayConcat(g, [b], Batches(rest));
      ReplayOne(g, b);
      if Accepted(g, b) {
        ApplyAllIsReplay(Apply(g, b), rest);
      }
    }
  }

  lemma ReplayOne(g: Graph, b: WriteBatch)
    ensures Replay(g, [b]) == if EndpointsExist(g.nodes, b) then Ok(Apply(g, b)) else Err(Validation)
  {
    assert [b][..0] == [];
  }

  lemma BatchesConcat(a: seq<Record>, b: seq<Record>)
    ensures Batches(a + b) == Batches(a) + Batches(b)
  {
  }

  /** A follower's engine accepts, in order, what the leader's accepted after the same graph. */
  lemma AppliesRun(start: Graph, past: seq<Record>, news: seq<Record>)
    requires AcceptedLog(start, Batches(past + news))
    ensures ApplyAll(Fold(start, Batches(past)), news) == (Fold(start, Batches(past + news)), true)
  {
    BatchesConcat(past, news);
    AcceptedSuffix(start, Batches(past), Batches(news));
    AcceptedIsWellFormed(Fold(start, Batches(past)), Batches(news));
    ApplyAllIsReplay(Fold(start, Batches(past)), news);
    ReplayNeverRejects(Fold(start, Batches(past)), Batches(news));
    FoldConcat(start, Batches(past), Batches(news));
  }

  // ---------------------------------------------------------------- one leader's reign

  /** A leader with its term, what it has committed, and the number of its next log record; and
      a follower. */
  datatype Pair = Pair(leader: string, term: nat, history: seq<Record>, nextLsn: nat, follower: State)

  /** The leader commits a batch, appends another log record, or restarts its numbering by a
      compaction; or some answer given so far reaches the follower. */
  datatype Event =
    | Commit(batch: WriteBatch)
    | OtherRecord
    | Restart
    | Delivery(n: nat, k: nat)

  /** A past answer to `history_since`: the records above `k` among the first `n`. */
  function PastAnswer(h: seq<Record>, n: nat, k: nat): seq<Record>
    requires n <= |h|
  {
    Since(h[..n], k)
  }

  /** The leader's graph, from the graph both started with. */
  function LeaderGraph(start: Graph, w: Pair): Graph {
    Fold(start, Batches(w.history))
  }

  /** The leader's engine accepts what it commits; a delivery answers a request at or below the
      follower's source LSN. */
  ghost predicate Happens(start: Graph, w: Pair, e: Event) {
    match e
    case Commit(b) => Accepted(LeaderGraph(start, w), b)
    case Delivery(n, k) => n <= |w.history| && k <= w.follower.applied
    case _ => true
  }

  function NextRecord(w: Pair, b: WriteBatch): Record {
    Record(w.leader, w.term, w.nextLsn, b)
  }

  function After(w: Pair, e: Event): Pair {
    match e
    case Commit(b) => w.(history := w.history + [NextRecord(w, b)], nextLsn := w.nextLsn + 1)
    case OtherRecord => w.(nextLsn := w.nextLsn + 1)
    case Restart => w.(nextLsn := 1)
    case Delivery(n, k) =>
      if n <= |w.history| then w.(follower := Deliver(w.follower, PastAnswer(w.history, n, k)).0) else w
  }

  function Run(w: Pair, events: seq<Event>): Pair
    decreases |events|
  {
    if events == [] then w else Run(After(w, events[0]), events[1..])
  }

  ghost predicate Legal(start: Graph, w: Pair, events: seq<Event>)
    decreases |events|
  {
    events == [] || (Happens(start, w, events[0]) && Legal(start, After(w, events[0]), events[1..]))
  }

  /** How far the follower has come: the number of records it needs no more. */
  function Reached(w: Pair): nat {
    |w.history| - |Since(w.history, w.follower.applied)|
  }

  /** The first `p` numbers of a history are at or below a number; those after are above it, in
      rising order. */
  ghost predicate Split(h: seq<Record>, p: nat, lsn: nat) {
    p <= |h| && AllAtMost(h[..p], lsn) && AllAfter(h[p..], lsn) && Rising(h[p..])
  }

  /** The leader's commits are of its term, and its engine accepted them in their order. */
  ghost predicate Committed(start: Graph, w: Pair) {
    AcceptedLog(start, Batches(w.history)) && OfTerm(w.history, w.term) && w.follower.term <= w.term
  }

  /** The follower keeps up: its graph is the leader's after the first `p` commits, and its source
      LSN splits the history there. */
  ghost predicate At(start: Graph, w: Pair, p: nat) {
    && Committed(start, w) && Split(w.history, p, w.follower.applied)
    && w.follower.live == Fold(start, Batches(w.history[..p]))
  }

  ghost predicate KeepsUp(start: Graph, w: Pair) {
    At(start, w, Reached(w))
  }

  lemma SplitIsSince(h: seq<Record>, p: nat, lsn: nat)
    requires Split(h, p, lsn)
    ensures Since(h, lsn) == h[p..]
  {
    assert h == h[..p] + h[p..];
    SinceSplits(h[..p], h[p..], lsn);
  }

  lemma AtIsReached(start: Graph, w: Pair, p: nat)
    requires At(start, w, p)
    ensures Reached(w) == p && Since(w.history, w.follower.applied) == w.history[p..]
  {
    SplitIsSince(w.history, p, w.follower.applied);
  }

  lemma AtKeepsUp(start: Graph, w: Pair, p: nat)
    requires At(start, w, p)
    ensures KeepsUp(start, w) && Reached(w) == p
  {
    AtIsReached(start, w, p);
  }

  lemma RisingPrefix(s: seq<Record>, m: nat)
    requires Rising(s) && m <= |s|
    ensures Rising(s[..m])
  {
  }

  lemma NewPart(h: seq<Record>, p: nat, n: nat, lsn: nat)
    requires Split(h, p, lsn) && p <= n <= |h|
    ensures Rising(h[p..n]) && AllAfter(h[p..n], lsn)
  {
    assert h[p..n] == h[p..][..n - p];
    RisingPrefix(h[p..], n - p);
    forall r | r in h[p..n] ensures r.sourceLsn > lsn {
      assert r in h[p..];
    }
  }

  lemma PartOfTerm(h: seq<Record>, a: nat, b: nat, term: nat)
    requires OfTerm(h, term) && a <= b <= |h|
    ensures OfTerm(h[a..b], term)
  {
    forall r | r in h[a..b] ensures r.sourceTerm == term {
      assert r in h;
    }
  }

  lemma OldPart(h: seq<Record>, p: nat, q: nat, lsn: nat, k: nat, term: nat)
    requires Split(h, p, lsn) && q <= p && OfTerm(h, term)
    ensures AllAtMost(Since(h[..q], k), lsn) && OfTerm(Since(h[..q], k), term)
  {
    SinceSubset(h[..q], k);
    forall r | r in Since(h[..q], k) ensures r.sourceLsn <= lsn && r.sourceTerm == term {
      assert r in h[..p] && r in h;
    }
  }

  lemma AnswerSplits(h: seq<Record>, p: nat, n: nat, k: nat, lsn: nat)
    requires Split(h, p, lsn) && n <= |h| && k <= lsn
    ensures PastAnswer(h, n, k) == Since(h[..Smaller(n, p)], k) + h[Smaller(n, p)..n]
  {
    var q := Smaller(n, p);
    assert h[..n] == h[..q] + h[q..n];
    SinceConcat(h[..q], h[q..n], k);
    if p < n {
      NewPart(h, p, n, lsn);
    } else {
      assert h[q..n] == [];
    }
    SinceAll(h[q..n], k);
  }

  lemma AnswerTaken(h: seq<Record>, p: nat, n: nat, k: nat, f: State, term: nat)
    requires Split(h, p, f.applied) && OfTerm(h, term) && f.term <= term && n <= |h| && k <= f.applied
    ensures Validate(f.term, f.applied, PastAnswer(h, n, k)) == Ok(h[Smaller(n, p)..n])
  {
    var q := Smaller(n, p);
    AnswerSplits(h, p, n, k, f.applied);
    OldPart(h, p, q, f.applied, k, term);
    SkipsOld(f.term, f.applied, Since(h[..q], k), h[q..n]);
    if p < n {
      NewPart(h, p, n, f.applied);
    } else {
      assert h[q..n] == [];
    }
    PartOfTerm(h, q, n, term);
    TakesNew(f.term, f.applied, h[q..n], [], term);
    assert h[q..n] + [] == h[q..n];
  }

  /** The numbers around the last record that a follower takes. */
  lemma LastSplits(h: seq<Record>, p: nat, n: nat, lsn: nat)
    requires p < n <= |h| && Split(h, p, lsn)
    ensures h[n - 1].sourceLsn > lsn && Split(h, n, h[n - 1].sourceLsn)
  {
    var last := h[n - 1].sourceLsn;
    assert h[p..][n - 1 - p] == h[n - 1] && h[n - 1] in h[p..];
    forall r | r in h[..n] ensures r.sourceLsn <= last {
      var i :| 0 <= i < n && h[i] == r;
      if i < p {
        assert h[i] in h[..p];
      } else {
        assert h[p..][i - p] == h[i];
      }
    }
    forall r | r in h[n..] ensures r.sourceLsn > last {
      var i :| n <= i < |h| && h[i] == r;
      assert h[p..][i - p] == h[i];
    }
    forall i, j | 0 <= i < j < |h[n..]| ensures h[n..][i].sourceLsn < h[n..][j].sourceLsn {
      assert h[n..][i] == h[p..][n - p + i] && h[n..][j] == h[p..][n - p + j];
    }
  }

  lemma AppliesPart(start: Graph, h: seq<Record>, p: nat, n: nat)
    requires AcceptedLog(start, Batches(h)) && p <= n <= |h|
    ensures ApplyAll(Fold(start, Batches(h[..p])), h[p..n]) == (Fold(start, Batches(h[..n])), true)
  {
    assert h == h[..n] + h[n..];
    BatchesConcat(h[..n], h[n..]);
    AcceptedSuffix(start, Batches(h[..n]), Batches(h[n..]));
    assert h[..n] == h[..p] + h[p..n];
    AppliesRun(start, h[..p], h[p..n]);
  }

  lemma LastTaken(h: seq<Record>, p: nat, n: nat)
    requires p < n <= |h|
    ensures h[p..n] != [] && h[p..n][|h[p..n]| - 1] == h[n - 1] && h[n - 1] in h
  {
  }

  lemma DeliveryMovesTo(start: Graph, w: Pair, p: nat, n: nat, k: nat)
    requires At(start, w, p) && p < n <= |w.history| && k <= w.follower.applied
    ensures Deliver(w.follower, PastAnswer(w.history, n, k)) ==
            (State(Fold(start, Batches(w.history[..n])), w.term, w.history[n - 1].sourceLsn), true)
  {
    AnswerTaken(w.history, p, n, k, w.follower, w.term);
    AppliesPart(start, w.history, p, n);
    LastTaken(w.history, p, n);
  }

  lemma DeliveryChangesNothing(start: Graph, w: Pair, p: nat, n: nat, k: nat)
    requires At(start, w, p) && n <= p && k <= w.follower.applied
    ensures Deliver(w.follower, PastAnswer(w.history, n, k)) == (w.follower, true)
  {
    AnswerTaken(w.history, p, n, k, w.follower, w.term);
    assert w.history[n..n] == [];
  }

  lemma MovedIsAt(start: Graph, w: Pair, p: nat, n: nat)
    requires At(start, w, p) && p < n <= |w.history|
    ensures var lsn := w.history[n - 1].sourceLsn;
            At(start, w.(follower := State(Fold(start, Batches(w.history[..n])), w.term, lsn)), n)
            && lsn >= w.follower.applied
  {
    LastSplits(w.history, p, n, w.follower.applied);
  }

  /** What a delivery makes of the follower. */
  lemma Delivered(start: Graph, w: Pair, p: nat, n: nat, k: nat) returns (f: State)
    requires At(start, w, p) && n <= |w.history| && k <= w.follower.applied
    ensures Deliver(w.follower, PastAnswer(w.history, n, k)) == (f, true)
    ensures At(start, w.(follower := f), if n <= p then p else n)
    ensures f.applied == (if n <= p then w.follower.applied else w.history[n - 1].sourceLsn)
    ensures f.applied >= w.follower.applied
  {
    if n <= p {
      DeliveryChangesNothing(start, w, p, n, k);
      f := w.follower;
    } else {
      DeliveryMovesTo(start, w, p, n, k);
      MovedIsAt(start, w, p, n);
      f := State(Fold(start, Batches(w.history[..n])), w.term, w.history[n - 1].sourceLsn);
    }
  }

  lemma AfterDelivery(w: Pair, n: nat, k: nat, f: State)
    requires n <= |w.history| && Deliver(w.follower, PastAnswer(w.history, n, k)).0 == f
    ensures After(w, Delivery(n, k)) == w.(follower := f)
  {
  }

  /** One delivery of any past answer, however stale or overlapping, is taken without error,
      keeps the follower in step with the leader, and never moves it back. */
  lemma DeliveryKeepsUp(start: Graph, w: Pair, n: nat, k: nat)
    requires KeepsUp(start, w) && n <= |w.history| && k <= w.follower.applied
    ensures var w' := After(w, Delivery(n, k));
            && Deliver(w.follower, PastAnswer(w.history, n, k)).1
            && KeepsUp(start, w') && w'.follower.applied >= w.follower.applied
            && Reached(w') == if n <= Reached(w) then Reached(w) else n
  {
    var p := Reached(w);
    var f := Delivered(start, w, p, n, k);
    AfterDelivery(w, n, k, f);
    AtKeepsUp(start, w.(follower := f), if n <= p then p else n);
  }

  lemma AtEndIsLeader(start: Graph, w: Pair)
    requires At(start, w, |w.history|)
    ensures w.follower.live == LeaderGraph(start, w)
  {
    assert w.history[..|w.history|] == w.history;
  }

  lemma FullAnswerIsLeader(start: Graph, w: Pair, p: nat, k: nat) returns (f: State)
    requires At(start, w, p) && k <= w.follower.applied
    ensures Deliver(w.follower, PastAnswer(w.history, |w.history|, k)) == (f, true)
    ensures At(start, w.(follower := f), |w.history|) && f.live == LeaderGraph(start, w)
  {
    f := Delivered(start, w, p, |w.history|, k);
    AtEndIsLeader(start, w.(follower := f));
  }

  /** A complete answer makes the follower equal to the leader. */
  lemma FullAnswerConverges(start: Graph, w: Pair, k: nat)
    requires KeepsUp(start, w) && k <= w.follower.applied
    ensures var w' := After(w, Delivery(|w.history|, k));
            KeepsUp(start, w') && w'.follower.live == LeaderGraph(start, w) && Reached(w') == |w.history|
  {
    var f := FullAnswerIsLeader(start, w, Reached(w), k);
    AfterDelivery(w, |w.history|, k, f);
    AtKeepsUp(start, w.(follower := f), |w.history|);
  }

  // ---------------------------------------------------------------- when a commit ships

  /** The last number that the follower has or has yet to get. */
  function Frontier(w: Pair): nat {
    if Reached(w) == |w.history| then w.follower.applied else w.history[|w.history| - 1].sourceLsn
  }

  lemma RisingSnoc(h: seq<Record>, r: Record)
    requires Rising(h) && (h != [] ==> h[|h| - 1].sourceLsn < r.sourceLsn)
    ensures Rising(h + [r])
  {
    var h' := h + [r];
    forall i, j | 0 <= i < j < |h'| ensures h'[i].sourceLsn < h'[j].sourceLsn {
      if j == |h| && i < |h| - 1 {
        assert h[i].sourceLsn < h[|h| - 1].sourceLsn;
      }
    }
  }

  lemma BatchesSnoc(h: seq<Record>, r: Record)
    ensures Batches(h + [r]) == Batches(h) + [r.batch]
  {
  }

  lemma AcceptedNext(start: Graph, log: seq<WriteBatch>, b: WriteBatch)
    ensures Fold(start, log + [b]) == Apply(Fold(start, log), b)
    ensures AcceptedLog(start, log + [b]) <==> AcceptedLog(start, log) && Accepted(Fold(start, log), b)
  {
    assert (log + [b])[..|log|] == log;
  }

  lemma LastNew(h: seq<Record>, p: nat, lsn: nat)
    requires Split(h, p, lsn) && p < |h|
    ensures h[p..][|h[p..]| - 1] == h[|h| - 1] && h[|h| - 1].sourceLsn > lsn
  {
    assert h[p..][|h| - p - 1] == h[|h| - 1] && h[|h| - 1] in h[p..];
  }

  lemma SplitSnoc(h: seq<Record>, p: nat, lsn: nat, r: Record)
    requires Split(h, p, lsn) && r.sourceLsn > if p == |h| then lsn else h[|h| - 1].sourceLsn
    ensures Split(h + [r], p, lsn)
  {
    if p < |h| {
      LastNew(h, p, lsn);
    }
    assert (h + [r])[..p] == h[..p] && (h + [r])[p..] == h[p..] + [r];
    RisingSnoc(h[p..], r);
  }

  lemma CommitIsCommitted(start: Graph, w: Pair, b: WriteBatch)
    requires Committed(start, w) && Happens(start, w, Commit(b))
    ensures Committed(start, After(w, Commit(b)))
    ensures LeaderGraph(start, After(w, Commit(b))) == Apply(LeaderGraph(start, w), b)
  {
    BatchesSnoc(w.history, NextRecord(w, b));
    AcceptedNext(start, Batches(w.history), b);
  }

  lemma PrefixKept(h: seq<Record>, p: nat, r: Record)
    requires p <= |h|
    ensures (h + [r])[..p] == h[..p]
  {
  }

  lemma CommitIsAt(start: Graph, w: Pair, p: nat, b: WriteBatch)
    requires At(start, w, p) && Happens(start, w, Commit(b))
    requires w.nextLsn > if p == |w.history| then w.follower.applied else w.history[|w.history| - 1].sourceLsn
    ensures At(start, After(w, Commit(b)), p)
  {
    CommitIsCommitted(start, w, b);
    SplitSnoc(w.history, p, w.follower.applied, NextRecord(w, b));
    PrefixKept(w.history, p, NextRecord(w, b));
  }

  /** A commit numbered above the frontier is one more record for the follower to get. */
  lemma CommitKeepsUp(start: Graph, w: Pair, b: WriteBatch)
    requires KeepsUp(start, w) && Happens(start, w, Commit(b)) && w.nextLsn > Frontier(w)
    ensures KeepsUp(start, After(w, Commit(b)))
    ensures Frontier(After(w, Commit(b))) == w.nextLsn
    ensures LeaderGraph(start, After(w, Commit(b))) == Apply(LeaderGraph(start, w), b)
  {
    CommitIsCommitted(start, w, b);
    CommitIsAt(start, w, Reached(w), b);
    AtKeepsUp(start, After(w, Commit(b)), Reached(w));
  }

  /** A commit numbered no higher changes nothing of what the follower takes of a full answer. */
  lemma LowRecordNotTaken(h: seq<Record>, p: nat, f: State, term: nat, r: Record)
    requires Split(h, p, f.applied) && OfTerm(h, term) && f.term <= term && r.sourceTerm == term
    requires r.sourceLsn <= if p == |h| then f.applied else h[|h| - 1].sourceLsn
    ensures Validate(f.term, f.applied, Since(h + [r], f.applied)) == Ok(h[p..])
  {
    var late := Since([r], f.applied);
    SplitIsSince(h, p, f.applied);
    SinceConcat(h, [r], f.applied);
    SinceSubset([r], f.applied);
    if p < |h| {
      LastNew(h, p, f.applied);
    }
    PartOfTerm(h, p, |h|, term);
    assert h[p..|h|] == h[p..];
    TakesNew(f.term, f.applied, h[p..], late, term);
  }

  lemma LowCommitUnheard(start: Graph, w: Pair, b: WriteBatch)
    requires KeepsUp(start, w) && w.nextLsn <= Frontier(w)
    ensures var answer := Since(w.history + [NextRecord(w, b)], w.follower.applied);
            Deliver(w.follower, answer).0.live == LeaderGraph(start, w)
  {
    var h, p := w.history, Reached(w);
    LowRecordNotTaken(h, p, w.follower, w.term, NextRecord(w, b));
    AppliesPart(start, h, p, |h|);
    assert h[p..|h|] == h[p..] && h[..|h|] == h;
  }

  /** After any accepted next commit a full answer makes the follower equal to the leader. */
  ghost predicate NextCommitShips(start: Graph, w: Pair) {
    forall b | Accepted(LeaderGraph(start, w), b) ::
      Deliver(w.follower, Since(w.history + [NextRecord(w, b)], w.follower.applied)).0.live ==
      Apply(LeaderGraph(start, w), b)
  }

  lemma FullAnswer(start: Graph, w: Pair)
    requires KeepsUp(start, w)
    ensures Deliver(w.follower, Since(w.history, w.follower.applied)).0.live == LeaderGraph(start, w)
  {
    var f := FullAnswerIsLeader(start, w, Reached(w), w.follower.applied);
    WholeIsPast(w);
  }

  lemma WholeIsPast(w: Pair)
    ensures PastAnswer(w.history, |w.history|, w.follower.applied) == Since(w.history, w.follower.applied)
  {
    assert w.history[..|w.history|] == w.history;
  }

  /** The next commit ships, whatever it is, exactly when it is numbered above the frontier. A
      leader whose compaction has restarted its numbering is not heard. */
  lemma NextCommitShipsIff(start: Graph, w: Pair)
    requires KeepsUp(start, w)
    ensures NextCommitShips(start, w) <==> w.nextLsn > Frontier(w)
  {
    var g := LeaderGraph(start, w);
    if w.nextLsn > Frontier(w) {
      forall b | Accepted(g, b)
        ensures Deliver(w.follower, Since(w.history + [NextRecord(w, b)], w.follower.applied)).0.live == Apply(g, b)
      {
        CommitKeepsUp(start, w, b);
        FullAnswer(start, After(w, Commit(b)));
      }
    } else {
      var b := SomeBatchMisses(g, g);
      LowCommitUnheard(start, w, b);
    }
  }

  // ---------------------------------------------------------------- whole runs

  /** Every commit of a run is numbered above the frontier of its moment. */
  ghost predicate Shipping(w: Pair, events: seq<Event>)
    decreases |events|
  {
    events == [] || ((events[0].Commit? ==> w.nextLsn > Frontier(w)) && Shipping(After(w, events[0]), events[1..]))
  }

  lemma EventKeepsUp(start: Graph, w: Pair, e: Event)
    requires KeepsUp(start, w) && Happens(start, w, e) && (e.Commit? ==> w.nextLsn > Frontier(w))
    ensures KeepsUp(start, After(w, e)) && After(w, e).follower.applied >= w.follower.applied
  {
    match e
    case Commit(b) => CommitKeepsUp(start, w, b);
    case Delivery(n, k) => DeliveryKeepsUp(start, w, n, k);
    case _ =>
  }

  /** In every run, restarts included, whose commits are numbered above the frontier of their
      moment, the follower stays in step and its source LSN never decreases. */
  lemma {:induction false} EveryRunKeepsUp(start: Graph, w: Pair, events: seq<Event>)
    requires KeepsUp(start, w) && Legal(start, w, events) && Shipping(w, events)
    ensures KeepsUp(start, Run(w, events)) && Run(w, events).follower.applied >= w.follower.applied
    decreases |events|
  {
    if events != [] {
      EventKeepsUp(start, w, events[0]);
      EveryRunKeepsUp(start, After(w, events[0]), events[1..]);
    }
  }

  /** The frontier of a follower that has taken the first `p` records. */
  function EndOf(h: seq<Record>, applied: nat, p: nat): nat
    requires p <= |h|
  {
    if p == |h| then applied else h[|h| - 1].sourceLsn
  }

  lemma FrontierAt(start: Graph, w: Pair, p: nat)
    requires At(start, w, p)
    ensures p <= |w.history| && Frontier(w) == EndOf(w.history, w.follower.applied, p)
  {
    AtIsReached(start, w, p);
  }

  lemma FrontierDelivered(start: Graph, w: Pair, p: nat, n: nat, k: nat)
    requires At(start, w, p) && n <= |w.history| && k <= w.follower.applied
    ensures var applied := if n <= p then w.follower.applied else w.history[n - 1].sourceLsn;
            Frontier(After(w, Delivery(n, k))) == EndOf(w.history, applied, if n <= p then p else n)
  {
    var f := Delivered(start, w, p, n, k);
    AfterDelivery(w, n, k, f);
    FrontierAt(start, w.(follower := f), if n <= p then p else n);
  }

  lemma DeliveryKeepsFrontier(start: Graph, w: Pair, n: nat, k: nat)
    requires KeepsUp(start, w) && n <= |w.history| && k <= w.follower.applied
    ensures Frontier(After(w, Delivery(n, k))) == Frontier(w)
  {
    FrontierAt(start, w, Reached(w));
    FrontierDelivered(start, w, Reached(w), n, k);
  }

  lemma EventStaysAhead(start: Graph, w: Pair, e: Event)
    requires KeepsUp(start, w) && Happens(start, w, e) && !e.Restart? && w.nextLsn > Frontier(w)
    ensures After(w, e).nextLsn > Frontier(After(w, e))
  {
    match e
    case Commit(b) => CommitKeepsUp(start, w, b);
    case Delivery(n, k) => DeliveryKeepsFrontier(start, w, n, k);
    case _ =>
  }

  /** Without a restart every commit of a run is numbered above the frontier. */
  lemma {:induction false} RunWithoutRestartShips(start: Graph, w: Pair, events: seq<Event>)
    requires KeepsUp(start, w) && Legal(start, w, events) && w.nextLsn > Frontier(w)
    requires forall e | e in events :: !e.Restart?
    ensures Shipping(w, events)
    decreases |events|
  {
    if events != [] {
      var e := events[0];
      EventKeepsUp(start, w, e);
      EventStaysAhead(start, w, e);
      RunWithoutRestartShips(start, After(w, e), events[1..]);
    }
  }

  // ---------------------------------------------------------------- what a restart costs

  /** A follower that had everything, and the leader's commits after a restart: `low` numbered
      at or below what the follower has, then `high` above it. A full answer is taken without
      error exactly when `high` needs no node that only `low` provides, and makes the follower
      equal to the leader exactly when, besides, `high` settles what `low` changed. */
  lemma RestartConvergesIff(start: Graph, w: Pair, low: seq<Record>, high: seq<Record>)
    requires KeepsUp(start, w) && Reached(w) == |w.history|
    requires AcceptedLog(start, Batches(w.history + low + high)) && OfTerm(low + high, w.term)
    requires AllAtMost(low, w.follower.applied) && AllAfter(high, w.follower.applied) && Rising(high)
    ensures var h := w.history + low + high;
            var d := Deliver(w.follower, Since(h, w.follower.applied));
            var g := LeaderGraph(start, w);
            && (d.1 <==> Provided(g, Batches(high)))
            && (d.1 && d.0.live == Fold(start, Batches(h)) <==>
                Provided(g, Batches(high)) && Settles(g, Fold(g, Batches(low)), Batches(high)))
  {
    var f, g := w.follower, LeaderGraph(start, w);
    assert w.history[..|w.history|] == w.history;
    assert AllAtMost(w.history + low, f.applied);
    SinceSplits(w.history + low, high, f.applied);
    assert OfTerm(high, w.term) by {
      assert forall r | r in high :: r in low + high;
    }
    TakesNew(f.term, f.applied, high, [], w.term);
    assert high + [] == high;
    LeaderAfterRestart(start, w, low, high);
    ReplaysElsewhereIff(Fold(g, Batches(low)), g, Batches(high));
    ApplyAllIsReplay(g, high);
    FoldsAgreeIff(g, Fold(g, Batches(low)), Batches(high));
    if Replay(g, Batches(high)).Ok? {
      ReplayIsFold(g, Batches(high));
    }
  }

  lemma LeaderAfterRestart(start: Graph, w: Pair, low: seq<Record>, high: seq<Record>)
    requires AcceptedLog(start, Batches(w.history + low + high))
    ensures var g := LeaderGraph(start, w);
            && Fold(start, Batches(w.history + low + high)) == Fold(Fold(g, Batches(low)), Batches(high))
            && AcceptedLog(Fold(g, Batches(low)), Batches(high)) && WellFormed(Batches(high))
  {
    var h, g := w.history, LeaderGraph(start, w);
    BatchesConcat(h + low, high);
    BatchesConcat(h, low);
    AcceptedSuffix(start, Batches(h + low), Batches(high));
    FoldConcat(start, Batches(h + low), Batches(high));
    FoldConcat(start, Batches(h), Batches(low));
    AcceptedIsWellFormed(Fold(g, Batches(low)), Batches(high));
  }

  // ---------------------------------------------------------------- the manager

  class ReplicationManager {
    var mode: Mode
    var localNode: string
    var currentTerm: nat
    var lastAppliedLsn: nat
    var lastCommittedSourceLsn: nat
    var lastPulledSourceLsn: nat
    var lastAppliedSourceLsn: nat
    var history: seq<Record>

    constructor (localNode: string)
      ensures mode == Disabled && history == [] && currentTerm == 0 && lastAppliedSourceLsn == 0
      ensures this.localNode == localNode && lastCommittedSourceLsn == 0
    {
      mode, this.localNode, currentTerm, history := Disabled, localNode, 0, [];
      lastAppliedLsn, lastCommittedSourceLsn, lastPulledSourceLsn, lastAppliedSourceLsn := 0, 0, 0, 0;
    }

    method HistorySince(after: nat) returns (r: seq<Record>)
      ensures r == Since(history, after)
    {
      r := [];
      for i := 0 to |history|
        invariant r == Since(history[..i], after)
      {
        assert history[..i + 1][..i] == history[..i];
        if history[i].sourceLsn > after {
          r := r + [history[i]];
        }
      }
      assert history[..|history|] == history;
    }

    method RecordLeaderCommit(sourceLsn: nat, batch: WriteBatch) returns (r: Result<()>)
      modifies this
      ensures r == if old(mode).Leader? then Ok(()) else Err(Conflict)
      ensures r.Err? ==> unchanged(this)
      ensures r.Ok? ==>
                && history == old(history) + [Record(localNode, currentTerm, sourceLsn, batch)]
                && lastCommittedSourceLsn == lastAppliedLsn == lastAppliedSourceLsn == sourceLsn
      ensures mode == old(mode) && currentTerm == old(currentTerm) && localNode == old(localNode)
    {
      if !mode.Leader? {
        return Err(Conflict);
      }
      lastCommittedSourceLsn, lastAppliedLsn, lastAppliedSourceLsn := sourceLsn, sourceLsn, sourceLsn;
      history := history + [Record(localNode, currentTerm, sourceLsn, batch)];
      r := Ok(());
    }

    function Progress(): Position
      reads this
    {
      Position(currentTerm, lastPulledSourceLsn, lastAppliedSourceLsn)
    }

    /** `apply_follower_records`: records at or below the applied position are skipped; a record
        of a lower term ends the loop with an error, after what came before it. */
    method ApplyFollowerRecords(records: seq<Record>) returns (r: Result<Option<nat>>)
      modifies this
      ensures r == if !old(mode).Follower? then Err(Conflict) else Follow(old(Progress()), None, records).result
      ensures Progress() ==
              if !old(mode).Follower? then old(Progress()) else Follow(old(Progress()), None, records).position
      ensures mode == old(mode) && history == old(history) && localNode == old(localNode)
      ensures lastAppliedLsn == old(lastAppliedLsn) && lastCommittedSourceLsn == old(lastCommittedSourceLsn)
    {
      if !mode.Follower? {
        return Err(Conflict);
      }
      var last: Option<nat> := None;
      assert records[0..] == records;
      for i := 0 to |records|
        invariant mode == old(mode) && history == old(history) && localNode == old(localNode)
        invariant lastAppliedLsn == old(lastAppliedLsn) && lastCommittedSourceLsn == old(lastCommittedSourceLsn)
        invariant Follow(Progress(), last, records[i..]) == Follow(old(Progress()), None, records)
      {
        assert records[i..][1..] == records[i + 1..];
        if records[i].sourceTerm < currentTerm {
          return Err(Conflict);
        }
        if records[i].sourceLsn > lastAppliedSourceLsn {
          currentTerm := records[i].sourceTerm;
          lastPulledSourceLsn, lastAppliedSourceLsn := records[i].sourceLsn, records[i].sourceLsn;
          last := Some(records[i].sourceLsn);
        }
      }
      r := Ok(last);
    }
  }

  /** The term, and the source LSNs pulled and applied. */
  datatype Position = Position(term: nat, pulled: nat, applied: nat)

  datatype Followed = Followed(position: Position, result: Result<Option<nat>>)

  function Follow(p: Position, last: Option<nat>, records: seq<Record>): Followed
    decreases |records|
  {
    if records == [] then Followed(p, Ok(last))
    else if records[0].sourceTerm < p.term then Followed(p, Err(Conflict))
    else if records[0].sourceLsn <= p.applied then Follow(p, last, records[1..])
    else
      var r := records[0];
      Follow(Position(r.sourceTerm, r.sourceLsn, r.sourceLsn), Some(r.sourceLsn), records[1..])
  }

  function AtRecord(r: Record): Position {
    Position(r.sourceTerm, r.sourceLsn, r.sourceLsn)
  }

  /** Following agrees with validation: it fails on the same lists, and otherwise ends at the
      last record that validation takes, or stays if it takes none. */
  lemma {:induction false} FollowAsValidated(p: Position, last: Option<nat>, records: seq<Record>)
    ensures match Validate(p.term, p.applied, records)
            case Err(_) => Follow(p, last, records).result == Err(Conflict)
            case Ok(taken) =>
              Follow(p, last, records) ==
              if taken == [] then Followed(p, Ok(last))
              else Followed(AtRecord(taken[|taken| - 1]), Ok(Some(taken[|taken| - 1].sourceLsn)))
    decreases |records|
  {
    if records != [] && records[0].sourceTerm >= p.term {
      var r := records[0];
      if r.sourceLsn <= p.applied {
        FollowAsValidated(p, last, records[1..]);
      } else {
        FollowAsValidated(AtRecord(r), Some(r.sourceLsn), records[1..]);
        var rest := Validate(r.sourceTerm, r.sourceLsn, records[1..]);
        assert rest.Ok? ==> [r] + rest.value != [] && (rest.value == [] ==> [r] + rest.value == [r]);
        assert rest.Ok? && rest.value != [] ==>
                 ([r] + rest.value)[|[r] + rest.value| - 1] == rest.value[|rest.value| - 1];
      }
    }
  }

  lemma {:induction false} TakenIsTaken(term: nat, applied: nat, records: seq<Record>)
    ensures match Validate(term, applied, records)
            case Err(_) => true
            case Ok(taken) => Validate(term, applied, taken) == Ok(taken)
    decreases |records|
  {
    if records != [] && records[0].sourceTerm >= term {
      if records[0].sourceLsn <= applied {
        TakenIsTaken(term, applied, records[1..]);
      } else {
        TakenIsTaken(records[0].sourceTerm, records[0].sourceLsn, records[1..]);
        var rest := Validate(records[0].sourceTerm, records[0].sourceLsn, records[1..]);
        assert rest.Ok? ==> ([records[0]] + rest.value)[1..] == rest.value;
      }
    }
  }

  /** The records found so far, put before what the rest of the list gives. */
  function Prefixed(taken: seq<Record>, rest: Result<seq<Record>>): Result<seq<Record>> {
    match rest case Err(e) => Err(e) case Ok(more) => Ok(taken + more)
  }

  lemma PrefixedSnoc(taken: seq<Record>, x: Record, rest: Result<seq<Record>>)
    ensures Prefixed(taken, Prefixed([x], rest)) == Prefixed(taken + [x], rest)
  {
    assert rest.Ok? ==> taken + ([x] + rest.value) == taken + [x] + rest.value;
  }

  lemma PrefixedNone(rest: Result<seq<Record>>)
    ensures Prefixed([], rest) == rest
  {
    assert rest.Ok? ==> [] + rest.value == rest.value;
  }

  /** `validate_replication_records`: the loop computes `Validate`. */
  method ValidateRecords(term: nat, applied: nat, records: seq<Record>) returns (r: Result<seq<Record>>)
    ensures r == Validate(term, applied, records)
  {
    var currentTerm, lsn := term, applied;
    var taken: seq<Record> := [];
    PrefixedNone(Validate(term, applied, records));
    assert records[0..] == records;
    for i := 0 to |records|
      invariant Validate(term, applied, records) == Prefixed(taken, Validate(currentTerm, lsn, records[i..]))
    {
      assert records[i..][1..] == records[i + 1..];
      if records[i].sourceTerm < currentTerm {
        return Err(Conflict);
      }
      if records[i].sourceLsn > lsn {
        PrefixedSnoc(taken, records[i], Validate(records[i].sourceTerm, records[i].sourceLsn, records[i + 1..]));
        currentTerm, lsn, taken := records[i].sourceTerm, records[i].sourceLsn, taken + [records[i]];
      }
    }
    assert taken + [] == taken;
    r := Ok(taken);
  }

  /** The engine's graph after the records it accepts; `ok` tells whether it took them all. */
  method ApplyRecords(g: Graph, records: seq<Record>) returns (live: Graph, ok: bool)
    ensures (live, ok) == ApplyAll(g, records)
  {
    live := g;
    assert records[0..] == records;
    for i := 0 to |records|
      invariant ApplyAll(live, records[i..]) == ApplyAll(g, records)
    {
      assert records[i..][1..] == records[i + 1..];
      if !Accepted(live, records[i].batch) {
        return live, false;
      }
      live := ApplyBatchToMaps(live, records[i].batch);
    }
    ok := true;
  }

  /** A database node that takes part in replication. */
  class Replica {
    var live: Graph
    const replication: ReplicationManager

    function Value(): State
      reads this, replication
    {
      State(live, replication.currentTerm, replication.lastAppliedSourceLsn)
    }

    constructor (live: Graph, localNode: string)
      ensures Value() == State(live, 0, 0) && fresh(replication)
    {
      this.live := live;
      replication := new ReplicationManager(localNode);
    }

    /** `apply_replication_records` is `Deliver`. */
    method ApplyReplicationRecords(records: seq<Record>) returns (r: Result<()>)
      modifies this, replication
      ensures r.Ok? <==> old(replication.mode).Follower? && Deliver(old(Value()), records).1
      ensures Value() == if old(replication.mode).Follower? then Deliver(old(Value()), records).0 else old(Value())
    {
      if !replication.mode.Follower? {
        return Err(Conflict);
      }
      var taken := ValidateRecords(replication.currentTerm, replication.lastAppliedSourceLsn, records);
      if taken.Err? {
        return Err(Conflict);
      }
      var ok;
      live, ok := ApplyRecords(live, taken.value);
      if !ok {
        return Err(Validation);
      }
      TakenIsTaken(replication.currentTerm, replication.lastAppliedSourceLsn, records);
      FollowAsValidated(replication.Progress(), None, taken.value);
      var _ := replication.ApplyFollowerRecords(taken.value);
      r := Ok(());
    }
  }
}
