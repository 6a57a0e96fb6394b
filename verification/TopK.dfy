/** The bounded heap of ranked results (crates/query, `push_top_ranked_result`). */
module TopK {
  import opened Core

  datatype Ranked = Ranked(node: NodeRecord, score: real)

  // ---------------------------------------------------------------- the order

  predicate LexLess(a: string, b: string) {
    b != "" && (a == "" || a[0] < b[0] || (a[0] == b[0] && LexLess(a[1..], b[1..])))
  }

  /** `RankedHeapEntry::cmp` is `Less`: a higher score, or the same score and a smaller id. */
  predicate Better(a: Ranked, b: Ranked) {
    a.score > b.score || (a.score == b.score && LexLess(a.node.id, b.node.id))
  }

  lemma {:induction false} LexTotal(a: string, b: string)
    ensures a == b || LexLess(a, b) || LexLess(b, a)
    ensures !(LexLess(a, b) && LexLess(b, a)) && !LexLess(a, a)
  {
    if a != "" && b != "" && a[0] == b[0] {
      LexTotal(a[1..], b[1..]);
      assert a == [a[0]] + a[1..] && b == [b[0]] + b[1..];
    }
    if a != "" {
      LexTotal(a[1..], a[1..]);
    }
  }

  lemma {:induction false} LexTransitive(a: string, b: string, c: string)
    requires LexLess(a, b) && LexLess(b, c)
    ensures LexLess(a, c)
  {
    if a != "" && a[0] == b[0] && b[0] == c[0] {
      LexTransitive(a[1..], b[1..], c[1..]);
    }
  }

  /** An id comes before another if it is a proper prefix of it, or has the smaller character
      where they first differ. */
  ghost predicate IdFirst(a: string, b: string) {
    || (|a| < |b| && b[..|a|] == a)
    || exists i :: 0 <= i < |a| && i < |b| && a[..i] == b[..i] && a[i] < b[i]
  }

  lemma SamePrefix(a: string, b: string, i: nat)
    requires a != "" && b != "" && a[0] == b[0] && i < |a| && i < |b|
    ensures a[1..][..i] == b[1..][..i] <==> a[..i + 1] == b[..i + 1]
  {
    assert a[..i + 1] == [a[0]] + a[1..][..i] && b[..i + 1] == [b[0]] + b[1..][..i];
    assert a[..i + 1][1..] == a[1..][..i] && b[..i + 1][1..] == b[1..][..i];
  }

  lemma DifferAfterHead(a: string, b: string, i: nat)
    requires a != "" && b != "" && a[0] == b[0] && i < |a| && i < |b| && a[..i] == b[..i] && a[i] < b[i]
    ensures IdFirst(a[1..], b[1..])
  {
    SamePrefix(a, b, i - 1);
    assert a[1..][i - 1] == a[i] && b[1..][i - 1] == b[i];
  }

  lemma PrefixAfterHead(a: string, b: string)
    requires a != "" && b != "" && a[0] == b[0]
    ensures IdFirst(a, b) <==> IdFirst(a[1..], b[1..])
  {
    if |a| < |b| {
      SamePrefix(a, b, |a| - 1);
      assert a[1..][..|a| - 1] == a[1..] && a[..|a|] == a;
    }
    if IdFirst(a, b) && !(|a| < |b| && b[..|a|] == a) {
      var i :| 0 <= i < |a| && i < |b| && a[..i] == b[..i] && a[i] < b[i];
      DifferAfterHead(a, b, i);
    }
    if IdFirst(a[1..], b[1..]) && !(|a| < |b| && b[1..][..|a| - 1] == a[1..]) {
      var i :| 0 <= i < |a| - 1 && i < |b| - 1 && a[1..][..i] == b[1..][..i] && a[1..][i] < b[1..][i];
      SamePrefix(a, b, i);
      assert a[i + 1] < b[i + 1];
    }
  }

  lemma {:induction false} LexIsIdFirst(a: string, b: string)
    ensures LexLess(a, b) <==> IdFirst(a, b)
  {
    if a == "" || b == "" {
      assert b[..0] == "";
    } else if a[0] == b[0] {
      PrefixAfterHead(a, b);
      LexIsIdFirst(a[1..], b[1..]);
    } else {
      assert a[..0] == b[..0];
      HeadsDiffer(a, b);
    }
  }

  lemma HeadsDiffer(a: string, b: string)
    requires a != "" && b != "" && a[0] != b[0]
    ensures IdFirst(a, b) <==> a[0] < b[0]
  {
    assert a[..0] == b[..0];
    forall i | 0 < i < |a| && i < |b| ensures a[..i] != b[..i] {
      assert a[..i][0] == a[0] && b[..i][0] == b[0];
    }
    assert |a| < |b| ==> b[..|a|][0] == b[0];
  }

  /** On results with different ids, `Better` is a strict total order. */
  lemma BetterTotal(a: Ranked, b: Ranked)
    ensures a.node.id == b.node.id || Better(a, b) || Better(b, a)
    ensures !(Better(a, b) && Better(b, a))
  {
    LexTotal(a.node.id, b.node.id);
  }

  lemma BetterTransitive(a: Ranked, b: Ranked, c: Ranked)
    requires Better(a, b) && Better(b, c)
    ensures Better(a, c)
  {
    if a.score == b.score && b.score == c.score {
      LexTransitive(a.node.id, b.node.id, c.node.id);
    }
  }

  // ---------------------------------------------------------------- sorting

  ghost predicate DistinctIds(c: set<Ranked>) {
    forall a, b | a in c && b in c && a != b :: a.node.id != b.node.id
  }

  ghost predicate AboveAll(x: Ranked, s: seq<Ranked>) {
    forall y | y in s :: Better(x, y)
  }

  ghost predicate Sorted(s: seq<Ranked>) {
    s == [] || (AboveAll(s[0], s[1..]) && Sorted(s[1..]))
  }

  function Insert(x: Ranked, s: seq<Ranked>): seq<Ranked> {
    if s == [] then [x] else if Better(x, s[0]) then [x] + s else [s[0]] + Insert(x, s[1..])
  }

  /** `sort_ranked_results`: the candidates from best to worst. */
  function Sort(s: seq<Ranked>): seq<Ranked> {
    if s == [] then [] else Insert(s[0], Sort(s[1..]))
  }

  lemma {:induction false} InsertMembers(x: Ranked, s: seq<Ranked>)
    ensures multiset(Insert(x, s)) == multiset(s) + multiset{x}
  {
    if s != [] {
      assert s == [s[0]] + s[1..];
      if !Better(x, s[0]) {
        InsertMembers(x, s[1..]);
      }
    }
  }

  lemma SameMembers<T>(a: seq<T>, b: seq<T>)
    requires multiset(a) == multiset(b)
    ensures SetOf(a) == SetOf(b) && |a| == |b|
  {
    assert |a| == |multiset(a)| && |b| == |multiset(b)|;
    forall x ensures x in a <==> x in b {
      assert x in a <==> x in multiset(a);
      assert x in b <==> x in multiset(b);
    }
  }

  lemma {:induction false} InsertSorted(x: Ranked, s: seq<Ranked>)
    requires Sorted(s) && forall y | y in s :: y.node.id != x.node.id
    ensures Sorted(Insert(x, s))
  {
    if s != [] {
      BetterTotal(x, s[0]);
      if Better(x, s[0]) {
        forall y | y in s[1..] ensures Better(x, y) {
          BetterTransitive(x, s[0], y);
        }
      } else {
        InsertSorted(x, s[1..]);
        InsertMembers(x, s[1..]);
        forall y | y in Insert(x, s[1..]) ensures Better(s[0], y) {
          assert y in multiset(Insert(x, s[1..]));
          assert y in s[1..] || y == x;
        }
      }
    }
  }

  lemma {:induction false} SortMembers(s: seq<Ranked>)
    ensures multiset(Sort(s)) == multiset(s)
  {
    if s != [] {
      SortMembers(s[1..]);
      InsertMembers(s[0], Sort(s[1..]));
      assert s == [s[0]] + s[1..];
    }
  }

  /** Candidates with different ids, none listed twice. */
  ghost predicate Distinct(s: seq<Ranked>) {
    s == [] || ((forall y | y in s[1..] :: y.node.id != s[0].node.id) && Distinct(s[1..]))
  }

  lemma {:induction false} SortSorted(s: seq<Ranked>)
    requires Distinct(s)
    ensures Sorted(Sort(s))
  {
    if s != [] {
      SortSorted(s[1..]);
      SortMembers(s[1..]);
      SameMembers(Sort(s[1..]), s[1..]);
      forall y | y in Sort(s[1..]) ensures y.node.id != s[0].node.id {
        assert y in SetOf(Sort(s[1..]));
      }
      InsertSorted(s[0], Sort(s[1..]));
    }
  }

  lemma HeadIsBest(s: seq<Ranked>, x: Ranked)
    requires Sorted(s) && x in s
    ensures x == s[0] || Better(s[0], x)
  {
    if x != s[0] {
      assert x in s[1..];
    }
  }

  lemma HeadNotBelow(s: seq<Ranked>)
    requires Sorted(s) && s != []
    ensures s[0] !in s[1..]
  {
    BetterTotal(s[0], s[0]);
  }

  lemma TailSet(s: seq<Ranked>)
    requires Sorted(s) && s != []
    ensures SetOf(s[1..]) == SetOf(s) - {s[0]}
  {
    HeadNotBelow(s);
    assert s == [s[0]] + s[1..];
  }

  lemma HeadInSet(s: seq<Ranked>)
    ensures s == [] || s[0] in SetOf(s)
  {
  }

  /** Only one sequence lists a set from best to worst. */
  lemma {:induction false} SortedUnique(a: seq<Ranked>, b: seq<Ranked>)
    requires Sorted(a) && Sorted(b) && SetOf(a) == SetOf(b)
    ensures a == b
  {
    HeadInSet(a);
    HeadInSet(b);
    if a != [] {
      HeadIsBest(a, b[0]);
      HeadIsBest(b, a[0]);
      BetterTotal(a[0], b[0]);
      TailSet(a);
      TailSet(b);
      SortedUnique(a[1..], b[1..]);
      assert a == [a[0]] + a[1..] && b == [b[0]] + b[1..];
    }
  }

  // ---------------------------------------------------------------- the best of a set

  /** `h` holds the best `limit` members of `c`. */
  ghost predicate Best(limit: nat, c: set<Ranked>, h: set<Ranked>) {
    h <= c && |h| == Smaller(limit, |c|) && forall a, b | a in h && b in c - h :: Better(a, b)
  }

  lemma NotSubset<T>(a: set<T>, b: set<T>) returns (x: T)
    requires |a| == |b| && a != b
    ensures x in a && x !in b
  {
    if a <= b {
      SubsetCount(a, b);
    }
    x :| x in a && x !in b;
  }

  lemma BestUnique(limit: nat, c: set<Ranked>, h: set<Ranked>, p: set<Ranked>)
    requires Best(limit, c, h) && Best(limit, c, p)
    ensures h == p
  {
    if h != p {
      var a := NotSubset(h, p);
      var b := NotSubset(p, h);
      assert Better(a, b) && Better(b, a);
      BetterTotal(a, b);
    }
  }

  lemma BestRoom(limit: nat, c: set<Ranked>, h: set<Ranked>, x: Ranked)
    requires Best(limit, c, h) && x !in c && |h| < limit
    ensures Best(limit, c + {x}, h + {x})
  {
    SubsetCount(h, c);
  }

  ghost predicate Worst(h: set<Ranked>, w: Ranked) {
    w in h && forall a | a in h && a != w :: Better(a, w)
  }

  lemma BestReplace(limit: nat, c: set<Ranked>, h: set<Ranked>, x: Ranked, w: Ranked)
    requires Best(limit, c, h) && x !in c && |h| >= limit && Worst(h, w) && Better(x, w)
    ensures Best(limit, c + {x}, h - {w} + {x})
  {
    var h' := h - {w} + {x};
    assert |h'| == |h|;
    forall a, b | a in h' && b in c + {x} - h' ensures Better(a, b) {
      if a == x && b != w {
        assert Better(w, b);
        BetterTransitive(x, w, b);
      }
    }
  }

  lemma BestKeep(limit: nat, c: set<Ranked>, h: set<Ranked>, x: Ranked, w: Ranked)
    requires Best(limit, c, h) && x !in c && |h| >= limit && Worst(h, w) && Better(w, x)
    ensures Best(limit, c + {x}, h)
  {
    forall a, b | a in h && b in c + {x} - h ensures Better(a, b) {
      if b == x && a != w {
        BetterTransitive(a, w, x);
      }
    }
  }

  lemma BestNone(c: set<Ranked>)
    ensures Best(0, c, {})
  {
  }

  // ---------------------------------------------------------------- the heap

  /** `peek`: the position of the worst entry. The heap's inner arrangement is not modelled. */
  method PeekWorst(heap: seq<Ranked>) returns (k: nat)
    requires heap != [] && DistinctIds(SetOf(heap))
    ensures k < |heap| && Worst(SetOf(heap), heap[k])
  {
    k := 0;
    for i := 1 to |heap|
      invariant k < i && Worst(SetOf(heap[..i]), heap[k])
    {
      assert heap[..i + 1] == heap[..i] + [heap[i]];
      if Better(heap[k], heap[i]) {
        forall a | a in SetOf(heap[..i]) && a != heap[k] ensures Better(a, heap[i]) {
          BetterTransitive(a, heap[k], heap[i]);
        }
        k := i;
      } else {
        assert heap[k] in SetOf(heap) && heap[i] in SetOf(heap);
        BetterTotal(heap[k], heap[i]);
      }
    }
    assert heap[..|heap|] == heap;
  }

  lemma PushSet<T>(s: seq<T>, x: T)
    ensures SetOf(s + [x]) == SetOf(s) + {x}
  {
  }

  lemma {:induction false} CountAtMost<T>(s: seq<T>)
    ensures |SetOf(s)| <= |s|
  {
    if s != [] {
      CountAtMost(s[..|s| - 1]);
      PushSet(s[..|s| - 1], s[|s| - 1]);
      assert s == s[..|s| - 1] + [s[|s| - 1]];
    }
  }

  lemma RemoveAtSet<T>(s: seq<T>, k: nat)
    requires k < |s| && NoRepeats(s)
    ensures SetOf(s[..k] + s[k + 1..]) == SetOf(s) - {s[k]} && NoRepeats(s[..k] + s[k + 1..])
  {
    var rest := s[..k] + s[k + 1..];
    assert SetOf(s) == SetOf(rest) + {s[k]} by {
      assert s == s[..k] + [s[k]] + s[k + 1..];
    }
    CountAtMost(rest);
  }

  /** `push_top_ranked_result`. */
  method PushTop(heap: seq<Ranked>, limit: nat, x: Ranked, ghost seen: set<Ranked>) returns (heap': seq<Ranked>)
    requires Best(limit, seen, SetOf(heap)) && NoRepeats(heap) && x !in seen && DistinctIds(seen + {x})
    ensures Best(limit, seen + {x}, SetOf(heap')) && NoRepeats(heap')
  {
    if limit == 0 {
      assert SetOf(heap) == {};
      BestNone(seen + {x});
      return heap;
    }
    PushSet(heap, x);
    if |heap| < limit {
      BestRoom(limit, seen, SetOf(heap), x);
      return heap + [x];
    }
    var k := PeekWorst(heap);
    BetterTotal(x, heap[k]);
    if Better(x, heap[k]) {
      BestReplace(limit, seen, SetOf(heap), x, heap[k]);
      RemoveAtSet(heap, k);
      var rest := heap[..k] + heap[k + 1..];
      PushSet(rest, x);
      return rest + [x];
    }
    BestKeep(limit, seen, SetOf(heap), x, heap[k]);
    return heap;
  }

  // ---------------------------------------------------------------- the whole ranking

  lemma {:induction false} DistinctSplit(s: seq<Ranked>, i: nat, y: Ranked)
    requires Distinct(s) && i < |s| && y in s[..i]
    ensures y.node.id != s[i].node.id
  {
    if y == s[0] {
      assert s[i] == s[1..][i - 1];
    } else {
      assert s[..i] == [s[0]] + s[1..][..i - 1];
      DistinctSplit(s[1..], i - 1, y);
    }
  }

  lemma {:induction false} DistinctPrefix(s: seq<Ranked>, i: nat)
    requires Distinct(s) && i <= |s|
    ensures NoRepeats(s[..i]) && DistinctIds(SetOf(s[..i]))
  {
    if i > 0 {
      DistinctPrefix(s, i - 1);
      assert s[..i] == s[..i - 1] + [s[i - 1]];
      PushSet(s[..i - 1], s[i - 1]);
      forall y | y in s[..i - 1] ensures y.node.id != s[i - 1].node.id {
        DistinctSplit(s, i - 1, y);
      }
    }
  }

  lemma {:induction false} PrefixAboveRest(s: seq<Ranked>, m: nat, a: Ranked, b: Ranked)
    requires Sorted(s) && m <= |s| && a in s[..m] && b in s[m..]
    ensures Better(a, b)
  {
    if a == s[0] {
      assert b in s[1..];
    } else {
      assert s[..m] == [s[0]] + s[1..][..m - 1];
      PrefixAboveRest(s[1..], m - 1, a, b);
    }
  }

  lemma {:induction false} SortedPrefix(s: seq<Ranked>, m: nat)
    requires Sorted(s) && m <= |s|
    ensures Sorted(s[..m]) && NoRepeats(s[..m])
  {
    if m > 0 {
      SortedPrefix(s[1..], m - 1);
      assert s[..m] == [s[0]] + s[1..][..m - 1];
      HeadNotBelow(s);
      assert SetOf(s[..m]) == {s[0]} + SetOf(s[1..][..m - 1]);
    }
  }

  /** The first entries of the full sort are the best ones. */
  lemma PrefixIsBest(s: seq<Ranked>, limit: nat)
    requires Sorted(s)
    ensures Best(limit, SetOf(s), SetOf(s[..Smaller(limit, |s|)]))
  {
    var m := Smaller(limit, |s|);
    SortedPrefix(s, m);
    SortedPrefix(s, |s|);
    assert s[..|s|] == s && s == s[..m] + s[m..];
    forall a, b | a in SetOf(s[..m]) && b in SetOf(s) - SetOf(s[..m]) ensures Better(a, b) {
      PrefixAboveRest(s, m, a, b);
    }
  }

  /** Any heap holding the best entries sorts to the front of the full sort. */
  lemma HeapIsPrefix(candidates: seq<Ranked>, limit: nat, heap: seq<Ranked>)
    requires Distinct(candidates) && Distinct(heap) && Best(limit, SetOf(candidates), SetOf(heap))
    ensures Sort(heap) == Sort(candidates)[..Smaller(limit, |Sort(candidates)|)]
  {
    var full := Sort(candidates);
    SortSorted(candidates);
    SortMembers(candidates);
    SameMembers(full, candidates);
    SortSorted(heap);
    SortMembers(heap);
    SameMembers(Sort(heap), heap);
    PrefixIsBest(full, limit);
    var front := full[..Smaller(limit, |full|)];
    SortedPrefix(full, Smaller(limit, |full|));
    BestUnique(limit, SetOf(candidates), SetOf(heap), SetOf(front));
    SortedUnique(Sort(heap), front);
  }

  lemma {:induction false} NoRepeatsDistinct(s: seq<Ranked>)
    requires NoRepeats(s) && DistinctIds(SetOf(s))
    ensures Distinct(s)
  {
    if s != [] {
      assert s[..0] + s[1..] == s[1..];
      RemoveAtSet(s, 0);
      NoRepeatsDistinct(s[1..]);
      forall y | y in s[1..] ensures y.node.id != s[0].node.id {
        assert y in SetOf(s[1..]);
        assert y in SetOf(s) && s[0] in SetOf(s);
      }
    }
  }

  lemma SubsetDistinct(c: set<Ranked>, h: set<Ranked>)
    requires h <= c && DistinctIds(c)
    ensures DistinctIds(h)
  {
  }

  /** Push every candidate, then finish. */
  method PushAll(candidates: seq<Ranked>, limit: nat) returns (top: seq<Ranked>)
    requires Distinct(candidates)
    ensures top == Sort(candidates)[..Smaller(limit, |Sort(candidates)|)]
  {
    var heap: seq<Ranked> := [];
    for i := 0 to |candidates|
      invariant Best(limit, SetOf(candidates[..i]), SetOf(heap)) && NoRepeats(heap)
    {
      DistinctPrefix(candidates, i + 1);
      DistinctPrefix(candidates, i);
      assert candidates[..i + 1] == candidates[..i] + [candidates[i]];
      PushSet(candidates[..i], candidates[i]);
      heap := PushTop(heap, limit, candidates[i], SetOf(candidates[..i]));
    }
    assert candidates[..|candidates|] == candidates;
    DistinctPrefix(candidates, |candidates|);
    SubsetDistinct(SetOf(candidates), SetOf(heap));
    NoRepeatsDistinct(heap);
    HeapIsPrefix(candidates, limit, heap);
    top := Sort(heap);
  }

  /** The ranking: pushing all and finishing is sorting everything and taking `limit`; what is
      returned is listed by falling scores and, within a score, by id, and nothing left out
      belongs before it. */
  method RankTop(candidates: seq<Ranked>, limit: nat) returns (top: seq<Ranked>)
    requires Distinct(candidates)
    ensures top == Sort(candidates)[..Smaller(limit, |Sort(candidates)|)]
    ensures |top| == (if limit < |candidates| then limit else |candidates|) && forall x | x in top :: x in candidates
    ensures forall i, j | 0 <= i < j < |top| ::
              || top[i].score > top[j].score
              || (top[i].score == top[j].score && IdFirst(top[i].node.id, top[j].node.id))
    ensures forall x, y | x in top && y in candidates && y !in top ::
              x.score > y.score || (x.score == y.score && IdFirst(x.node.id, y.node.id))
  {
    top := PushAll(candidates, limit);
    TopOrder(candidates, limit, top);
  }

  lemma {:induction false} SortedAt(s: seq<Ranked>, i: nat, j: nat)
    requires Sorted(s) && i < j < |s|
    ensures Better(s[i], s[j])
  {
    if i == 0 {
      assert s[j] in s[1..];
    } else {
      SortedAt(s[1..], i - 1, j - 1);
    }
  }

  /** `Better`, by scores and ids. */
  lemma BetterIs(a: Ranked, b: Ranked)
    ensures Better(a, b) <==> a.score > b.score || (a.score == b.score && IdFirst(a.node.id, b.node.id))
  {
    LexIsIdFirst(a.node.id, b.node.id);
  }

  lemma TopMembers(candidates: seq<Ranked>, limit: nat, top: seq<Ranked>)
    requires top == Sort(candidates)[..Smaller(limit, |Sort(candidates)|)]
    ensures |top| == (if limit < |candidates| then limit else |candidates|) && forall x | x in top :: x in candidates
    ensures forall x | x in candidates && x !in top :: x in Sort(candidates)[|top|..]
  {
    var full := Sort(candidates);
    SortMembers(candidates);
    SameMembers(full, candidates);
    forall x ensures x in full <==> x in candidates {
      assert x in SetOf(full) <==> x in SetOf(candidates);
    }
    assert full == top + full[|top|..];
  }

  lemma TopPair(candidates: seq<Ranked>, m: nat, i: nat, j: nat)
    requires Distinct(candidates) && i < j < m <= |Sort(candidates)|
    ensures var x, y := Sort(candidates)[..m][i], Sort(candidates)[..m][j];
            x.score > y.score || (x.score == y.score && IdFirst(x.node.id, y.node.id))
  {
    SortSorted(candidates);
    SortedAt(Sort(candidates), i, j);
    BetterIs(Sort(candidates)[i], Sort(candidates)[j]);
  }

  lemma TopAndRest(candidates: seq<Ranked>, m: nat, x: Ranked, y: Ranked)
    requires Distinct(candidates) && m <= |Sort(candidates)| && x in Sort(candidates)[..m] && y in Sort(candidates)[m..]
    ensures x.score > y.score || (x.score == y.score && IdFirst(x.node.id, y.node.id))
  {
    SortSorted(candidates);
    PrefixAboveRest(Sort(candidates), m, x, y);
    BetterIs(x, y);
  }

  /** The front of the full sort, by scores and ids. */
  lemma TopOrder(candidates: seq<Ranked>, limit: nat, top: seq<Ranked>)
    requires Distinct(candidates) && top == Sort(candidates)[..Smaller(limit, |Sort(candidates)|)]
    ensures |top| == (if limit < |candidates| then limit else |candidates|) && forall x | x in top :: x in candidates
    ensures forall i, j | 0 <= i < j < |top| ::
              || top[i].score > top[j].score
              || (top[i].score == top[j].score && IdFirst(top[i].node.id, top[j].node.id))
    ensures forall x, y | x in top && y in candidates && y !in top ::
              x.score > y.score || (x.score == y.score && IdFirst(x.node.id, y.node.id))
  {
    TopMembers(candidates, limit, top);
    TopDescends(candidates, |top|, top);
    TopOutranks(candidates, |top|, top);
  }

  lemma TopDescends(candidates: seq<Ranked>, m: nat, top: seq<Ranked>)
    requires Distinct(candidates) && m <= |Sort(candidates)| && top == Sort(candidates)[..m]
    ensures forall i, j | 0 <= i < j < m ::
              || top[i].score > top[j].score
              || (top[i].score == top[j].score && IdFirst(top[i].node.id, top[j].node.id))
  {
    forall i, j | 0 <= i < j < m
      ensures || top[i].score > top[j].score
              || (top[i].score == top[j].score && IdFirst(top[i].node.id, top[j].node.id))
    {
      TopPair(candidates, m, i, j);
    }
  }

  lemma TopOutranks(candidates: seq<Ranked>, m: nat, top: seq<Ranked>)
    requires Distinct(candidates) && m <= |Sort(candidates)| && top == Sort(candidates)[..m]
    ensures forall x, y | x in top && y in Sort(candidates)[m..] ::
              x.score > y.score || (x.score == y.score && IdFirst(x.node.id, y.node.id))
  {
    forall x, y | x in top && y in Sort(candidates)[m..]
      ensures x.score > y.score || (x.score == y.score && IdFirst(x.node.id, y.node.id))
    {
      TopAndRest(candidates, m, x, y);
    }
  }

  /** The ranking does not depend on the order in which the candidates arrive. */
  lemma ArrivalOrderIrrelevant(a: seq<Ranked>, b: seq<Ranked>)
    requires Distinct(a) && Distinct(b) && multiset(a) == multiset(b)
    ensures Sort(a) == Sort(b)
  {
    SortSorted(a);
    SortSorted(b);
    SortMembers(a);
    SortMembers(b);
    SameMembers(Sort(a), Sort(b));
    SortedUnique(Sort(a), Sort(b));
  }
}
