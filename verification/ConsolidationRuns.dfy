/** What a whole consolidation makes of every node (crates/storage, `run_consolidation`). */
module ConsolidationRuns {
  import opened Core
  import opened Log
  import opened Index
  import opened TopK
  import opened Consolidation

  // ---------------------------------------------------------------- what the records call for

  /** Two nodes of one type with the same unique key. */
  ghost predicate SameKey(a: NodeRecord, b: NodeRecord) {
    && a.nodeType == b.nodeType && "unique_key" in a.properties && "unique_key" in b.properties
    && a.properties["unique_key"].StringValue? && a.properties["unique_key"] == b.properties["unique_key"]
  }

  /** `p` is the node with the smallest id that shares type and unique key with another node `k`. */
  ghost predicate DuplicateOf(g: Graph, k: NodeId, p: NodeId) {
    && k in g.nodes && p in g.nodes && p != k && SameKey(g.nodes[p], g.nodes[k])
    && forall q | q in g.nodes && SameKey(g.nodes[q], g.nodes[k]) :: q == p || IdFirst(p, q)
  }

  ghost predicate NoEdgeAt(edges: seq<EdgeRecord>, k: NodeId) {
    forall e | e in edges :: e.source != k && e.target != k
  }

  /** The timestamp of the node lies more than thirty days back. */
  ghost predicate Outdated(n: NodeRecord, now: int) {
    && "timestamp" in n.properties
    && match n.properties["timestamp"]
       case Integer(i) => now - i > 2592000000
       case Float(f) => now - ToI64(f) > 2592000000
       case _ => false
  }

  /** Half of the importance of a node, half of 0.5 if it has none. */
  ghost function HalfImportance(n: NodeRecord): real {
    if "importance" !in n.properties then 0.25
    else match n.properties["importance"]
      case Integer(i) => i as real / 2.0
      case Float(f) => f / 2.0
      case _ => 0.25
  }

  /** What a run of events has made of a node `n`, given what it was demoted, archived and merged
      for: its properties and nothing else, and no other property. */
  ghost predicate Became(n: NodeRecord, m: NodeRecord, demoted: bool, archived: bool, into: Option<NodeId>) {
    && m.id == n.id && m.nodeType == n.nodeType && m.vectors == n.vectors
    && Get(m.properties, "importance") ==
       (if demoted then Some(Float(HalfImportance(n))) else Get(n.properties, "importance"))
    && Get(m.properties, "archived") ==
       (if archived || into.Some? then Some(Boolean(true)) else Get(n.properties, "archived"))
    && Get(m.properties, "merged_into") ==
       (if into.Some? then Some(StringValue(into.value)) else Get(n.properties, "merged_into"))
    && forall x | x !in {"importance", "archived", "merged_into"} :: Get(m.properties, x) == Get(n.properties, x)
  }

  // ---------------------------------------------------------------- one node through a run

  /** What one event makes of a node. */
  function Changed(n: NodeRecord, e: Event): NodeRecord {
    match e.action
    case Merge => if n.id in e.related then Merged(n, e.target) else n
    case Demote => if n.id == e.target then Demoted(n) else n
    case Archive => if n.id == e.target then Archived(n) else n
    case Link => n
  }

  function ChangedByAll(n: NodeRecord, events: seq<Event>): NodeRecord {
    if events == [] then n else Changed(ChangedByAll(n, events[..|events| - 1]), events[|events| - 1])
  }

  lemma {:induction false} MergeNodesAt(nodes: map<NodeId, NodeRecord>, ids: seq<NodeId>, target: NodeId, k: NodeId)
    requires forall x | x in nodes :: nodes[x].id == x
    ensures Get(NodesById(MergeNodes(nodes, ids, target)), k) ==
            if k in nodes && k in ids then Some(Merged(nodes[k], target)) else None
  {
    if ids != [] {
      var front, last := ids[..|ids| - 1], ids[|ids| - 1];
      MergeNodesAt(nodes, front, target, k);
      assert ids == front + [last];
      if last in nodes {
        var s := MergeNodes(nodes, front, target);
        assert (s + [Merged(nodes[last], target)])[..|s|] == s;
      }
    }
  }

  lemma OneById(n: NodeRecord)
    ensures NodesById([n]) == map[n.id := n] && NodesById([]) == map[]
  {
    assert [n][..0] == [];
  }

  lemma ForwardAt(e: Event, nodes: map<NodeId, NodeRecord>, k: NodeId)
    requires (forall x | x in nodes :: nodes[x].id == x) && k in nodes
    ensures Get(nodes + NodesById(Forward(e, nodes).nodesUpserted), k) == Some(Changed(nodes[k], e))
  {
    match e.action
    case Merge => MergeNodesAt(nodes, e.related, e.target, k);
    case Demote => if e.target in nodes { OneById(Demoted(nodes[e.target])); }
    case Archive => if e.target in nodes { OneById(Archived(nodes[e.target])); }
    case Link =>
  }

  lemma {:induction false} RunAt(g: Graph, events: seq<Event>, k: NodeId)
    requires Sound(g) && k in g.nodes
    ensures Get(RunEvents(g, events).nodes, k) == Some(ChangedByAll(g.nodes[k], events))
  {
    if events != [] {
      var front, e := events[..|events| - 1], events[|events| - 1];
      RunAt(g, front, k);
      RunChangesOnlyAffected(g, front);
      var h := RunEvents(g, front);
      ForwardAt(e, h.nodes, k);
      UpsertingChanges(h, Forward(e, h.nodes).nodesUpserted);
    }
  }

  // ---------------------------------------------------------------- what the events say of a node

  ghost predicate Demotes(events: seq<Event>, k: NodeId) {
    exists e :: e in events && e.action.Demote? && e.target == k
  }

  ghost predicate Archives(events: seq<Event>, k: NodeId) {
    exists e :: e in events && e.action.Archive? && e.target == k
  }

  ghost predicate Merges(events: seq<Event>, k: NodeId, p: NodeId) {
    exists e :: e in events && e.action.Merge? && k in e.related && e.target == p
  }

  /** A node is demoted at most once, and merged into at most one other. */
  ghost predicate Unambiguous(events: seq<Event>, k: NodeId) {
    && (forall i, j | 0 <= i < j < |events| && events[i].action.Demote? && events[j].action.Demote? ::
          !(events[i].target == events[j].target == k))
    && (forall p, q | Merges(events, k, p) && Merges(events, k, q) :: p == q)
  }

  ghost function Into(events: seq<Event>, k: NodeId): Option<NodeId> {
    if p :| Merges(events, k, p) then Some(p) else None
  }

  lemma LastOf(events: seq<Event>, e: Event)
    requires events != []
    ensures e in events <==> e in events[..|events| - 1] || e == events[|events| - 1]
  {
    assert events == events[..|events| - 1] + [events[|events| - 1]];
  }

  lemma FrontUnambiguous(events: seq<Event>, k: NodeId)
    requires events != [] && Unambiguous(events, k)
    ensures Unambiguous(events[..|events| - 1], k)
  {
    var front := events[..|events| - 1];
    forall p | Merges(front, k, p) ensures Merges(events, k, p) {
      var e :| e in front && e.action.Merge? && k in e.related && e.target == p;
      LastOf(events, e);
    }
  }

  lemma DemotesLast(events: seq<Event>, k: NodeId)
    requires events != [] && Unambiguous(events, k)
    ensures var front, e := events[..|events| - 1], events[|events| - 1];
            && (Demotes(events, k) <==> Demotes(front, k) || (e.action.Demote? && e.target == k))
            && !(Demotes(front, k) && e.action.Demote? && e.target == k)
  {
    var front := events[..|events| - 1];
    forall e ensures e in events <==> e in front || e == events[|events| - 1] {
      LastOf(events, e);
    }
    if Demotes(front, k) {
      var e :| e in front && e.action.Demote? && e.target == k;
      var i :| 0 <= i < |front| && front[i] == e;
      assert events[i] == e;
    }
  }

  lemma ArchivesLast(events: seq<Event>, k: NodeId)
    requires events != []
    ensures var front, e := events[..|events| - 1], events[|events| - 1];
            Archives(events, k) <==> Archives(front, k) || (e.action.Archive? && e.target == k)
  {
    forall e ensures e in events <==> e in events[..|events| - 1] || e == events[|events| - 1] {
      LastOf(events, e);
    }
  }

  lemma MergesLast(events: seq<Event>, k: NodeId, p: NodeId)
    requires events != []
    ensures var front, e := events[..|events| - 1], events[|events| - 1];
            Merges(events, k, p) <==> Merges(front, k, p) || (e.action.Merge? && k in e.related && e.target == p)
  {
    forall e ensures e in events <==> e in events[..|events| - 1] || e == events[|events| - 1] {
      LastOf(events, e);
    }
  }

  lemma IntoIs(events: seq<Event>, k: NodeId, p: NodeId)
    requires Unambiguous(events, k) && Merges(events, k, p)
    ensures Into(events, k) == Some(p)
  {
  }

  lemma IntoLast(events: seq<Event>, k: NodeId)
    requires events != [] && Unambiguous(events, k)
    ensures var front, e := events[..|events| - 1], events[|events| - 1];
            Into(events, k) == if e.action.Merge? && k in e.related then Some(e.target) else Into(front, k)
  {
    var front, e := events[..|events| - 1], events[|events| - 1];
    FrontUnambiguous(events, k);
    if e.action.Merge? && k in e.related {
      MergesLast(events, k, e.target);
      IntoIs(events, k, e.target);
    } else {
      forall p ensures Merges(events, k, p) <==> Merges(front, k, p) {
        MergesLast(events, k, p);
      }
      if p :| Merges(front, k, p) {
        IntoIs(front, k, p);
        IntoIs(events, k, p);
      }
    }
  }

  lemma BecameNext(n: NodeRecord, m: NodeRecord, e: Event, demoted: bool, archived: bool, into: Option<NodeId>)
    requires Became(n, m, demoted, archived, into)
    requires !(demoted && e.action.Demote? && e.target == n.id)
    ensures Became(n, Changed(m, e), demoted || (e.action.Demote? && e.target == n.id),
                   archived || (e.action.Archive? && e.target == n.id),
                   if e.action.Merge? && n.id in e.related then Some(e.target) else into)
  {
    if e.action.Demote? && e.target == n.id {
      assert Get(m.properties, "importance") == Get(n.properties, "importance");
    }
  }

  lemma {:induction false} NodeBecomes(n: NodeRecord, events: seq<Event>)
    requires Unambiguous(events, n.id)
    ensures Became(n, ChangedByAll(n, events), Demotes(events, n.id), Archives(events, n.id), Into(events, n.id))
  {
    if events != [] {
      var front := events[..|events| - 1];
      FrontUnambiguous(events, n.id);
      NodeBecomes(n, front);
      DemotesLast(events, n.id);
      ArchivesLast(events, n.id);
      IntoLast(events, n.id);
      BecameNext(n, ChangedByAll(n, front), events[|events| - 1], Demotes(front, n.id), Archives(front, n.id),
                 Into(front, n.id));
    }
  }

  // ---------------------------------------------------------------- the events that are due

  ghost predicate AllDue(nodes: seq<NodeRecord>, edges: seq<EdgeRecord>, now: int, events: seq<Event>) {
    forall e :: e in events <==> Due(nodes, edges, now, e)
  }

  lemma DemotesIff(g: Graph, nodes: seq<NodeRecord>, edges: seq<EdgeRecord>, now: int, events: seq<Event>, k: NodeId)
    requires Sound(g) && Lists(nodes, g) && AllDue(nodes, edges, now, events) && k in g.nodes
    ensures Demotes(events, k) <==> NoEdgeAt(edges, k)
  {
    var n := g.nodes[k];
    if NoEdgeAt(edges, k) {
      assert SingleDue(n, edges, now, SingleOf(Demote, n));
      assert Due(nodes, edges, now, SingleOf(Demote, n));
    }
    if Demotes(events, k) {
      var e :| e in events && e.action.Demote? && e.target == k;
      assert Due(nodes, edges, now, e);
      var m :| m in nodes && SingleDue(m, edges, now, e);
    }
  }

  lemma ArchivesIff(g: Graph, nodes: seq<NodeRecord>, edges: seq<EdgeRecord>, now: int, events: seq<Event>, k: NodeId)
    requires Sound(g) && Lists(nodes, g) && AllDue(nodes, edges, now, events) && k in g.nodes
    ensures Archives(events, k) <==> Outdated(g.nodes[k], now)
  {
    var n := g.nodes[k];
    if Outdated(n, now) {
      assert SingleDue(n, edges, now, SingleOf(Archive, n));
      assert Due(nodes, edges, now, SingleOf(Archive, n));
    }
    if Archives(events, k) {
      var e :| e in events && e.action.Archive? && e.target == k;
      assert Due(nodes, edges, now, e);
      var m :| m in nodes && SingleDue(m, edges, now, e);
      assert Get(g.nodes, m.id) == Some(m);
    }
  }

  lemma {:induction false} GroupHasAll(nodes: seq<NodeRecord>, k: GroupKey)
    ensures forall n :: n in GroupOf(nodes, k) <==> n in nodes && KeyOf(n) == Some(k)
  {
    if nodes != [] {
      GroupHasAll(nodes[..|nodes| - 1], k);
      assert nodes == nodes[..|nodes| - 1] + [nodes[|nodes| - 1]];
    }
  }

  lemma SameKeyIs(a: NodeRecord, b: NodeRecord)
    ensures SameKey(a, b) <==> KeyOf(b).Some? && KeyOf(a) == KeyOf(b)
  {
  }

  lemma MergeIsDuplicate(g: Graph, nodes: seq<NodeRecord>, key: GroupKey, e: Event, k: NodeId)
    requires Sound(g) && Lists(nodes, g) && MergeDue(nodes, key, e) && k in e.related
    ensures DuplicateOf(g, k, e.target)
  {
    var group := GroupOf(nodes, key);
    GroupHasAll(nodes, key);
    MinIdIsLeast(group);
    OtherIdsSpec(group, MinId(group));
    var n :| n in group && n.id == k;
    var m :| m in group && m.id == MinId(group);
    assert Get(g.nodes, n.id) == Some(n) && Get(g.nodes, m.id) == Some(m);
    SameKeyIs(m, n);
    forall q | q in g.nodes && SameKey(g.nodes[q], n) ensures q == m.id || IdFirst(m.id, q) {
      SameKeyIs(g.nodes[q], n);
      assert g.nodes[q] in group;
      LexIsIdFirst(m.id, q);
    }
  }

  lemma TwoMembers(s: seq<NodeRecord>, a: NodeRecord, b: NodeRecord)
    requires a in s && b in s && a != b
    ensures |s| >= 2
  {
  }

  lemma DuplicateIsMerged(g: Graph, nodes: seq<NodeRecord>, k: NodeId, p: NodeId) returns (key: GroupKey, e: Event)
    requires Sound(g) && Lists(nodes, g) && DuplicateOf(g, k, p)
    ensures MergeDue(nodes, key, e) && e.action.Merge? && k in e.related && e.target == p
  {
    SameKeyIs(g.nodes[p], g.nodes[k]);
    key := KeyOf(g.nodes[k]).value;
    var group := GroupOf(nodes, key);
    GroupHasAll(nodes, key);
    TwoMembers(group, g.nodes[k], g.nodes[p]);
    MinIdIsLeast(group);
    LeastIs(g, group, k, p);
    OtherIdsSpec(group, p);
    e := MergeOf(nodes, group);
  }

  lemma LeastIs(g: Graph, group: seq<NodeRecord>, k: NodeId, p: NodeId)
    requires Sound(g) && DuplicateOf(g, k, p) && g.nodes[p] in group
    requires forall n | n in group :: Get(g.nodes, n.id) == Some(n) && SameKey(n, g.nodes[k])
    ensures MinId(group) == p
  {
    MinIdIsLeast(group);
    var m :| m in group && m.id == MinId(group);
    assert SameKey(g.nodes[m.id], g.nodes[k]);
    LexIsIdFirst(p, m.id);
    LexTotal(p, m.id);
  }

  lemma MergesIff(g: Graph, nodes: seq<NodeRecord>, edges: seq<EdgeRecord>, now: int, events: seq<Event>, k: NodeId,
                  p: NodeId)
    requires Sound(g) && Lists(nodes, g) && AllDue(nodes, edges, now, events)
    ensures Merges(events, k, p) <==> DuplicateOf(g, k, p)
  {
    if Merges(events, k, p) {
      var e :| e in events && e.action.Merge? && k in e.related && e.target == p;
      assert Due(nodes, edges, now, e);
      var key :| MergeDue(nodes, key, e);
      MergeIsDuplicate(g, nodes, key, e, k);
    }
    if DuplicateOf(g, k, p) {
      var key, e := DuplicateIsMerged(g, nodes, k, p);
      assert Due(nodes, edges, now, e);
    }
  }

  lemma OneKept(g: Graph, k: NodeId, p: NodeId, q: NodeId)
    requires DuplicateOf(g, k, p) && DuplicateOf(g, k, q)
    ensures p == q
  {
    LexIsIdFirst(p, q);
    LexIsIdFirst(q, p);
    LexTotal(p, q);
  }

  lemma {:induction false} NoRepeatsAt(s: seq<Event>, i: nat, j: nat)
    requires NoRepeats(s) && i < j < |s|
    ensures s[i] != s[j]
  {
    RemoveAtSet(s, j);
    assert (s[..j] + s[j + 1..])[i] == s[i];
    assert s[i] in SetOf(s[..j] + s[j + 1..]);
  }

  lemma DemotionIs(g: Graph, nodes: seq<NodeRecord>, edges: seq<EdgeRecord>, now: int, e: Event)
    requires Lists(nodes, g) && Due(nodes, edges, now, e) && e.action.Demote?
    ensures e.target in g.nodes && e == SingleOf(Demote, g.nodes[e.target])
  {
    var n :| n in nodes && SingleDue(n, edges, now, e);
    assert Get(g.nodes, n.id) == Some(n);
  }

  lemma DueIsUnambiguous(g: Graph, nodes: seq<NodeRecord>, edges: seq<EdgeRecord>, now: int, events: seq<Event>,
                         k: NodeId)
    requires Sound(g) && Lists(nodes, g) && AllDue(nodes, edges, now, events) && NoRepeats(events)
    ensures Unambiguous(events, k)
  {
    forall i, j | 0 <= i < j < |events| && events[i].action.Demote? && events[j].action.Demote?
      ensures !(events[i].target == events[j].target == k)
    {
      assert events[i] in events && events[j] in events;
      DemotionIs(g, nodes, edges, now, events[i]);
      DemotionIs(g, nodes, edges, now, events[j]);
      NoRepeatsAt(events, i, j);
    }
    forall p, q | Merges(events, k, p) && Merges(events, k, q) ensures p == q {
      MergesIff(g, nodes, edges, now, events, k, p);
      MergesIff(g, nodes, edges, now, events, k, q);
      OneKept(g, k, p, q);
    }
  }

  // ---------------------------------------------------------------- a whole run

  lemma ListsOnePerId(nodes: seq<NodeRecord>, g: Graph)
    requires Lists(nodes, g)
    ensures OneRecordPerId(nodes)
  {
    forall m, n | m in nodes && n in nodes && m.id == n.id ensures m == n {
      assert Get(g.nodes, m.id) == Some(m) && Get(g.nodes, n.id) == Some(n);
    }
  }

  lemma IntoIff(g: Graph, nodes: seq<NodeRecord>, edges: seq<EdgeRecord>, now: int, events: seq<Event>, k: NodeId)
    requires Sound(g) && Lists(nodes, g) && AllDue(nodes, edges, now, events) && Unambiguous(events, k)
    ensures forall p | DuplicateOf(g, k, p) :: Into(events, k) == Some(p)
    ensures (forall p :: !DuplicateOf(g, k, p)) ==> Into(events, k) == None
  {
    forall p ensures Merges(events, k, p) <==> DuplicateOf(g, k, p) {
      MergesIff(g, nodes, edges, now, events, k, p);
    }
    forall p | DuplicateOf(g, k, p) ensures Into(events, k) == Some(p) {
      IntoIs(events, k, p);
    }
  }

  lemma NodeConsolidated(g: Graph, nodes: seq<NodeRecord>, edges: seq<EdgeRecord>, now: int, events: seq<Event>,
                         k: NodeId)
    requires Sound(g) && Lists(nodes, g) && AllDue(nodes, edges, now, events) && NoRepeats(events) && k in g.nodes
    ensures k in RunEvents(g, events).nodes && Consolidated(g, edges, now, RunEvents(g, events), k)
  {
    DueIsUnambiguous(g, nodes, edges, now, events, k);
    RunAt(g, events, k);
    NodeBecomes(g.nodes[k], events);
    DemotesIff(g, nodes, edges, now, events, k);
    ArchivesIff(g, nodes, edges, now, events, k);
    IntoIff(g, nodes, edges, now, events, k);
  }

  /** What the records stored before a consolidation call for at one node is what it holds after
      it: an isolated node half of its importance, an outdated one or a merged duplicate the mark
      of the archive, a merged duplicate the id that was kept; all else is as it was. */
  ghost predicate Consolidated(g: Graph, edges: seq<EdgeRecord>, now: int, h: Graph, k: NodeId)
    requires k in g.nodes && k in h.nodes
  {
    var n, m := g.nodes[k], h.nodes[k];
    && ((forall p :: !DuplicateOf(g, k, p)) ==> Became(n, m, NoEdgeAt(edges, k), Outdated(n, now), None))
    && (forall p | DuplicateOf(g, k, p) :: Became(n, m, NoEdgeAt(edges, k), Outdated(n, now), Some(p)))
  }

  /** `run_consolidation` on the live graph, with the records in the order of the maps. */
  method RunConsolidation(g: Graph, nodes: seq<NodeRecord>, edges: seq<EdgeRecord>, now: int)
    returns (h: Graph, events: seq<Event>)
    requires Sound(g) && Lists(nodes, g)
    ensures forall e :: e in events <==> Due(nodes, edges, now, e)
    ensures Sound(h) && h.nodes.Keys == g.nodes.Keys && h.edges == g.edges
    ensures Listed(nodes) ==> forall k | k in g.nodes :: Consolidated(g, edges, now, h, k)
    ensures forall order: seq<Event> | SetOf(order) == SetOf(events) :: Fold(h, Reverses(order)) == g
  {
    events := Analyze(nodes, edges, now);
    h := g;
    for i := 0 to |events|
      invariant h == RunEvents(g, events[..i])
    {
      assert events[..i + 1][..i] == events[..i];
      var b := Forward(events[i], h.nodes);
      if !b.IsEmpty() {
        RunChangesOnlyAffected(g, events[..i]);
        EventDiffersOnly(h, h, events[i], {});
        assert Accepted(h, b);
        h := ApplyBatchToMaps(h, b);
      }
    }
    assert events[..|events|] == events;
    RunChangesOnlyAffected(g, events);
    forall e | e in events ensures Reversible(g, e) {
      DueIsReversible(g, nodes, edges, now, e);
    }
    forall order: seq<Event> | SetOf(order) == SetOf(events) ensures Fold(h, Reverses(order)) == g {
      UndoRestores(g, events, order);
    }
    if Listed(nodes) {
      ListsOnePerId(nodes, g);
      forall k | k in g.nodes ensures Consolidated(g, edges, now, h, k) {
        NodeConsolidated(g, nodes, edges, now, events, k);
      }
    }
  }
}
