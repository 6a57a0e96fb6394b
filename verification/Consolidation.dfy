/** Memory consolidation and its undoing (crates/memory `MemoryConsolidator::analyze`,
    crates/storage `run_consolidation`). */
module Consolidation {
  import opened Core
  import opened Log
  import opened Index
  import opened TopK

  datatype Action = Merge | Link | Demote | Archive

  /** An event with the batch that undoes it. */
  datatype Event = Event(action: Action, target: NodeId, related: seq<NodeId>, reverse: WriteBatch)

  const STALE_MS := 30 * 24 * 60 * 60 * 1000

  // ---------------------------------------------------------------- analysis

  /** Nodes of one type that share a unique key. */
  datatype GroupKey = GroupKey(nodeType: string, uniqueKey: string)

  function KeyOf(n: NodeRecord): Option<GroupKey> {
    match UniqueKey(n) case Some(k) => Some(GroupKey(n.nodeType, k)) case None => None
  }

  function GroupOf(nodes: seq<NodeRecord>, k: GroupKey): seq<NodeRecord> {
    if nodes == [] then []
    else
      var front, last := GroupOf(nodes[..|nodes| - 1], k), nodes[|nodes| - 1];
      if KeyOf(last) == Some(k) then front + [last] else front
  }

  function MinId(group: seq<NodeRecord>): NodeId
    requires group != []
  {
    var last := group[|group| - 1].id;
    if |group| == 1 then last
    else var m := MinId(group[..|group| - 1]); if LexLess(last, m) then last else m
  }

  function OtherIds(group: seq<NodeRecord>, primary: NodeId): seq<NodeId> {
    if group == [] then []
    else
      var front, last := OtherIds(group[..|group| - 1], primary), group[|group| - 1].id;
      if last == primary then front else front + [last]
  }

  /** `nodes.iter().find(..)`, as a list of at most one record. */
  function Find(nodes: seq<NodeRecord>, x: NodeId): seq<NodeRecord> {
    if nodes == [] then [] else if nodes[0].id == x then [nodes[0]] else Find(nodes[1..], x)
  }

  function FindAll(nodes: seq<NodeRecord>, ids: seq<NodeId>): seq<NodeRecord> {
    if ids == [] then [] else FindAll(nodes, ids[..|ids| - 1]) + Find(nodes, ids[|ids| - 1])
  }

  function Upserting(nodes: seq<NodeRecord>): WriteBatch {
    EMPTY_BATCH.(nodesUpserted := nodes)
  }

  function MergeOf(nodes: seq<NodeRecord>, group: seq<NodeRecord>): Event
    requires group != []
  {
    var ids := OtherIds(group, MinId(group));
    Event(Merge, MinId(group), ids, Upserting(FindAll(nodes, ids)))
  }

  function SingleOf(action: Action, n: NodeRecord): Event {
    Event(action, n.id, [], Upserting([n]))
  }

  predicate Isolated(edges: seq<EdgeRecord>, n: NodeRecord) {
    forall e | e in edges :: e.source != n.id && e.target != n.id
  }

  predicate Stale(n: NodeRecord, now: int) {
    Timestamp(n).Some? && now - Timestamp(n).value > STALE_MS
  }

  ghost predicate MergeDue(nodes: seq<NodeRecord>, k: GroupKey, e: Event) {
    |GroupOf(nodes, k)| >= 2 && e == MergeOf(nodes, GroupOf(nodes, k)) && e.related != []
  }

  ghost predicate SingleDue(n: NodeRecord, edges: seq<EdgeRecord>, now: int, e: Event) {
    (Isolated(edges, n) && e == SingleOf(Demote, n)) || (Stale(n, now) && e == SingleOf(Archive, n))
  }

  /** The events that the stored records call for. */
  ghost predicate Due(nodes: seq<NodeRecord>, edges: seq<EdgeRecord>, now: int, e: Event) {
    (exists k :: MergeDue(nodes, k, e)) || (exists n :: n in nodes && SingleDue(n, edges, now, e))
  }

  lemma GroupSnoc(nodes: seq<NodeRecord>, i: nat, k: GroupKey)
    requires i < |nodes|
    ensures GroupOf(nodes[..i + 1], k) ==
            if KeyOf(nodes[i]) == Some(k) then GroupOf(nodes[..i], k) + [nodes[i]] else GroupOf(nodes[..i], k)
  {
    assert nodes[..i + 1][..i] == nodes[..i];
  }

  /** The first loop of `analyze`. */
  method GroupDuplicates(nodes: seq<NodeRecord>) returns (groups: map<GroupKey, seq<NodeRecord>>)
    ensures forall k :: Get(groups, k) == if GroupOf(nodes, k) == [] then None else Some(GroupOf(nodes, k))
  {
    groups := map[];
    for i := 0 to |nodes|
      invariant forall k :: Get(groups, k) ==
                            if GroupOf(nodes[..i], k) == [] then None else Some(GroupOf(nodes[..i], k))
    {
      forall k ensures GroupOf(nodes[..i + 1], k) ==
                       if KeyOf(nodes[i]) == Some(k) then GroupOf(nodes[..i], k) + [nodes[i]]
                         else GroupOf(nodes[..i], k)
      {
        GroupSnoc(nodes, i, k);
      }
      if KeyOf(nodes[i]).Some? {
        var k := KeyOf(nodes[i]).value;
        groups := groups[k := (if k in groups then groups[k] else []) + [nodes[i]]];
      }
    }
    assert nodes[..|nodes|] == nodes;
  }

  ghost predicate OneRecordPerId(nodes: seq<NodeRecord>) {
    forall m, n | m in nodes && n in nodes && m.id == n.id :: m == n
  }

  lemma AddsNew<T>(s: seq<T>, x: T)
    requires NoRepeats(s) && x !in s
    ensures NoRepeats(s + [x])
  {
    PushSet(s, x);
  }

  lemma MergesDiffer(nodes: seq<NodeRecord>, j: GroupKey, k: GroupKey, e: Event)
    requires OneRecordPerId(nodes) && MergeDue(nodes, j, e) && MergeDue(nodes, k, e)
    ensures j == k
  {
    GroupMembers(nodes, j);
    GroupMembers(nodes, k);
    MinIdIsLeast(GroupOf(nodes, j));
    MinIdIsLeast(GroupOf(nodes, k));
  }

  /** The second loop of `analyze`, over the groups in any order. */
  method MergeEvents(nodes: seq<NodeRecord>, groups: map<GroupKey, seq<NodeRecord>>) returns (events: seq<Event>)
    requires forall k :: Get(groups, k) == if GroupOf(nodes, k) == [] then None else Some(GroupOf(nodes, k))
    ensures forall e :: e in events <==> exists k :: MergeDue(nodes, k, e)
    ensures OneRecordPerId(nodes) ==> NoRepeats(events)
  {
    events := [];
    var todo := groups.Keys;
    while todo != {}
      invariant todo <= groups.Keys
      invariant OneRecordPerId(nodes) ==> NoRepeats(events)
      invariant forall e :: e in events <==> exists k :: k !in todo && MergeDue(nodes, k, e)
      decreases todo
    {
      var k :| k in todo;
      assert Get(groups, k) == Some(GroupOf(nodes, k));
      todo := todo - {k};
      if |groups[k]| >= 2 && MergeOf(nodes, groups[k]).related != [] {
        var e := MergeOf(nodes, groups[k]);
        assert MergeDue(nodes, k, e);
        if OneRecordPerId(nodes) {
          forall j | j !in todo && j != k ensures !MergeDue(nodes, j, e) {
            if MergeDue(nodes, j, e) {
              MergesDiffer(nodes, j, k, e);
            }
          }
          AddsNew(events, e);
        }
        events := events + [e];
      }
    }
  }

  /** No node is listed twice. */
  ghost predicate Listed(nodes: seq<NodeRecord>) {
    forall i, j | 0 <= i < j < |nodes| :: nodes[i] != nodes[j]
  }

  lemma SinglesDiffer(nodes: seq<NodeRecord>, i: nat, edges: seq<EdgeRecord>, now: int, e: Event)
    requires OneRecordPerId(nodes) && Listed(nodes) && i < |nodes| && SingleDue(nodes[i], edges, now, e)
    ensures forall n | n in nodes[..i] :: !SingleDue(n, edges, now, e)
  {
  }

  lemma AddsNewPair(s: seq<Event>, more: seq<Event>)
    requires NoRepeats(s) && |more| <= 2 && (forall e | e in more :: e !in s)
    requires |more| == 2 ==> more[0] != more[1]
    ensures NoRepeats(s + more)
  {
    if |more| == 0 {
      assert s + more == s;
    } else {
      AddsNew(s, more[0]);
      if |more| == 1 {
        assert s + more == s + [more[0]];
      } else {
        AddsNew(s + [more[0]], more[1]);
        assert s + more == s + [more[0]] + [more[1]];
      }
    }
  }

  /** The last loop of `analyze`. */
  method SingleEvents(nodes: seq<NodeRecord>, edges: seq<EdgeRecord>, now: int) returns (events: seq<Event>)
    ensures forall e :: e in events <==> exists n :: n in nodes && SingleDue(n, edges, now, e)
    ensures OneRecordPerId(nodes) && Listed(nodes) ==> NoRepeats(events)
  {
    events := [];
    for i := 0 to |nodes|
      invariant OneRecordPerId(nodes) && Listed(nodes) ==> NoRepeats(events)
      invariant forall e :: e in events <==> exists n :: n in nodes[..i] && SingleDue(n, edges, now, e)
    {
      var n := nodes[i];
      assert nodes[..i + 1] == nodes[..i] + [n];
      var demotes := if Isolated(edges, n) then [SingleOf(Demote, n)] else [];
      var more := demotes + if Stale(n, now) then [SingleOf(Archive, n)] else [];
      assert forall e :: e in more <==> SingleDue(n, edges, now, e);
      if OneRecordPerId(nodes) && Listed(nodes) {
        forall e | e in more ensures e !in events {
          SinglesDiffer(nodes, i, edges, now, e);
        }
        AddsNewPair(events, more);
      }
      events := events + more;
    }
    assert nodes[..|nodes|] == nodes;
  }

  /** `analyze`: exactly the events that are due, and each once. */
  method Analyze(nodes: seq<NodeRecord>, edges: seq<EdgeRecord>, now: int) returns (events: seq<Event>)
    ensures forall e :: e in events <==> Due(nodes, edges, now, e)
    ensures OneRecordPerId(nodes) && Listed(nodes) ==> NoRepeats(events)
  {
    var groups := GroupDuplicates(nodes);
    var merges := MergeEvents(nodes, groups);
    var singles := SingleEvents(nodes, edges, now);
    assert forall e | e in merges :: e.action.Merge?;
    assert forall e | e in singles :: !e.action.Merge?;
    if NoRepeats(merges) && NoRepeats(singles) {
      AddsAll(merges, singles);
    }
    events := merges + singles;
  }

  lemma AddsAll(a: seq<Event>, b: seq<Event>)
    requires NoRepeats(a) && NoRepeats(b) && forall e | e in a :: e !in b
    ensures NoRepeats(a + b)
  {
    assert SetOf(a + b) == SetOf(a) + SetOf(b);
    assert SetOf(a) !! SetOf(b);
  }

  // ---------------------------------------------------------------- what an event changes

  function Affected(e: Event): set<NodeId> {
    match e.action
    case Merge => SetOf(e.related)
    case Link => {}
    case _ => {e.target}
  }

  function Importance(n: NodeRecord): Option<real> {
    if "importance" !in n.properties then None
    else match n.properties["importance"]
      case Integer(i) => Some(i as real)
      case Float(f) => Some(f)
      case _ => None
  }

  function Merged(n: NodeRecord, target: NodeId): NodeRecord {
    n.(properties := n.properties["merged_into" := StringValue(target)]["archived" := Boolean(true)])
  }

  function Demoted(n: NodeRecord): NodeRecord {
    var current := match Importance(n) case Some(f) => f case None => 0.5;
    n.(properties := n.properties["importance" := Float(current * 0.5)])
  }

  function Archived(n: NodeRecord): NodeRecord {
    n.(properties := n.properties["archived" := Boolean(true)])
  }

  function MergeNodes(nodes: map<NodeId, NodeRecord>, ids: seq<NodeId>, target: NodeId): seq<NodeRecord> {
    if ids == [] then []
    else
      var front, last := MergeNodes(nodes, ids[..|ids| - 1], target), ids[|ids| - 1];
      if last in nodes then front + [Merged(nodes[last], target)] else front
  }

  /** `batch_for_consolidation_event`. */
  function Forward(e: Event, nodes: map<NodeId, NodeRecord>): WriteBatch {
    Upserting(
      match e.action
      case Merge => MergeNodes(nodes, e.related, e.target)
      case Demote => if e.target in nodes then [Demoted(nodes[e.target])] else []
      case Archive => if e.target in nodes then [Archived(nodes[e.target])] else []
      case Link => [])
  }

  /** `run_consolidation` on the graph: one batch per event that changes something. */
  function RunEvents(g: Graph, events: seq<Event>): Graph {
    if events == [] then g
    else
      var h := RunEvents(g, events[..|events| - 1]);
      var b := Forward(events[|events| - 1], h.nodes);
      if b.IsEmpty() then h else Apply(h, b)
  }

  // ---------------------------------------------------------------- running

  /** Same node ids and edges; only the nodes in `ids` may differ. */
  ghost predicate DiffersOnly(g: Graph, h: Graph, ids: set<NodeId>) {
    && h.edges == g.edges && h.nodes.Keys == g.nodes.Keys
    && forall k | k in g.nodes && k !in ids :: h.nodes[k] == g.nodes[k]
  }

  lemma {:induction false} MergeNodesSpec(nodes: map<NodeId, NodeRecord>, ids: seq<NodeId>, target: NodeId)
    requires forall k | k in nodes :: nodes[k].id == k && NodeNormal(nodes[k])
    ensures forall n | n in MergeNodes(nodes, ids, target) :: n.id in nodes && n.id in ids && NodeNormal(n)
  {
    if ids != [] {
      MergeNodesSpec(nodes, ids[..|ids| - 1], target);
    }
  }

  lemma ForwardSpec(e: Event, g: Graph)
    requires Sound(g)
    ensures forall n | n in Forward(e, g.nodes).nodesUpserted :: n.id in g.nodes && n.id in Affected(e) && NodeNormal(n)
  {
    MergeNodesSpec(g.nodes, e.related, e.target);
  }

  lemma UpsertingChanges(h: Graph, nodes: seq<NodeRecord>)
    ensures Apply(h, Upserting(nodes)) == Graph(h.nodes + NodesById(nodes), h.edges)
  {
    var b := Upserting(nodes);
    assert EdgesById(b.edgesUpserted) == map[];
    assert SetOf(b.deletedNodeIds) == {};
    SameByGet(EdgesAfter(h.edges, b), h.edges);
  }

  lemma EventDiffersOnly(g: Graph, h: Graph, e: Event, ids: set<NodeId>)
    requires Sound(h) && DiffersOnly(g, h, ids)
    ensures DiffersOnly(g, Apply(h, Forward(e, h.nodes)), ids + Affected(e))
    ensures !Forward(e, h.nodes).IsEmpty() ==> Accepted(h, Forward(e, h.nodes))
  {
    var b := Forward(e, h.nodes);
    ForwardSpec(e, h);
    NodesByIdSpec(b.nodesUpserted);
    UpsertingChanges(h, b.nodesUpserted);
  }

  function AllAffected(events: seq<Event>): set<NodeId> {
    if events == [] then {} else AllAffected(events[..|events| - 1]) + Affected(events[|events| - 1])
  }

  /** Every batch of a run is accepted; the run keeps the node ids and all edges, and changes
      no node that no event names. */
  lemma {:induction false} RunChangesOnlyAffected(g: Graph, events: seq<Event>)
    requires Sound(g)
    ensures Sound(RunEvents(g, events)) && DiffersOnly(g, RunEvents(g, events), AllAffected(events))
  {
    if events != [] {
      var front, e := events[..|events| - 1], events[|events| - 1];
      RunChangesOnlyAffected(g, front);
      var h := RunEvents(g, front);
      EventDiffersOnly(g, h, e, AllAffected(front));
      if !Forward(e, h.nodes).IsEmpty() {
        ApplyKeepsSound(h, Forward(e, h.nodes));
      }
    }
  }

  // ---------------------------------------------------------------- undoing

  /** The reverse batch of an event upserts the original records of the nodes it affects. */
  ghost predicate Reversible(g: Graph, e: Event) {
    && e.reverse == Upserting(e.reverse.nodesUpserted)
    && (forall n | n in e.reverse.nodesUpserted :: Get(g.nodes, n.id) == Some(n))
    && Affected(e) <= NodesById(e.reverse.nodesUpserted).Keys
  }

  function Reverses(events: seq<Event>): seq<WriteBatch> {
    seq(|events|, i requires 0 <= i < |events| => events[i].reverse)
  }

  lemma UndoOne(g: Graph, h: Graph, e: Event, ids: set<NodeId>)
    requires Reversible(g, e) && DiffersOnly(g, h, ids)
    ensures DiffersOnly(g, Apply(h, e.reverse), ids - Affected(e))
  {
    NodesByIdSpec(e.reverse.nodesUpserted);
    UpsertingChanges(h, e.reverse.nodesUpserted);
  }

  lemma {:induction false} UndoAll(g: Graph, h: Graph, events: seq<Event>, ids: set<NodeId>)
    requires (forall e | e in events :: Reversible(g, e)) && DiffersOnly(g, h, ids)
    ensures DiffersOnly(g, Fold(h, Reverses(events)), ids - AllAffected(events))
  {
    if events != [] {
      var front, e := events[..|events| - 1], events[|events| - 1];
      UndoAll(g, h, front, ids);
      assert Reverses(events)[..|events| - 1] == Reverses(front);
      UndoOne(g, Fold(h, Reverses(front)), e, ids - AllAffected(front));
      assert ids - AllAffected(events) == ids - AllAffected(front) - Affected(e);
    }
  }

  lemma {:induction false} AffectedBy(events: seq<Event>, x: NodeId)
    ensures x in AllAffected(events) <==> exists e :: e in events && x in Affected(e)
  {
    if events != [] {
      AffectedBy(events[..|events| - 1], x);
      assert events == events[..|events| - 1] + [events[|events| - 1]];
    }
  }

  lemma SameEventsAffectSame(a: seq<Event>, b: seq<Event>)
    requires SetOf(a) == SetOf(b)
    ensures AllAffected(a) == AllAffected(b)
  {
    forall x ensures x in AllAffected(a) <==> x in AllAffected(b) {
      AffectedBy(a, x);
      AffectedBy(b, x);
      assert forall e :: e in a <==> e in SetOf(a);
      assert forall e :: e in b <==> e in SetOf(b);
    }
  }

  /** Applying the reverse batches of all events of a run, in any order and even more than
      once, restores the graph; this holds also where several events hit one node. */
  lemma UndoRestores(g: Graph, events: seq<Event>, order: seq<Event>)
    requires Sound(g) && (forall e | e in events :: Reversible(g, e)) && SetOf(order) == SetOf(events)
    ensures Fold(RunEvents(g, events), Reverses(order)) == g
  {
    RunChangesOnlyAffected(g, events);
    forall e | e in order ensures Reversible(g, e) {
      assert e in SetOf(events);
    }
    UndoAll(g, RunEvents(g, events), order, AllAffected(events));
    SameEventsAffectSame(events, order);
    assert AllAffected(events) - AllAffected(order) == {};
    SameByGet(Fold(RunEvents(g, events), Reverses(order)).nodes, g.nodes);
  }

  /** A reverse batch with something in it is accepted by the engine, whatever was undone. */
  lemma ReverseAccepted(g: Graph, h: Graph, e: Event)
    requires Sound(g) && Reversible(g, e) && e.reverse.nodesUpserted != []
    ensures Accepted(h, e.reverse)
  {
    forall n | n in e.reverse.nodesUpserted ensures NodeNormal(n) {
      assert Get(g.nodes, n.id) == Some(n);
    }
  }

  // ---------------------------------------------------------------- analysed events are reversible

  ghost predicate Lists(nodes: seq<NodeRecord>, g: Graph) {
    (forall n | n in nodes :: Get(g.nodes, n.id) == Some(n)) && (forall k | k in g.nodes :: g.nodes[k] in nodes)
  }

  lemma {:induction false} FindSpec(nodes: seq<NodeRecord>, x: NodeId)
    ensures forall n | n in Find(nodes, x) :: n in nodes && n.id == x
    ensures Find(nodes, x) == [] ==> forall n | n in nodes :: n.id != x
  {
    if nodes != [] && nodes[0].id != x {
      FindSpec(nodes[1..], x);
      assert nodes == [nodes[0]] + nodes[1..];
    }
  }

  lemma {:induction false} FindAllSpec(nodes: seq<NodeRecord>, ids: seq<NodeId>)
    ensures forall n | n in FindAll(nodes, ids) :: n in nodes && n.id in ids
    ensures forall n | n in nodes && n.id in ids :: exists m :: m in FindAll(nodes, ids) && m.id == n.id
  {
    if ids != [] {
      var last := ids[|ids| - 1];
      FindAllSpec(nodes, ids[..|ids| - 1]);
      FindSpec(nodes, last);
      assert ids == ids[..|ids| - 1] + [last];
      forall n | n in nodes && n.id in ids ensures exists m :: m in FindAll(nodes, ids) && m.id == n.id {
        if n.id == last {
          assert Find(nodes, last)[0] in FindAll(nodes, ids);
        }
      }
    }
  }

  lemma {:induction false} GroupMembers(nodes: seq<NodeRecord>, k: GroupKey)
    ensures forall n | n in GroupOf(nodes, k) :: n in nodes && KeyOf(n) == Some(k)
  {
    if nodes != [] {
      GroupMembers(nodes[..|nodes| - 1], k);
    }
  }

  lemma {:induction false} OtherIdsSpec(group: seq<NodeRecord>, primary: NodeId)
    ensures forall x :: x in OtherIds(group, primary) <==> x != primary && exists n :: n in group && n.id == x
  {
    if group != [] {
      OtherIdsSpec(group[..|group| - 1], primary);
      assert group == group[..|group| - 1] + [group[|group| - 1]];
    }
  }

  lemma MergeReversible(g: Graph, nodes: seq<NodeRecord>, k: GroupKey, e: Event)
    requires Lists(nodes, g) && MergeDue(nodes, k, e)
    ensures Reversible(g, e)
  {
    var group := GroupOf(nodes, k);
    GroupMembers(nodes, k);
    OtherIdsSpec(group, MinId(group));
    FindAllSpec(nodes, e.related);
    NodesByIdSpec(e.reverse.nodesUpserted);
    forall x | x in e.related ensures x in NodesById(e.reverse.nodesUpserted) {
      var n :| n in group && n.id == x;
      var m :| m in FindAll(nodes, e.related) && m.id == n.id;
    }
  }

  lemma SingleReversible(g: Graph, nodes: seq<NodeRecord>, n: NodeRecord, edges: seq<EdgeRecord>, now: int, e: Event)
    requires Lists(nodes, g) && n in nodes && SingleDue(n, edges, now, e)
    ensures Reversible(g, e)
  {
    NodesByIdSpec([n]);
    assert n in [n];
  }

  /** Every event that is due carries the original records of the nodes it changes. */
  lemma DueIsReversible(g: Graph, nodes: seq<NodeRecord>, edges: seq<EdgeRecord>, now: int, e: Event)
    requires Lists(nodes, g) && Due(nodes, edges, now, e)
    ensures Reversible(g, e)
  {
    if k :| MergeDue(nodes, k, e) {
      MergeReversible(g, nodes, k, e);
    } else {
      var n :| n in nodes && SingleDue(n, edges, now, e);
      SingleReversible(g, nodes, n, edges, now, e);
    }
  }

  /** A merge keeps the member with the smallest id. */
  lemma {:induction false} MinIdIsLeast(group: seq<NodeRecord>)
    requires group != []
    ensures exists n :: n in group && n.id == MinId(group)
    ensures forall n | n in group :: n.id == MinId(group) || LexLess(MinId(group), n.id)
  {
    var front, last := group[..|group| - 1], group[|group| - 1];
    assert group == front + [last];
    if front != [] {
      MinIdIsLeast(front);
      LexTotal(last.id, MinId(front));
      forall n | n in front && LexLess(last.id, MinId(front)) && LexLess(MinId(front), n.id)
        ensures LexLess(last.id, n.id)
      {
        LexTransitive(last.id, MinId(front), n.id);
      }
    }
  }
}
