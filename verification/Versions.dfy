/** The multi-version kernel of the storage engine: one live table with its lineage
    (revision of the last change of each key) and its version history. */
module Versions {
  import opened Core

  datatype Version<V> = Version(revision: nat, value: Option<V>)

  datatype Table<V> = Table(
    live: map<string, V>,
    lineage: map<string, nat>,
    versions: map<string, seq<Version<V>>>)

  /** `append_version_entry`: an entry of the same revision is replaced. */
  function AppendVersion<V>(h: seq<Version<V>>, revision: nat, value: Option<V>): seq<Version<V>> {
    if h != [] && h[|h| - 1].revision == revision then h[..|h| - 1] + [Version(revision, value)]
    else h + [Version(revision, value)]
  }

  /** The newest entry at or before a revision, searched from the back. */
  function LatestAt<V>(h: seq<Version<V>>, revision: nat): Option<V> {
    if h == [] then None
    else if h[|h| - 1].revision <= revision then h[|h| - 1].value
    else LatestAt(h[..|h| - 1], revision)
  }

  function HistoryOf<V>(versions: map<string, seq<Version<V>>>, k: string): seq<Version<V>> {
    if k in versions then versions[k] else []
  }

  /** `visible_value_at_revision`. */
  function VisibleAt<V>(t: Table<V>, k: string, revision: nat): Option<V> {
    if k in t.lineage && t.lineage[k] <= revision then Get(t.live, k)
    else LatestAt(HistoryOf(t.versions, k), revision)
  }

  /** `preserve_historical_versions` on one table. */
  function Preserve<V>(t: Table<V>, touched: set<string>): map<string, seq<Version<V>>> {
    map k | k in t.versions.Keys + touched * t.lineage.Keys ::
      if k in touched && k in t.lineage
      then AppendVersion(HistoryOf(t.versions, k), t.lineage[k], Get(t.live, k))
      else HistoryOf(t.versions, k)
  }

  /** `record_versions_after_commit` on one table. */
  function Record<V>(versions: map<string, seq<Version<V>>>, touched: set<string>, live: map<string, V>,
                     revision: nat): map<string, seq<Version<V>>>
  {
    map k | k in versions.Keys + touched ::
      if k in touched then AppendVersion(HistoryOf(versions, k), revision, Get(live, k))
      else HistoryOf(versions, k)
  }

  /** `update_lineage_for_batch` on one table. */
  function Stamp(lineage: map<string, nat>, stamped: set<string>, revision: nat): map<string, nat> {
    map k | k in lineage.Keys + stamped :: if k in stamped then revision else lineage[k]
  }

  /** A table after one committed batch. History is kept only while snapshot readers exist. */
  function Commit<V>(t: Table<V>, live: map<string, V>, touched: set<string>, stamped: set<string>,
                     revision: nat, readers: bool): Table<V>
  {
    Table(live, Stamp(t.lineage, stamped, revision),
          if readers then Record(Preserve(t, touched), touched, live, revision) else t.versions)
  }

  // ---------------------------------------------------------------- the loops

  method AppendVersionEntry<V>(h: seq<Version<V>>, revision: nat, value: Option<V>) returns (r: seq<Version<V>>)
    ensures r == AppendVersion(h, revision, value)
    ensures forall R :: LatestAt(r, R) == if revision <= R then value else LatestAt(h, R)
  {
    forall R ensures LatestAt(AppendVersion(h, revision, value), R) == if revision <= R then value else LatestAt(h, R) {
      LatestAfterAppend(h, revision, value, R);
    }
    if h != [] && h[|h| - 1].revision == revision {
      r := h[|h| - 1 := Version(revision, value)];
    } else {
      r := h + [Version(revision, value)];
    }
  }

  lemma PreserveInsert<V>(t: Table<V>, touched: set<string>, k: string)
    ensures Preserve(t, touched + {k}) ==
            if k in t.lineage
            then Preserve(t, touched)[k := AppendVersion(HistoryOf(t.versions, k), t.lineage[k], Get(t.live, k))]
            else Preserve(t, touched)
  {
  }

  method PreserveHistoricalVersions<V>(t: Table<V>, touched: set<string>) returns (r: map<string, seq<Version<V>>>)
    ensures r == Preserve(t, touched)
  {
    r := t.versions;
    var rest := touched;
    while rest != {}
      invariant rest <= touched
      invariant r == Preserve(t, touched - rest)
    {
      var k :| k in rest;
      ghost var before := touched - rest;
      rest := rest - {k};
      assert touched - rest == before + {k};
      PreserveInsert(t, before, k);
      if k in t.lineage {
        var h := AppendVersionEntry(HistoryOf(t.versions, k), t.lineage[k], Get(t.live, k));
        r := r[k := h];
      }
    }
    assert touched - rest == touched;
  }

  method RecordVersionsAfterCommit<V>(versions: map<string, seq<Version<V>>>, touched: set<string>,
                                      live: map<string, V>, revision: nat)
    returns (r: map<string, seq<Version<V>>>)
    ensures r == Record(versions, touched, live, revision)
  {
    r := versions;
    var rest := touched;
    while rest != {}
      invariant rest <= touched
      invariant r == Record(versions, touched - rest, live, revision)
    {
      var k :| k in rest;
      ghost var before := touched - rest;
      rest := rest - {k};
      assert touched - rest == before + {k};
      var h := AppendVersionEntry(HistoryOf(versions, k), revision, Get(live, k));
      r := r[k := h];
    }
    assert touched - rest == touched;
  }

  method UpdateLineage(lineage: map<string, nat>, stamped: set<string>, revision: nat) returns (r: map<string, nat>)
    ensures r == Stamp(lineage, stamped, revision)
  {
    r := lineage;
    var rest := stamped;
    while rest != {}
      invariant rest <= stamped
      invariant r == Stamp(lineage, stamped - rest, revision)
    {
      var k :| k in rest;
      ghost var before := stamped - rest;
      rest := rest - {k};
      assert stamped - rest == before + {k};
      r := r[k := revision];
    }
    assert stamped - rest == stamped;
  }

  // ---------------------------------------------------------------- what a table keeps

  /** No key is live without a lineage, no lineage is ahead of the revision, and the history
      of a key without lineage holds only absences. */
  ghost predicate TableInv<V>(t: Table<V>, revision: nat) {
    && (forall k | k in t.live :: k in t.lineage)
    && (forall k | k in t.lineage :: t.lineage[k] <= revision)
    && (forall k | k in t.versions && k !in t.lineage :: AllAbsent(t.versions[k]))
  }

  ghost predicate AllAbsent<V>(h: seq<Version<V>>) {
    forall i | 0 <= i < |h| :: h[i].value.None?
  }

  /** What a commit may change: only touched keys, and every touched key that is or was
      stored gets the new revision. */
  ghost predicate Covers<V>(t: Table<V>, live: map<string, V>, touched: set<string>, stamped: set<string>) {
    && stamped <= touched
    && (forall k | k !in touched :: Get(live, k) == Get(t.live, k))
    && (forall k | k in touched && (k in live || k in t.lineage) :: k in stamped)
  }

  lemma LatestAfterAppend<V>(h: seq<Version<V>>, revision: nat, value: Option<V>, R: nat)
    ensures LatestAt(AppendVersion(h, revision, value), R) == if revision <= R then value else LatestAt(h, R)
  {
    var r := AppendVersion(h, revision, value);
    if h != [] && h[|h| - 1].revision == revision {
      assert r[..|r| - 1] == h[..|h| - 1];
    } else {
      assert r[..|r| - 1] == h;
    }
  }

  lemma {:induction false} AllAbsentIsNone<V>(h: seq<Version<V>>, R: nat)
    requires AllAbsent(h)
    ensures LatestAt(h, R) == None
  {
    if h != [] {
      AllAbsentIsNone(h[..|h| - 1], R);
    }
  }

  /** A reader that starts at the current revision sees exactly the live table. */
  lemma CurrentRevisionSeesLive<V>(t: Table<V>, revision: nat, k: string)
    requires TableInv(t, revision)
    ensures VisibleAt(t, k, revision) == Get(t.live, k)
  {
    if k !in t.lineage {
      AllAbsentIsNone(HistoryOf(t.versions, k), revision);
    }
  }

  /** A commit at a later revision changes nothing a reader at `R` sees. */
  lemma CommitKeepsVisible<V>(t: Table<V>, live: map<string, V>, touched: set<string>, stamped: set<string>,
                              revision: nat, R: nat, k: string)
    requires Covers(t, live, touched, stamped)
    requires R < revision
    ensures VisibleAt(Commit(t, live, touched, stamped, revision, true), k, R) == VisibleAt(t, k, R)
  {
    var kept := Preserve(t, touched);
    if k in touched {
      LatestAfterAppend(HistoryOf(kept, k), revision, Get(live, k), R);
      if k in t.lineage {
        LatestAfterAppend(HistoryOf(t.versions, k), t.lineage[k], Get(t.live, k), R);
      }
    } else {
      assert HistoryOf(Record(kept, touched, live, revision), k) == HistoryOf(t.versions, k);
      assert Get(live, k) == Get(t.live, k);
    }
  }

  lemma CommitHistoryAt<V>(t: Table<V>, live: map<string, V>, touched: set<string>, stamped: set<string>,
                           revision: nat, readers: bool, k: string)
    requires k !in t.lineage
    ensures HistoryOf(Commit(t, live, touched, stamped, revision, readers).versions, k) ==
            if readers && k in touched then AppendVersion(HistoryOf(t.versions, k), revision, Get(live, k))
            else HistoryOf(t.versions, k)
  {
    assert HistoryOf(Preserve(t, touched), k) == HistoryOf(t.versions, k);
  }

  lemma CommitKeepsTableInv<V>(t: Table<V>, live: map<string, V>, touched: set<string>, stamped: set<string>,
                               before: nat, revision: nat, after: nat, readers: bool)
    requires TableInv(t, before) && before <= after && revision <= after
    requires Covers(t, live, touched, stamped)
    ensures TableInv(Commit(t, live, touched, stamped, revision, readers), after)
  {
    var t' := Commit(t, live, touched, stamped, revision, readers);
    forall k | k in t'.live ensures k in t'.lineage {
      assert k !in touched ==> Get(live, k) == Get(t.live, k);
    }
    forall k | k in t'.versions && k !in t'.lineage ensures AllAbsent(t'.versions[k]) {
      assert k !in t.lineage && AllAbsent(HistoryOf(t.versions, k));
      CommitHistoryAt(t, live, touched, stamped, revision, readers, k);
    }
  }

  // ---------------------------------------------------------------- snapshots and deltas

  /** The value a session sees: its own override, or the table at its start revision. */
  function Seen<V>(t: Table<V>, overrides: map<string, Option<V>>, revision: nat, k: string): Option<V> {
    if k in overrides then overrides[k] else VisibleAt(t, k, revision)
  }

  /** `transaction_snapshot` on one table. */
  function Snapshot<V>(t: Table<V>, overrides: map<string, Option<V>>, revision: nat): map<string, V> {
    map k | k in t.lineage.Keys + t.live.Keys + overrides.Keys && Seen(t, overrides, revision, k).Some? ::
      Seen(t, overrides, revision, k).value
  }

  lemma SnapshotAt<V>(t: Table<V>, overrides: map<string, Option<V>>, now: nat, revision: nat, k: string)
    requires TableInv(t, now)
    ensures Get(Snapshot(t, overrides, revision), k) == Seen(t, overrides, revision, k)
  {
    if k !in t.lineage {
      AllAbsentIsNone(HistoryOf(t.versions, k), revision);
    }
  }

  /** A commit at a revision after `R` leaves the whole snapshot at `R` as it was. */
  lemma CommitKeepsSnapshot<V>(t: Table<V>, live: map<string, V>, touched: set<string>, stamped: set<string>,
                               before: nat, revision: nat, after: nat, R: nat)
    requires TableInv(t, before) && before <= after && R < revision <= after
    requires Covers(t, live, touched, stamped)
    ensures Snapshot(Commit(t, live, touched, stamped, revision, true), map[], R) == Snapshot(t, map[], R)
  {
    var t' := Commit(t, live, touched, stamped, revision, true);
    CommitKeepsTableInv(t, live, touched, stamped, before, revision, after, true);
    forall k ensures Get(Snapshot(t', map[], R), k) == Get(Snapshot(t, map[], R), k) {
      SnapshotAt(t, map[], before, R, k);
      SnapshotAt(t', map[], after, R, k);
      CommitKeepsVisible(t, live, touched, stamped, revision, R, k);
    }
    SameByGet(Snapshot(t', map[], R), Snapshot(t, map[], R));
  }

  lemma CurrentSnapshotIsLive<V>(t: Table<V>, revision: nat)
    requires TableInv(t, revision)
    ensures Snapshot(t, map[], revision) == t.live
  {
    forall k ensures Get(Snapshot(t, map[], revision), k) == Get(t.live, k) {
      SnapshotAt(t, map[], revision, revision, k);
      CurrentRevisionSeesLive(t, revision, k);
    }
    SameByGet(Snapshot(t, map[], revision), t.live);
  }

  /** The keys `transaction_delta_from_current` looks at. */
  function DeltaIds<V>(t: Table<V>, overrides: map<string, Option<V>>, revision: nat): set<string> {
    (set k | k in t.lineage && t.lineage[k] > revision) + t.versions.Keys + overrides.Keys
  }

  datatype Delta<V> = Delta(removed: map<string, V>, added: map<string, V>)

  predicate Differs<V(==)>(t: Table<V>, overrides: map<string, Option<V>>, revision: nat, k: string) {
    Get(t.live, k) != Seen(t, overrides, revision, k)
  }

  /** `transaction_delta_from_current` on one table. */
  function DeltaOver<V(==)>(t: Table<V>, overrides: map<string, Option<V>>, revision: nat, ids: set<string>): Delta<V> {
    Delta(
      map k | k in ids && Differs(t, overrides, revision, k) && k in t.live :: t.live[k],
      map k | k in ids && Differs(t, overrides, revision, k) && Seen(t, overrides, revision, k).Some? ::
        Seen(t, overrides, revision, k).value)
  }

  function DeltaFromCurrent<V(==)>(t: Table<V>, overrides: map<string, Option<V>>, revision: nat): Delta<V> {
    DeltaOver(t, overrides, revision, DeltaIds(t, overrides, revision))
  }

  function Patched<V>(live: map<string, V>, d: Delta<V>): map<string, V> {
    (live - d.removed.Keys) + d.added
  }

  /** Patching the live table with the delta gives exactly the session's snapshot. */
  lemma DeltaMaterialises<V>(t: Table<V>, overrides: map<string, Option<V>>, now: nat, revision: nat)
    requires TableInv(t, now)
    ensures Patched(t.live, DeltaFromCurrent(t, overrides, revision)) == Snapshot(t, overrides, revision)
  {
    var p := Patched(t.live, DeltaFromCurrent(t, overrides, revision));
    forall k ensures Get(p, k) == Get(Snapshot(t, overrides, revision), k) {
      SnapshotAt(t, overrides, now, revision, k);
      if k !in DeltaIds(t, overrides, revision) {
        assert HistoryOf(t.versions, k) == [];
      }
    }
    SameByGet(p, Snapshot(t, overrides, revision));
  }

  method BuildSnapshot<V>(t: Table<V>, overrides: map<string, Option<V>>, revision: nat) returns (r: map<string, V>)
    ensures r == Snapshot(t, overrides, revision)
  {
    r := map[];
    var ids := t.lineage.Keys + t.live.Keys + overrides.Keys;
    var rest := ids;
    while rest != {}
      invariant rest <= ids
      invariant r == map k | k in ids - rest && Seen(t, overrides, revision, k).Some? ::
                       Seen(t, overrides, revision, k).value
    {
      var k :| k in rest;
      rest := rest - {k};
      var seen := Seen(t, overrides, revision, k);
      if seen.Some? {
        r := r[k := seen.value];
      }
    }
  }

  lemma DeltaOverInsert<V>(t: Table<V>, overrides: map<string, Option<V>>, revision: nat, ids: set<string>, k: string)
    ensures DeltaOver(t, overrides, revision, ids + {k}) ==
            var d := DeltaOver(t, overrides, revision, ids);
            if !Differs(t, overrides, revision, k) then d
            else Delta(
              if k in t.live then d.removed[k := t.live[k]] else d.removed,
              match Seen(t, overrides, revision, k) case None => d.added case Some(v) => d.added[k := v])
  {
  }

  method BuildDelta<V(==)>(t: Table<V>, overrides: map<string, Option<V>>, revision: nat) returns (d: Delta<V>)
    ensures d == DeltaFromCurrent(t, overrides, revision)
  {
    d := Delta(map[], map[]);
    var ids := DeltaIds(t, overrides, revision);
    var rest := ids;
    while rest != {}
      invariant rest <= ids
      invariant d == DeltaOver(t, overrides, revision, ids - rest)
    {
      var k :| k in rest;
      ghost var before := ids - rest;
      rest := rest - {k};
      assert ids - rest == before + {k};
      DeltaOverInsert(t, overrides, revision, before, k);
      var current := Get(t.live, k);
      var visible := Seen(t, overrides, revision, k);
      if current != visible {
        if current.Some? {
          d := d.(removed := d.removed[k := current.value]);
        }
        if visible.Some? {
          d := d.(added := d.added[k := visible.value]);
        }
      }
    }
    assert ids - rest == ids;
  }
}
