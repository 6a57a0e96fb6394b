/** Which numbers a point-in-time restore can aim at. */
module RestoreTargets {
  import opened Core
  import opened Log
  import opened Samples
  import opened Durability
  import opened Recovery
  import opened Restore
  import opened Scenarios

  // ---------------------------------------------------------------- one restore

  /** The number of the manifest, 0 if it has none. */
  function Published(d: Disk): nat {
    match d.manifest.lastLsn case None => 0 case Some(n) => n
  }

  /** The last number of the log; an empty log counts as ending at the manifest. */
  function Latest(d: Disk): nat {
    if d.wal == [] then Published(d) else d.wal[|d.wal| - 1].lsn
  }

  lemma {:induction false} UpToIs(wal: seq<WalRecord>, lsn: nat)
    ensures forall r :: r in UpTo(wal, lsn) <==> r in wal && r.lsn <= lsn
  {
    if wal != [] {
      UpToIs(wal[..|wal| - 1], lsn);
      assert wal == wal[..|wal| - 1] + [wal[|wal| - 1]];
    }
  }

  /** A restore to a number succeeds exactly when the number is no older than the manifest, no
      newer than the log, and the records up to it, which it keeps, are numbered from 1. */
  lemma TrimIff(d: Disk, target: nat)
    ensures var kept := UpTo(d.wal, target);
            && (forall r :: r in kept <==> r in d.wal && r.lsn <= target)
            && (Trim(d, target).Ok? <==>
                && Published(d) <= target <= Latest(d)
                && forall i | 0 <= i < |kept| :: kept[i].lsn == i + 1)
            && (Trim(d, target).Ok? ==> Trim(d, target).value == d.(wal := kept))
  {
    UpToIs(d.wal, target);
  }

  /** How many records of a gapless log are numbered at or below a number. */
  function CountUpTo(wal: seq<WalRecord>, lsn: nat): nat {
    if wal == [] || lsn < wal[0].lsn then 0 else Smaller(|wal|, lsn + 1 - wal[0].lsn)
  }

  lemma {:induction false} UpToIsPrefix(wal: seq<WalRecord>, lsn: nat)
    requires Contiguous(wal)
    ensures CountUpTo(wal, lsn) <= |wal| && UpTo(wal, lsn) == wal[..CountUpTo(wal, lsn)]
  {
    if wal != [] {
      var front := wal[..|wal| - 1];
      assert forall i | 0 <= i < |front| :: front[i] == wal[i];
      UpToIsPrefix(front, lsn);
      assert wal[|wal| - 1].lsn == wal[0].lsn + |wal| - 1;
      if wal[|wal| - 1].lsn <= lsn {
        assert UpTo(front, lsn) == front;
        assert front + [wal[|wal| - 1]] == wal == wal[..|wal|];
      } else {
        assert front[..CountUpTo(front, lsn)] == wal[..CountUpTo(wal, lsn)];
      }
    }
  }

  /** At any moment of any run: a restore succeeds exactly between manifest and end of the log,
      unless the log reaches below the target without going back to number 1. It keeps the front
      of the log. */
  lemma ReachableTrimIff(w: World, target: nat)
    requires Inv(w)
    ensures var d := w.disk;
            && (Trim(d, target).Ok? <==>
                && Published(d) <= target <= Latest(d)
                && (d.wal == [] || d.wal[0].lsn == 1 || d.wal[0].lsn > target))
            && (Trim(d, target).Ok? ==> Trim(d, target).value == d.(wal := d.wal[..CountUpTo(d.wal, target)]))
  {
    var d := w.disk;
    UpToIsPrefix(d.wal, target);
    TrimIff(d, target);
    var kept := UpTo(d.wal, target);
    if kept != [] {
      assert kept[0] == d.wal[0];
    }
  }

  /** In every run from an empty store, a restore that succeeds aims neither below the manifest
      published by then nor beyond the log. */
  lemma RestoresAreInRange(acts: seq<Action>, target: nat)
    ensures var d := Run(EMPTY_WORLD, acts).disk;
            Trim(d, target).Ok? ==> Published(d) <= target <= Latest(d)
  {
    TrimIff(Run(EMPTY_WORLD, acts).disk, target);
  }

  // ---------------------------------------------------------------- a checkpoint ends the restores to its past

  /** Outside compactions, and in a started checkpoint past the number by its own record. */
  ghost predicate Logging(w: World, lsn: nat) {
    && NextLsn(w.disk.wal) > lsn
    && (w.mem.Some? ==>
          && w.mem.value.nextLsn > lsn
          && (w.mem.value.phase == Idle
              || (w.mem.value.phase in {CheckpointLogged, DeltaWritten} && w.mem.value.nextLsn > lsn + 1)))
  }

  /** Either no manifest was published since, or one above the number. */
  ghost predicate GrownOrPublished(w: World, lsn: nat, w': World) {
    Logging(w', lsn) && (GrownFrom(w, lsn, w') || ManifestLsn(w'.disk.manifest) > lsn)
  }

  lemma LoggingStep(w: World, lsn: nat, a: Action)
    requires Logging(w, lsn) && !a.CompactLog?
    ensures Logging(Step(w, a), lsn)
  {
  }

  lemma PublishedStays(w: World, lsn: nat, a: Action)
    requires Logging(w, lsn) && ManifestLsn(w.disk.manifest) > lsn
    ensures ManifestLsn(Step(w, a).disk.manifest) > lsn
  {
  }

  lemma StepGrowsOrPublishes(w: World, lsn: nat, w': World, a: Action)
    requires GrownOrPublished(w, lsn, w') && !a.CompactLog?
    ensures GrownOrPublished(w, lsn, Step(w', a))
  {
    LoggingStep(w', lsn, a);
    if ManifestLsn(w'.disk.manifest) > lsn {
      PublishedStays(w', lsn, a);
    } else if Unpublished(a) {
      UnpublishedStepGrows(w, lsn, w', a);
    } else {
      PublishedOrSame(w', lsn, a);
    }
  }

  lemma PublishedOrSame(w: World, lsn: nat, a: Action)
    requires Logging(w, lsn) && !Unpublished(a)
    ensures Step(w, a) == w || ManifestLsn(Step(w, a).disk.manifest) > lsn
  {
  }

  lemma {:induction false} RunGrowsOrPublishes(w: World, lsn: nat, w': World, acts: seq<Action>)
    requires GrownOrPublished(w, lsn, w') && forall a | a in acts :: !a.CompactLog?
    ensures GrownOrPublished(w, lsn, Run(w', acts))
    decreases |acts|
  {
    if acts != [] {
      StepGrowsOrPublishes(w, lsn, w', acts[0]);
      RunGrowsOrPublishes(w, lsn, Step(w', acts[0]), acts[1..]);
    }
  }

  lemma TargetIsLogging(w: World)
    requires Target(w)
    ensures GrownOrPublished(w, w.mem.value.nextLsn - 1, w)
  {
    TargetNumbers(w);
    GrownFromItself(w);
  }

  /** Over every run without a compaction, crashes included, a moment can be restored exactly as
      long as no manifest has been published since. */
  lemma RestorableUntilPublished(w: World, acts: seq<Action>)
    requires Target(w) && forall a | a in acts :: !a.CompactLog?
    ensures var d := Run(w, acts).disk;
            Trim(d, w.mem.value.nextLsn - 1).Ok? <==> d.manifest == w.disk.manifest
  {
    var lsn := w.mem.value.nextLsn - 1;
    TargetIsLogging(w);
    RunGrowsOrPublishes(w, lsn, w, acts);
    TrimIff(Run(w, acts).disk, lsn);
    if ManifestLsn(Run(w, acts).disk.manifest) <= lsn {
      TargetNumbers(w);
      TrimFindsOldLog(w, Run(w, acts));
    }
  }

  /** Write "a" (number 1), write "b" (2), checkpoint (3): a restore to 1 is refused. */
  lemma CheckpointEndsRestores(acts: seq<Action>) returns (w: World)
    requires acts == [Write(NODE_B)] + ([CheckpointLog, CheckpointDelta] + [CheckpointPublish])
    ensures w == Run(EMPTY_WORLD, [Write(NODE_A)]) && w.mem.Some? && w.mem.value.nextLsn == 2
    ensures Published(Run(w, acts).disk) == 3 && Trim(Run(w, acts).disk, 1) == Err(Validation)
  {
    w := WithA();
    var w2 := Grown(w, NODE_B);
    WriteB(w);
    RunConcat(w, [Write(NODE_B)], [CheckpointLog, CheckpointDelta] + [CheckpointPublish]);
    RunOne(w, Write(NODE_B));
    CheckpointRuns(w2);
  }

  lemma CheckpointRuns(w: World)
    requires InPhase(w, Idle) && w.mem.value.nextLsn == 3
    ensures Published(Run(w, [CheckpointLog, CheckpointDelta] + [CheckpointPublish]).disk) == 3
  {
    RunConcat(w, [CheckpointLog, CheckpointDelta], [CheckpointPublish]);
    RunTwo(w, CheckpointLog, CheckpointDelta);
    RunOne(Step(Step(w, CheckpointLog), CheckpointDelta), CheckpointPublish);
  }
}
