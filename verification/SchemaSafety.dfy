/** Safety of the data-schema transaction over all runs: calls of any requests, each stopped
    anywhere, with the application writing in between. */
module SchemaSafety {
  import opened Wrappers
  import opened SchemaDisk
  import opened SchemaProtocol

  /** What it means for the application that its data is whole at a schema version (None: before
      any schema was applied).  Every theorem below holds for every such meaning. */
  type Meaning = (Data, Option<nat>) -> bool

  ghost predicate JournalSound(root: Path, d: Disk) {
    d.pending.Some? ==>
      var p := d.pending.value;
      && Publishable(p) && !Recursive(root, p.paths)
      && p.backup == Name(p.from, p.to)
      && p.backup in d.snapshots
      && d.snapshots[p.backup].paths == p.paths
      && (Committed(d, p) || SourceCurrent(d, p))
  }

  ghost predicate RecordsSound(d: Disk) {
    && (forall n :: n in d.snapshots ==> Matches(d.snapshots[n], n.from, n.to) && WellCaptured(d.snapshots[n]))
    && (d.applied.Some? ==>
          && d.applied.value.version > 0
          && d.applied.value.backup.to == d.applied.value.version
          && d.applied.value.backup in d.snapshots)
    && (d.ready.Some? ==> d.ready == AppliedVersion(d))
  }

  /** A journal stands for a migration that has not committed. */
  predicate Uncommitted(d: Disk) {
    d.pending.Some? && !Committed(d, d.pending.value)
  }

  ghost predicate DataSound(whole: Meaning, d: Disk) {
    if Uncommitted(d) then
      d.pending.value.backup in d.snapshots
      && whole(Restored(d.data, d.snapshots[d.pending.value.backup]), d.pending.value.from)
    else
      whole(d.data, AppliedVersion(d))
  }

  /** The invariant of every durable state. */
  ghost predicate Inv(whole: Meaning, root: Path, d: Disk) {
    JournalSound(root, d) && RecordsSound(d) && DataSound(whole, d)
  }

  ghost predicate AllInv(whole: Meaning, root: Path, trail: seq<Disk>) {
    forall k :: 0 <= k < |trail| ==> Inv(whole, root, trail[k])
  }

  // ----- One call keeps the invariant at every durable state -----

  lemma RestoredIsStable(data: Data, snap: Snapshot)
    requires WellCaptured(snap)
    ensures Restored(Restored(data, snap), snap) == Restored(data, snap)
  {
    assert Without(Restored(data, snap), snap.paths) == Without(data, snap.paths);
  }

  /** Under an uncommitted journal, data may be torn in any way that does not move what the
      snapshot restores it to. */
  lemma TornDataIsSound(whole: Meaning, root: Path, d: Disk, torn: Data)
    requires Inv(whole, root, d) && Uncommitted(d)
    requires var snap := d.snapshots[d.pending.value.backup]; Restored(torn, snap) == Restored(d.data, snap)
    ensures Inv(whole, root, d.(data := torn))
  {
  }

  /** The three records of a rollback whose data is back. */
  lemma RollbackRecordsAreSound(whole: Meaning, root: Path, d: Disk)
    requires Inv(whole, root, d) && Uncommitted(d)
    requires d.data == Restored(d.data, d.snapshots[d.pending.value.backup])
    ensures var p := d.pending.value;
            var fenced := d.(ready := p.from);
            && Inv(whole, root, fenced)
            && Inv(whole, root, fenced.(pending := None))
            && Inv(whole, root, fenced.(pending := None, snapshots := d.snapshots - {p.backup}))
  {
  }

  /** The same transaction, still unresolved, over data that restores to the same. */
  predicate StillDue(before: Disk, after: Disk) {
    && after == before.(data := after.data)
    && Uncommitted(before) && before.pending.value.backup in before.snapshots
    && var snap := before.snapshots[before.pending.value.backup];
       Without(after.data, snap.paths) == Without(before.data, snap.paths)
  }

  lemma RestoreStatesAreSound(whole: Meaning, root: Path, d: Disk, removals: seq<seq<set<Path>>>)
    requires Inv(whole, root, d) && Uncommitted(d)
    ensures var snap := d.snapshots[d.pending.value.backup];
            var states := RestoreSteps(d.data, snap, 0, removals);
            AllInv(whole, root, OnDisk(d, states)) && StillDue(d, d.(data := Last(d.data, states)))
  {
    var snap := d.snapshots[d.pending.value.backup];
    var states := RestoreSteps(d.data, snap, 0, removals);
    forall k | 0 <= k < |states|
      ensures Inv(whole, root, d.(data := states[k])) && Without(states[k], snap.paths) == Without(d.data, snap.paths)
    {
      RestoreStepsKeepOutside(d.data, snap, 0, removals, k);
      TornDataIsSound(whole, root, d, states[k]);
    }
  }

  /** The rollback of an uncommitted journal: every state is sound.  If every backup path can be
      reached, the end has the data restored exactly, the source version fenced, and neither journal
      nor snapshot; if not, the journal and its snapshot stay. */
  lemma RollbackIsSound(whole: Meaning, root: Path, d: Disk, removals: seq<seq<set<Path>>>)
    requires Inv(whole, root, d) && Uncommitted(d)
    ensures var p := d.pending.value;
            var snap := d.snapshots[p.backup];
            var steps := RollbackSteps(d, p.backup, snap, p.from, removals);
            && AllInv(whole, root, steps)
            && if Restorable(d.data, snap, 0) then
                 Last(d, steps) == Disk(Restored(d.data, snap), d.snapshots - {p.backup}, None, d.applied, p.from)
               else
                 StillDue(d, Last(d, steps))
  {
    var p := d.pending.value;
    var snap := d.snapshots[p.backup];
    RestoreStatesAreSound(whole, root, d, removals);
    if Restorable(d.data, snap, 0) {
      RestoreEndsRestored(d.data, snap, 0, removals);
      RestoredIsStable(d.data, snap);
      var restored := d.(data := Restored(d.data, snap));
      TornDataIsSound(whole, root, d, restored.data);
      RollbackRecordsAreSound(whole, root, restored);
    }
  }

  /** Recovery of this disk comes to its end. */
  predicate Recoverable(d: Disk) {
    Uncommitted(d) ==>
      d.pending.value.backup in d.snapshots && Restorable(d.data, d.snapshots[d.pending.value.backup], 0)
  }

  /** On every sound disk recovery keeps every state sound, never finds the journal incompatible or
      its backup missing, and completes exactly when the backup paths can be reached; a recovery
      that does not complete leaves the transaction due. */
  lemma RecoverIsSound(whole: Meaning, root: Path, d: Disk, removals: seq<seq<set<Path>>>)
    requires Inv(whole, root, d)
    ensures var run := RecoverRun(root, d, removals);
            && run.outcome == (if Recoverable(d) then Ready else RestoreFailed)
            && AllInv(whole, root, run.trail)
            && Last(d, run.trail).applied == d.applied
            && Inv(whole, root, Last(d, run.trail))
            && (Recoverable(d) ==> Last(d, run.trail).pending == None)
            && (!Recoverable(d) ==> StillDue(d, Last(d, run.trail)))
  {
    if Uncommitted(d) {
      RollbackIsSound(whole, root, d, removals);
    }
  }

  /** The contract of a migrator that reports success: whole data becomes whole at the new
      version.  One that fails, or is interrupted, promises nothing about the backup paths. */
  ghost predicate MigratorKeepsWhole(whole: Meaning, base: Data, from: Option<nat>, req: Request, w: World) {
    (req.migrator ==> w.succeeds) && whole(base, from) ==> whole(Migrated(base, req, w), Some(req.version))
  }

  predicate Upgrades(d: Disk, req: Request) {
    d.applied.Some? ==> d.applied.value.version < req.version
  }

  /** The disk on which the migrator runs: journal published, fence down, data not yet touched. */
  function Prepared(d: Disk, req: Request): Disk {
    Disk(d.data, d.snapshots[TransactionName(d, req) := Captured(d, req)], Some(Journal(d, req)), d.applied, None)
  }

  lemma SnappedIsSound(whole: Meaning, root: Path, d: Disk, req: Request)
    requires Inv(whole, root, d) && d.pending.None? && Upgrades(d, req) && !Recursive(root, req.paths)
    ensures var snapped := d.(snapshots := d.snapshots[TransactionName(d, req) := Captured(d, req)]);
            Inv(whole, root, snapped) && Inv(whole, root, snapped.(ready := None))
    ensures Publishable(Journal(d, req)) ==> Inv(whole, root, Prepared(d, req))
  {
    CaptureThenRestore(d.data, d.data, Captured(d, req));
  }

  lemma PrepareIsSound(whole: Meaning, root: Path, d: Disk, req: Request)
    requires Inv(whole, root, d) && d.pending.None? && Upgrades(d, req) && !Recursive(root, req.paths)
    ensures AllInv(whole, root, PrepareSteps(d, req))
    ensures Publishable(Journal(d, req)) ==> Last(d, PrepareSteps(d, req)) == Prepared(d, req)
  {
    var name := TransactionName(d, req);
    SnappedIsSound(whole, root, d, req);
    assert (d.snapshots - {name})[name := Captured(d, req)] == d.snapshots[name := Captured(d, req)];
    if name in d.snapshots {
      assert Inv(whole, root, d.(snapshots := d.snapshots - {name}));
    }
  }

  /** A migrator writes below its declared paths only. */
  lemma MigratorSpares(base: Data, paths: seq<Path>, write: Data)
    ensures Without(MigratorState(base, paths, write), paths) == Without(base, paths)
  {
    forall p
      ensures p in Without(MigratorState(base, paths, write), paths) <==> p in Without(base, paths)
      ensures p in Without(base, paths) ==> MigratorState(base, paths, write)[p] == base[p]
    {
      assert p in Within(write, paths) ==> Inside(p, paths);
    }
  }

  lemma MigratorStateIsSound(whole: Meaning, root: Path, d: Disk, req: Request, write: Data)
    requires Inv(whole, root, Prepared(d, req)) && d.pending.None? && Upgrades(d, req)
    ensures Restored(MigratorState(d.data, req.paths, write), Captured(d, req)) == d.data
    ensures Inv(whole, root, Prepared(d, req).(data := MigratorState(d.data, req.paths, write)))
  {
    MigratorSpares(d.data, req.paths, write);
    CaptureThenRestore(d.data, MigratorState(d.data, req.paths, write), Captured(d, req));
    CaptureThenRestore(d.data, d.data, Captured(d, req));
  }

  lemma MigratedIsLast(d: Disk, req: Request, w: World)
    ensures Migrated(d.data, req, w) == if req.migrator && w.writes != []
                                        then MigratorState(d.data, req.paths, w.writes[|w.writes| - 1]) else d.data
  {
  }

  lemma MigratedRestores(d: Disk, req: Request, w: World)
    ensures Restored(Migrated(d.data, req, w), Captured(d, req)) == d.data
  {
    MigratedIsLast(d, req, w);
    if req.migrator && w.writes != [] {
      MigratorSpares(d.data, req.paths, w.writes[|w.writes| - 1]);
    }
    CaptureThenRestore(d.data, Migrated(d.data, req, w), Captured(d, req));
  }

  lemma MigratedIsSound(whole: Meaning, root: Path, d: Disk, req: Request, w: World)
    requires Inv(whole, root, Prepared(d, req)) && d.pending.None? && Upgrades(d, req)
    ensures Inv(whole, root, Prepared(d, req).(data := Migrated(d.data, req, w)))
  {
    MigratedIsLast(d, req, w);
    if req.migrator && w.writes != [] {
      MigratorStateIsSound(whole, root, d, req, w.writes[|w.writes| - 1]);
    } else {
      assert Prepared(d, req).(data := Migrated(d.data, req, w)) == Prepared(d, req);
    }
  }

  lemma CommitIsSound(whole: Meaning, root: Path, d: Disk, req: Request, migrated: Data)
    requires d.pending.None? && Upgrades(d, req)
    requires Inv(whole, root, Prepared(d, req).(data := migrated)) && whole(migrated, Some(req.version))
    ensures AllInv(whole, root, CommitSteps(Prepared(d, req).(data := migrated), req, TransactionName(d, req)))
  {
  }

  lemma MigratorStatesAreSound(whole: Meaning, root: Path, d: Disk, req: Request, w: World)
    requires Inv(whole, root, Prepared(d, req)) && d.pending.None? && Upgrades(d, req)
    ensures AllInv(whole, root, OnDisk(Prepared(d, req), MigratorStates(d.data, req, w)))
  {
    var p, states := Prepared(d, req), MigratorStates(d.data, req, w);
    forall k | 0 <= k < |states|
      ensures Inv(whole, root, p.(data := states[k]))
    {
      MigratorStateIsSound(whole, root, d, req, w.writes[k]);
    }
  }

  /** A failed migration: rolled back byte for byte, or left due. */
  lemma FailureIsSound(whole: Meaning, root: Path, d: Disk, req: Request, w: World)
    requires Inv(whole, root, Prepared(d, req)) && d.pending.None? && Upgrades(d, req) && req.migrator && !w.succeeds
    ensures var p, name := Prepared(d, req), TransactionName(d, req);
            var run := SettleRun(p, req, w, name, Captured(d, req));
            && AllInv(whole, root, run.trail)
            && if Restorable(Migrated(d.data, req, w), Captured(d, req), 0) then
                 run.outcome == MigrationFailed
                 && Last(p, run.trail) == Disk(d.data, p.snapshots - {name}, None, d.applied, AppliedVersion(d))
               else
                 run.outcome == MigrationRestoreFailed && StillDue(p, Last(p, run.trail))
  {
    var p, name := Prepared(d, req), TransactionName(d, req);
    var migrated := p.(data := Migrated(d.data, req, w));
    var states := OnDisk(p, MigratorStates(d.data, req, w));
    MigratorStatesAreSound(whole, root, d, req, w);
    MigratedRestores(d, req, w);
    MigratedIsSound(whole, root, d, req, w);
    RollbackIsSound(whole, root, migrated, w.rollback);
    AllInvConcat(whole, root, p, states, RollbackSteps(migrated, name, Captured(d, req), AppliedVersion(d), w.rollback));
    assert Last(p, states) == migrated;
  }

  lemma SuccessIsSound(whole: Meaning, root: Path, d: Disk, req: Request, w: World)
    requires Inv(whole, root, Prepared(d, req)) && d.pending.None? && Upgrades(d, req) && (req.migrator ==> w.succeeds)
    requires whole(d.data, AppliedVersion(d)) && MigratorKeepsWhole(whole, d.data, AppliedVersion(d), req, w)
    ensures var p, name := Prepared(d, req), TransactionName(d, req);
            var run := SettleRun(p, req, w, name, Captured(d, req));
            && AllInv(whole, root, run.trail) && run.outcome == Ready
            && Last(p, run.trail)
               == Disk(Migrated(d.data, req, w), p.snapshots, None, Some(Applied(req.version, name)), Some(req.version))
  {
    var p, name := Prepared(d, req), TransactionName(d, req);
    var migrated := p.(data := Migrated(d.data, req, w));
    MigratorStatesAreSound(whole, root, d, req, w);
    MigratedIsSound(whole, root, d, req, w);
    CommitIsSound(whole, root, d, req, migrated.data);
    AllInvConcat(whole, root, p, OnDisk(p, MigratorStates(d.data, req, w)), CommitSteps(migrated, req, name));
  }

  /** From a prepared disk: a success commits the migrated data; a failure gives back the data byte
      for byte, exactly when the backup paths can be reached, and otherwise leaves it due; and every
      state on the way is sound. */
  lemma SettleIsSound(whole: Meaning, root: Path, d: Disk, req: Request, w: World)
    requires Inv(whole, root, Prepared(d, req)) && d.pending.None? && Upgrades(d, req)
    requires whole(d.data, AppliedVersion(d)) && MigratorKeepsWhole(whole, d.data, AppliedVersion(d), req, w)
    ensures var name := TransactionName(d, req);
            var p := Prepared(d, req);
            var run := SettleRun(p, req, w, name, Captured(d, req));
            && AllInv(whole, root, run.trail)
            && run.outcome in {Ready, MigrationFailed, MigrationRestoreFailed}
            && (run.outcome == Ready ==>
                  Last(p, run.trail)
                  == Disk(Migrated(d.data, req, w), p.snapshots, None, Some(Applied(req.version, name)), Some(req.version)))
            && (run.outcome == MigrationFailed ==>
                  Last(p, run.trail) == Disk(d.data, p.snapshots - {name}, None, d.applied, AppliedVersion(d)))
            && (run.outcome == MigrationRestoreFailed ==>
                  !Restorable(Migrated(d.data, req, w), Captured(d, req), 0) && StillDue(p, Last(p, run.trail)))
  {
    if req.migrator && !w.succeeds {
      FailureIsSound(whole, root, d, req, w);
    } else {
      SuccessIsSound(whole, root, d, req, w);
    }
  }

  /** What a call that runs to its end has achieved, once recovery was through. */
  ghost predicate Achieved(whole: Meaning, recovered: Disk, req: Request, outcome: Outcome, end: Disk) {
    match outcome
    case Ready =>
      && end.pending.None?
      && AppliedVersion(end) == Some(req.version) && end.ready == Some(req.version) && whole(end.data, Some(req.version))
    case MigrationFailed =>
      && end.pending.None?
      && req.migrator && end.data == recovered.data && end.applied == recovered.applied && end.ready == AppliedVersion(end)
    case MigrationRestoreFailed =>
      req.migrator && StillDue(Prepared(recovered, req), end)
    case Downgrade(applied, requested) =>
      && end.pending.None?
      && end == recovered && AppliedVersion(end) == Some(applied) && requested == req.version < applied
    case InvalidBackup =>
      && Blocked(recovered.data, req.paths)
      && end == recovered.(snapshots := recovered.snapshots - {TransactionName(recovered, req)})
    case InvalidState =>
      && end.pending.None?
      && !Publishable(Journal(recovered, req)) && end.data == recovered.data && end.applied == recovered.applied
    case _ => false
  }

  /** A refused capture leaves data, applied version, fence and journal as they were. */
  lemma OrphanIsSound(whole: Meaning, root: Path, d: Disk, req: Request)
    requires Inv(whole, root, d) && d.pending.None? && Upgrades(d, req) && !Recursive(root, req.paths)
    ensures var orphans := OrphanSteps(d, TransactionName(d, req));
            && AllInv(whole, root, orphans)
            && Last(d, orphans) == d.(snapshots := d.snapshots - {TransactionName(d, req)})
  {
    var name := TransactionName(d, req);
    PrepareIsSound(whole, root, d, req);
    if name in d.snapshots {
      assert PrepareSteps(d, req)[0] == d.(snapshots := d.snapshots - {name});
    } else {
      assert d.snapshots - {name} == d.snapshots;
    }
  }

  lemma UnblockedIsSound(whole: Meaning, root: Path, d: Disk, req: Request, w: World)
    requires Inv(whole, root, d) && d.pending.None? && Upgrades(d, req) && !Recursive(root, req.paths)
    requires MigratorKeepsWhole(whole, d.data, AppliedVersion(d), req, w) && Publishable(Journal(d, req))
    ensures var settle := SettleRun(Prepared(d, req), req, w, TransactionName(d, req), Captured(d, req));
            && AllInv(whole, root, PrepareSteps(d, req) + settle.trail) && settle.outcome != InvalidBackup
            && Achieved(whole, d, req, settle.outcome, Last(d, PrepareSteps(d, req) + settle.trail))
  {
    PrepareIsSound(whole, root, d, req);
    SnappedIsSound(whole, root, d, req);
    SettleIsSound(whole, root, d, req, w);
    var settle := SettleRun(Prepared(d, req), req, w, TransactionName(d, req), Captured(d, req));
    AllInvConcat(whole, root, d, PrepareSteps(d, req), settle.trail);
  }

  lemma MigrateIsSound(whole: Meaning, root: Path, d: Disk, req: Request, w: World)
    requires Inv(whole, root, d) && d.pending.None? && Upgrades(d, req) && !Recursive(root, req.paths)
    requires MigratorKeepsWhole(whole, d.data, AppliedVersion(d), req, w)
    ensures var run := MigrateRun(d, req, w);
            && AllInv(whole, root, run.trail) && Achieved(whole, d, req, run.outcome, Last(d, run.trail))
            && (run.outcome == InvalidBackup <==> Blocked(d.data, req.paths))
  {
    PrepareIsSound(whole, root, d, req);
    if Blocked(d.data, req.paths) {
      OrphanIsSound(whole, root, d, req);
    } else if Publishable(Journal(d, req)) {
      UnblockedIsSound(whole, root, d, req, w);
    }
  }

  lemma DecideIsSound(whole: Meaning, root: Path, d: Disk, req: Request, w: World)
    requires Inv(whole, root, d) && d.pending.None? && !Recursive(root, req.paths)
    requires MigratorKeepsWhole(whole, d.data, AppliedVersion(d), req, w)
    ensures var run := DecideRun(d, req, w);
            && AllInv(whole, root, run.trail) && Achieved(whole, d, req, run.outcome, Last(d, run.trail))
            && (run.outcome == InvalidBackup <==> Upgrades(d, req) && Blocked(d.data, req.paths))
  {
    if Upgrades(d, req) {
      MigrateIsSound(whole, root, d, req, w);
    }
  }

  /** The disk from which a call decides, once crash recovery is through. */
  function Recovered(root: Path, d: Disk, w: World): Disk {
    Last(d, RecoverRun(root, d, w.recovery).trail)
  }

  lemma AllInvConcat(whole: Meaning, root: Path, d: Disk, first: seq<Disk>, second: seq<Disk>)
    requires AllInv(whole, root, first) && AllInv(whole, root, second)
    ensures AllInv(whole, root, first + second)
    ensures Last(d, first + second) == Last(Last(d, first), second)
  {
  }

  /** A sound disk that can be recovered recovers, and then decides. */
  lemma ApplyUnfolds(whole: Meaning, root: Path, d: Disk, req: Request, w: World)
    requires Inv(whole, root, d) && !Recursive(root, req.paths) && Recoverable(d)
    ensures var recovered := Recovered(root, d, w);
            && Inv(whole, root, recovered) && recovered.pending.None? && recovered.applied == d.applied
            && ApplyRun(root, d, req, w)
               == Run(RecoverRun(root, d, w.recovery).trail + DecideRun(recovered, req, w).trail,
                      DecideRun(recovered, req, w).outcome)
  {
    RecoverIsSound(whole, root, d, w.recovery);
  }

  /** One call on a sound disk: every durable state is sound; it fails in recovery exactly when the
      disk cannot be recovered, and then leaves the transaction due; it is refused at the capture
      exactly when it is an upgrade with a blocked path, and then nothing is due; the only other
      refusals are the recursion check, a downgrade and an unpublishable request (never a missing
      backup or an incompatible journal); and each outcome leaves what it promises. */
  lemma ApplyIsSound(whole: Meaning, root: Path, d: Disk, req: Request, w: World)
    requires Inv(whole, root, d)
    requires MigratorKeepsWhole(whole, Recovered(root, d, w).data, AppliedVersion(d), req, w)
    ensures var run := ApplyRun(root, d, req, w);
            && AllInv(whole, root, run.trail)
            && (run.outcome == RecursiveBackup <==> Recursive(root, req.paths))
            && (run.outcome == RestoreFailed <==> !Recursive(root, req.paths) && !Recoverable(d))
            && (run.outcome == InvalidBackup <==>
                  && !Recursive(root, req.paths) && Recoverable(d)
                  && Upgrades(d, req) && Blocked(Recovered(root, d, w).data, req.paths))
            && match run.outcome {
                 case RecursiveBackup => run.trail == []
                 case RestoreFailed => StillDue(d, Last(d, run.trail))
                 case _ => Achieved(whole, Recovered(root, d, w), req, run.outcome, Last(d, run.trail))
               }
  {
    RecoverIsSound(whole, root, d, w.recovery);
    if !Recursive(root, req.paths) && Recoverable(d) {
      var recovered := Recovered(root, d, w);
      ApplyUnfolds(whole, root, d, req, w);
      DecideIsSound(whole, root, recovered, req, w);
      AllInvConcat(whole, root, d, RecoverRun(root, d, w.recovery).trail, DecideRun(recovered, req, w).trail);
    }
  }

  // ----- The applied version never decreases -----

  predicate Advances(before: Disk, after: Disk) {
    before.applied.Some? ==>
      after.applied.Some? && before.applied.value.version <= after.applied.value.version
  }

  lemma RollbackKeepsApplied(d: Disk, name: Name, snap: Snapshot, from: Option<nat>, removals: seq<seq<set<Path>>>, k: nat)
    requires k < |RollbackSteps(d, name, snap, from, removals)|
    ensures RollbackSteps(d, name, snap, from, removals)[k].applied == d.applied
  {
  }

  lemma RecoverKeepsApplied(root: Path, d: Disk, removals: seq<seq<set<Path>>>, k: nat)
    requires k < |RecoverRun(root, d, removals).trail|
    ensures RecoverRun(root, d, removals).trail[k].applied == d.applied
  {
  }

  lemma SettleAdvances(d: Disk, req: Request, w: World, name: Name, snap: Snapshot, k: nat)
    requires Upgrades(d, req) && k < |SettleRun(d, req, w, name, snap).trail|
    ensures Advances(d, SettleRun(d, req, w, name, snap).trail[k])
  {
    var states := MigratorStates(d.data, req, w);
    if k >= |states| && req.migrator && !w.succeeds {
      var migrated := d.(data := Migrated(d.data, req, w));
      RollbackKeepsApplied(migrated, name, snap, snap.from, w.rollback, k - |states|);
    }
  }

  lemma MigrateAdvances(d: Disk, req: Request, w: World, k: nat)
    requires Upgrades(d, req) && k < |MigrateRun(d, req, w).trail|
    ensures Advances(d, MigrateRun(d, req, w).trail[k])
  {
    var prepare := PrepareSteps(d, req);
    assert forall i :: 0 <= i < |prepare| ==> prepare[i].applied == d.applied;
    if !Blocked(d.data, req.paths) && k >= |prepare| {
      SettleAdvances(Last(d, prepare), req, w, TransactionName(d, req), Captured(d, req), k - |prepare|);
    }
  }

  lemma ApplyAdvances(root: Path, d: Disk, req: Request, w: World, k: nat)
    requires k < |ApplyRun(root, d, req, w).trail|
    ensures Advances(d, ApplyRun(root, d, req, w).trail[k])
  {
    var recover := RecoverRun(root, d, w.recovery).trail;
    if k < |recover| {
      RecoverKeepsApplied(root, d, w.recovery, k);
    } else {
      var recovered := Recovered(root, d, w);
      assert recovered.applied == d.applied by {
        if recover != [] {
          RecoverKeepsApplied(root, d, w.recovery, |recover| - 1);
        }
      }
      if Upgrades(recovered, req) {
        MigrateAdvances(recovered, req, w, k - |recover|);
      }
    }
  }

  // ----- All runs -----

  datatype Event =
    | Call(req: Request, world: World, stop: nat)
    | Write(data: Data)

  function Step(root: Path, d: Disk, e: Event): Disk {
    match e
    case Call(req, w, stop) => After(d, ApplyRun(root, d, req, w).trail, stop)
    case Write(data) => d.(data := data)
  }

  /** A migrator honours its contract.  The application writes data that is whole at the applied
      version; while a journal is unresolved it may do so only under a raised fence, and then what
      recovery would leave of the write must be whole too. */
  ghost predicate Admissible(whole: Meaning, root: Path, d: Disk, e: Event) {
    match e
    case Call(req, w, _) => MigratorKeepsWhole(whole, Recovered(root, d, w).data, AppliedVersion(d), req, w)
    case Write(data) =>
      && whole(data, AppliedVersion(d))
      && (Uncommitted(d) ==>
            && d.ready.Some? && d.pending.value.backup in d.snapshots
            && whole(Restored(data, d.snapshots[d.pending.value.backup]), d.pending.value.from))
  }

  /** A write that stays below the backup paths is always of that kind. */
  lemma ConfinedWriteIsAdmissible(whole: Meaning, root: Path, d: Disk, data: Data)
    requires Inv(whole, root, d) && d.ready.Some? && whole(data, AppliedVersion(d))
    requires Uncommitted(d) ==>
               var paths := d.snapshots[d.pending.value.backup].paths; Without(data, paths) == Without(d.data, paths)
    ensures Admissible(whole, root, d, Write(data))
  {
  }

  function RunEvents(root: Path, d: Disk, events: seq<Event>): Disk
    decreases |events|
  {
    if events == [] then d else RunEvents(root, Step(root, d, events[0]), events[1..])
  }

  ghost predicate AdmissibleRun(whole: Meaning, root: Path, d: Disk, events: seq<Event>)
    decreases |events|
  {
    events == []
    || (Admissible(whole, root, d, events[0]) && AdmissibleRun(whole, root, Step(root, d, events[0]), events[1..]))
  }

  lemma StepIsSound(whole: Meaning, root: Path, d: Disk, e: Event)
    requires Inv(whole, root, d) && Admissible(whole, root, d, e)
    ensures Inv(whole, root, Step(root, d, e)) && Advances(d, Step(root, d, e))
  {
    if e.Call? {
      ApplyIsSound(whole, root, d, e.req, e.world);
      var trail := ApplyRun(root, d, e.req, e.world).trail;
      forall k | 0 <= k < |trail|
        ensures Advances(d, trail[k])
      {
        ApplyAdvances(root, d, e.req, e.world, k);
      }
    }
  }

  /** Over every run, with every call stopped after any number of durable steps, the disk stays
      sound and the applied version never decreases. */
  lemma {:induction false} RunsAreSound(whole: Meaning, root: Path, d: Disk, events: seq<Event>)
    requires Inv(whole, root, d) && AdmissibleRun(whole, root, d, events)
    ensures Inv(whole, root, RunEvents(root, d, events)) && Advances(d, RunEvents(root, d, events))
    decreases |events|
  {
    if events != [] {
      StepIsSound(whole, root, d, events[0]);
      RunsAreSound(whole, root, Step(root, d, events[0]), events[1..]);
    }
  }

  function Fresh(data: Data): Disk {
    Disk(data, map[], None, None, None)
  }

  /** The run-level form of `apply` returning Ok, from the first start of an application on. */
  lemma SuccessAfterAnyRun(whole: Meaning, root: Path, data: Data, events: seq<Event>, req: Request, w: World)
    requires whole(data, None) && AdmissibleRun(whole, root, Fresh(data), events)
    requires var d := RunEvents(root, Fresh(data), events);
             && MigratorKeepsWhole(whole, Recovered(root, d, w).data, AppliedVersion(d), req, w)
             && ApplyRun(root, d, req, w).outcome == Ready
    ensures var d := RunEvents(root, Fresh(data), events);
            var end := Last(d, ApplyRun(root, d, req, w).trail);
            && whole(end.data, Some(req.version))
            && AppliedVersion(end) == Some(req.version) == end.ready
            && end.pending.None?
            && Advances(d, end)
  {
    var d := RunEvents(root, Fresh(data), events);
    RunsAreSound(whole, root, Fresh(data), events);
    ApplyIsSound(whole, root, d, req, w);
    StepIsSound(whole, root, d, Call(req, w, |ApplyRun(root, d, req, w).trail|));
  }
}
