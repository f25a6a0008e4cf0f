/** In what order a call of the data-schema transaction writes its records, and how it ends. */
module SchemaOrder {
  import opened Wrappers
  import opened SchemaDisk
  import opened SchemaProtocol
  import opened SchemaSafety
  import opened SchemaRecovery

  // ----- The fence and the journal -----

  /** One durable step writes one record, and no snapshot is ever rewritten. */
  predicate OneRecord(a: Disk, b: Disk) {
    && (|| b == a.(data := b.data) || b == a.(snapshots := b.snapshots) || b == a.(pending := b.pending)
        || b == a.(applied := b.applied) || b == a.(ready := b.ready))
    && forall n :: n in a.snapshots && n in b.snapshots ==> a.snapshots[n] == b.snapshots[n]
  }

  /** A journal appears only with the fence down and its data snapshotted, and it goes only with the
      fence that belongs to the applied version: up at that version, or down where there is none. */
  predicate JournalInOrder(a: Disk, b: Disk) {
    && (a.pending.None? && b.pending.Some? ==>
          && a.ready.None?
          && b.pending.value.backup in a.snapshots
          && var snap := a.snapshots[b.pending.value.backup];
             snap.paths == b.pending.value.paths && snap.content == Within(a.data, snap.paths))
    && (a.pending.Some? && b.pending.None? ==> a.ready == AppliedVersion(a))
  }

  /** The present data is recorded in a snapshot of the applied version. */
  predicate Snapshotted(d: Disk) {
    exists n :: n in d.snapshots && d.snapshots[n].from == AppliedVersion(d)
                && d.snapshots[n].content == Within(d.data, d.snapshots[n].paths)
  }

  /** The fence of a disk without a journal drops only when its data is snapshotted. */
  predicate FenceInOrder(a: Disk, b: Disk) {
    a.pending.None? && a.ready.Some? && b.ready.None? ==> Snapshotted(a)
  }

  predicate InOrder(a: Disk, b: Disk) {
    OneRecord(a, b) && JournalInOrder(a, b) && FenceInOrder(a, b)
  }

  /** Each state of the trail follows in order from the one before it. */
  predicate Follows(d: Disk, trail: seq<Disk>)
    decreases |trail|
  {
    trail == [] || (InOrder(d, trail[0]) && Follows(trail[0], trail[1..]))
  }

  lemma {:induction false} FollowsConcat(d: Disk, first: seq<Disk>, second: seq<Disk>)
    requires Follows(d, first) && Follows(Last(d, first), second)
    ensures Follows(d, first + second)
    decreases |first|
  {
    if first == [] {
      assert first + second == second;
    } else {
      assert Last(d, first) == Last(first[0], first[1..]);
      FollowsConcat(first[0], first[1..], second);
      assert (first + second)[1..] == first[1..] + second;
    }
  }

  lemma FollowsTwo(d: Disk, a: Disk, b: Disk)
    requires InOrder(d, a) && InOrder(a, b)
    ensures Follows(d, [a, b])
  {
    assert [a, b][1..] == [b];
    assert Follows(a, [b]);
  }

  lemma FollowsThree(d: Disk, a: Disk, b: Disk, c: Disk)
    requires InOrder(d, a) && InOrder(a, b) && InOrder(b, c)
    ensures Follows(d, [a, b, c])
  {
    assert [a, b, c][1..] == [b, c];
    FollowsTwo(a, b, c);
  }

  lemma {:induction false} DataFollows(d: Disk, states: seq<Data>)
    ensures Follows(d, OnDisk(d, states)) && Last(d, OnDisk(d, states)) == d.(data := Last(d.data, states))
    decreases |states|
  {
    if states != [] {
      var next := d.(data := states[0]);
      DataFollows(next, states[1..]);
      assert OnDisk(d, states)[1..] == OnDisk(next, states[1..]);
    }
  }

  lemma RecordsFollow(restored: Disk, name: Name, from: Option<nat>)
    requires restored.pending.Some? && AppliedVersion(restored) == from
    ensures Follows(restored, RecordSteps(restored, name, from))
  {
    var fenced := restored.(ready := from);
    var cleared := fenced.(pending := None);
    FollowsThree(restored, fenced, cleared, cleared.(snapshots := cleared.snapshots - {name}));
  }

  lemma RollbackFollows(d: Disk, name: Name, snap: Snapshot, from: Option<nat>, removals: seq<seq<set<Path>>>)
    requires d.pending.Some? && AppliedVersion(d) == from
    ensures Follows(d, RollbackSteps(d, name, snap, from, removals))
  {
    var states := RestoreSteps(d.data, snap, 0, removals);
    DataFollows(d, states);
    if Restorable(d.data, snap, 0) {
      var restored := d.(data := Last(d.data, states));
      RecordsFollow(restored, name, from);
      FollowsConcat(d, OnDisk(d, states), RecordSteps(restored, name, from));
    }
  }

  lemma RecoverFollows(whole: Meaning, root: Path, d: Disk, removals: seq<seq<set<Path>>>)
    requires Inv(whole, root, d)
    ensures Follows(d, RecoverRun(root, d, removals).trail)
  {
    if Uncommitted(d) {
      RecoversBy(whole, root, d, removals);
      RollbackFollows(d, d.pending.value.backup, d.snapshots[d.pending.value.backup], d.pending.value.from, removals);
    } else if d.pending.Some? {
      RecoversBy(whole, root, d, removals);
      var fenced := d.(ready := Some(d.pending.value.to));
      FollowsTwo(d, fenced, fenced.(pending := None));
    }
  }

  lemma OrphanFollows(d: Disk, name: Name)
    ensures Follows(d, OrphanSteps(d, name))
    ensures Last(d, OrphanSteps(d, name)) == d.(snapshots := d.snapshots - {name})
  {
    if name in d.snapshots {
      assert InOrder(d, OrphanSteps(d, name)[0]);
    } else {
      assert d.snapshots - {name} == d.snapshots;
    }
  }

  /** What follows the retirement of an orphan. */
  function PublishSteps(d: Disk, req: Request): seq<Disk> {
    var snapped := d.(snapshots := d.snapshots[TransactionName(d, req) := Captured(d, req)]);
    var unfenced := snapped.(ready := None);
    [snapped, unfenced] + if Publishable(Journal(d, req)) then [unfenced.(pending := Some(Journal(d, req)))] else []
  }

  lemma PrepareUnfolds(d: Disk, req: Request)
    ensures PrepareSteps(d, req) == OrphanSteps(d, TransactionName(d, req)) + PublishSteps(d, req)
  {
  }

  lemma PublishFollows(d: Disk, req: Request)
    requires d.pending.None?
    ensures Follows(d.(snapshots := d.snapshots - {TransactionName(d, req)}), PublishSteps(d, req))
    ensures Publishable(Journal(d, req)) ==> Last(d, PublishSteps(d, req)) == Prepared(d, req)
  {
    var name := TransactionName(d, req);
    var retired := d.(snapshots := d.snapshots - {name});
    var snapped := d.(snapshots := d.snapshots[name := Captured(d, req)]);
    var unfenced := snapped.(ready := None);
    assert InOrder(retired, snapped) && name in snapped.snapshots && Snapshotted(snapped);
    if Publishable(Journal(d, req)) {
      FollowsThree(retired, snapped, unfenced, unfenced.(pending := Some(Journal(d, req))));
    } else {
      FollowsTwo(retired, snapped, unfenced);
    }
  }

  lemma PrepareFollows(d: Disk, req: Request)
    requires d.pending.None?
    ensures Follows(d, PrepareSteps(d, req))
    ensures Publishable(Journal(d, req)) ==> Last(d, PrepareSteps(d, req)) == Prepared(d, req)
  {
    PrepareUnfolds(d, req);
    OrphanFollows(d, TransactionName(d, req));
    PublishFollows(d, req);
    FollowsConcat(d, OrphanSteps(d, TransactionName(d, req)), PublishSteps(d, req));
  }

  lemma CommitFollows(d: Disk, req: Request, name: Name)
    requires d.pending.Some?
    ensures Follows(d, CommitSteps(d, req, name))
  {
    var applied := d.(applied := Some(Applied(req.version, name)));
    var fenced := applied.(ready := Some(req.version));
    FollowsThree(d, applied, fenced, fenced.(pending := None));
  }

  lemma SettleFollows(d: Disk, req: Request, w: World, name: Name, snap: Snapshot)
    requires d.pending.Some? && AppliedVersion(d) == snap.from
    ensures Follows(d, SettleRun(d, req, w, name, snap).trail)
  {
    var states, migrated := MigratorStates(d.data, req, w), d.(data := Migrated(d.data, req, w));
    DataFollows(d, states);
    if req.migrator && !w.succeeds {
      RollbackFollows(migrated, name, snap, snap.from, w.rollback);
      FollowsConcat(d, OnDisk(d, states), RollbackSteps(migrated, name, snap, snap.from, w.rollback));
    } else {
      CommitFollows(migrated, req, name);
      FollowsConcat(d, OnDisk(d, states), CommitSteps(migrated, req, name));
    }
  }

  lemma DecideFollows(d: Disk, req: Request, w: World)
    requires d.pending.None?
    ensures Follows(d, DecideRun(d, req, w).trail)
  {
    if Upgrades(d, req) && DecideRun(d, req, w).trail != [] {
      var name := TransactionName(d, req);
      if Blocked(d.data, req.paths) {
        OrphanFollows(d, name);
      } else {
        PrepareFollows(d, req);
        if Publishable(Journal(d, req)) {
          SettleFollows(Prepared(d, req), req, w, name, Captured(d, req));
          FollowsConcat(d, PrepareSteps(d, req), SettleRun(Prepared(d, req), req, w, name, Captured(d, req)).trail);
        }
      }
    }
  }

  /** Every call on a sound disk writes one record at a time and never rewrites a snapshot; it drops the
      fence only over a snapshot of the present data, writes its journal only after both, and removes
      it under the fence of the applied version. */
  lemma CallFollows(whole: Meaning, root: Path, d: Disk, req: Request, w: World)
    requires Inv(whole, root, d)
    ensures Follows(d, ApplyRun(root, d, req, w).trail)
  {
    if !Recursive(root, req.paths) {
      RecoverFollows(whole, root, d, w.recovery);
      RecoverIsSound(whole, root, d, w.recovery);
      if Recoverable(d) {
        ApplyUnfolds(whole, root, d, req, w);
        DecideFollows(Recovered(root, d, w), req, w);
        FollowsConcat(d, RecoverRun(root, d, w.recovery).trail, DecideRun(Recovered(root, d, w), req, w).trail);
      }
    }
  }

  // ----- Where the fence is up over a journal -----

  /** The fence is up under an uncommitted journal. */
  predicate RaisedEarly(d: Disk) {
    d.ready.Some? && Uncommitted(d)
  }

  predicate NeverRaisedEarly(trail: seq<Disk>) {
    forall k :: 0 <= k < |trail| ==> !RaisedEarly(trail[k])
  }

  lemma PrepareIsLow(d: Disk, req: Request)
    requires d.pending.None?
    ensures NeverRaisedEarly(PrepareSteps(d, req))
  {
  }

  lemma RecordsKeepData(restored: Disk, name: Name, from: Option<nat>)
    ensures forall k :: 0 <= k < 3 ==> RecordSteps(restored, name, from)[k].data == restored.data
  {
  }

  lemma RollbackRaises(d: Disk, name: Name, snap: Snapshot, from: Option<nat>, removals: seq<seq<set<Path>>>, k: nat)
    requires d.ready.None? && WellCaptured(snap)
    requires k < |RollbackSteps(d, name, snap, from, removals)| && RaisedEarly(RollbackSteps(d, name, snap, from, removals)[k])
    ensures RollbackSteps(d, name, snap, from, removals)[k].data == Restored(d.data, snap)
  {
    var states := RestoreSteps(d.data, snap, 0, removals);
    LowIsNotRaised(d, states);
    if Restorable(d.data, snap, 0) {
      RestoreEndsRestored(d.data, snap, 0, removals);
      var restored := d.(data := Restored(d.data, snap));
      RecordsKeepData(restored, name, from);
      assert RollbackSteps(d, name, snap, from, removals) == OnDisk(d, states) + RecordSteps(restored, name, from);
    }
  }

  lemma LowIsNotRaised(d: Disk, states: seq<Data>)
    requires d.ready.None?
    ensures forall k :: 0 <= k < |states| ==> !RaisedEarly(OnDisk(d, states)[k])
  {
  }

  lemma FailureRaisesAtEnd(d: Disk, req: Request, w: World, k: nat)
    requires req.migrator && !w.succeeds
    requires var run := SettleRun(Prepared(d, req), req, w, TransactionName(d, req), Captured(d, req));
             k < |run.trail| && RaisedEarly(run.trail[k])
    ensures SettleRun(Prepared(d, req), req, w, TransactionName(d, req), Captured(d, req)).trail[k].data == d.data
  {
    var states := MigratorStates(d.data, req, w);
    var migrated := Prepared(d, req).(data := Migrated(d.data, req, w));
    LowIsNotRaised(Prepared(d, req), states);
    if k >= |states| {
      MigratedRestores(d, req, w);
      RollbackRaises(migrated, TransactionName(d, req), Captured(d, req), AppliedVersion(d), w.rollback, k - |states|);
    }
  }

  lemma SuccessRaisesAfter(d: Disk, req: Request, w: World, k: nat)
    requires req.migrator ==> w.succeeds
    requires k < |SettleRun(Prepared(d, req), req, w, TransactionName(d, req), Captured(d, req)).trail|
    ensures !RaisedEarly(SettleRun(Prepared(d, req), req, w, TransactionName(d, req), Captured(d, req)).trail[k])
  {
  }

  lemma OrphanIsLow(d: Disk, name: Name)
    requires d.pending.None?
    ensures NeverRaisedEarly(OrphanSteps(d, name))
  {
  }

  lemma MigrateUnfolds(d: Disk, req: Request, w: World)
    requires d.pending.None?
    ensures var trail := MigrateRun(d, req, w).trail;
            || NeverRaisedEarly(trail)
            || trail == PrepareSteps(d, req)
                        + SettleRun(Prepared(d, req), req, w, TransactionName(d, req), Captured(d, req)).trail
  {
    PrepareIsLow(d, req);
    OrphanIsLow(d, TransactionName(d, req));
    PrepareFollows(d, req);
  }

  lemma RaisedInSecond(first: seq<Disk>, second: seq<Disk>, k: nat)
    requires k < |first + second| && NeverRaisedEarly(first) && RaisedEarly((first + second)[k])
    ensures k >= |first| && (first + second)[k] == second[k - |first|]
  {
  }

  lemma RaisedInSettle(d: Disk, req: Request, w: World, trail: seq<Disk>, k: nat)
    requires d.pending.None? && k < |trail| && RaisedEarly(trail[k])
    requires trail == PrepareSteps(d, req)
                      + SettleRun(Prepared(d, req), req, w, TransactionName(d, req), Captured(d, req)).trail
    ensures req.migrator && !w.succeeds && trail[k].data == d.data
  {
    PrepareIsLow(d, req);
    var settle := SettleRun(Prepared(d, req), req, w, TransactionName(d, req), Captured(d, req)).trail;
    RaisedInSecond(PrepareSteps(d, req), settle, k);
    SettleRaises(d, req, w, k - |PrepareSteps(d, req)|);
  }

  lemma MigrateRaises(d: Disk, req: Request, w: World, k: nat)
    requires d.pending.None?
    requires k < |MigrateRun(d, req, w).trail| && RaisedEarly(MigrateRun(d, req, w).trail[k])
    ensures req.migrator && !w.succeeds && MigrateRun(d, req, w).trail[k].data == d.data
  {
    MigrateUnfolds(d, req, w);
    RaisedInSettle(d, req, w, MigrateRun(d, req, w).trail, k);
  }

  lemma SettleRaises(d: Disk, req: Request, w: World, k: nat)
    requires var run := SettleRun(Prepared(d, req), req, w, TransactionName(d, req), Captured(d, req));
             k < |run.trail| && RaisedEarly(run.trail[k])
    ensures req.migrator && !w.succeeds
    ensures SettleRun(Prepared(d, req), req, w, TransactionName(d, req), Captured(d, req)).trail[k].data == d.data
  {
    if req.migrator && !w.succeeds {
      FailureRaisesAtEnd(d, req, w, k);
    } else {
      SuccessRaisesAfter(d, req, w, k);
    }
  }

  /** From a sound disk without a journal the fence is up over an uncommitted one only after a failed
      migrator, and then the data is what it was. */
  lemma RaisedOnlyByRollback(whole: Meaning, root: Path, d: Disk, req: Request, w: World, k: nat)
    requires Inv(whole, root, d) && d.pending.None?
    requires k < |ApplyRun(root, d, req, w).trail| && RaisedEarly(ApplyRun(root, d, req, w).trail[k])
    ensures req.migrator && !w.succeeds && ApplyRun(root, d, req, w).trail[k].data == d.data
  {
    var decide := DecideRun(d, req, w).trail;
    assert ApplyRun(root, d, req, w).trail == decide;
    if Upgrades(d, req) {
      MigrateRaises(d, req, w, k);
    }
  }

  /** So a call whose migrator does not fail never passes an exposed disk. */
  lemma SuccessIsNeverExposed(whole: Meaning, root: Path, d: Disk, req: Request, w: World, k: nat)
    requires Inv(whole, root, d) && d.pending.None? && (req.migrator ==> w.succeeds)
    requires k < |ApplyRun(root, d, req, w).trail|
    ensures !Exposed(ApplyRun(root, d, req, w).trail[k])
  {
    if Exposed(ApplyRun(root, d, req, w).trail[k]) {
      RaisedOnlyByRollback(whole, root, d, req, w, k);
    }
  }

  // ----- How a call ends -----

  /** The outcome of a call from its inputs and the disk recovery leaves. */
  ghost predicate EndsAs(root: Path, d: Disk, recovered: Disk, req: Request, w: World, outcome: Outcome, end: Disk) {
    if Recursive(root, req.paths) then outcome == RecursiveBackup && end == d
    else if !Recoverable(d) then outcome == RestoreFailed && end.pending == d.pending
    else if d.applied.Some? && d.applied.value.version == req.version then
      outcome == Ready && end == recovered.(ready := Some(req.version))
    else if d.applied.Some? && d.applied.value.version > req.version then
      outcome == Downgrade(d.applied.value.version, req.version) && end == recovered
    else if Blocked(recovered.data, req.paths) then
      outcome == InvalidBackup && end == recovered.(snapshots := recovered.snapshots - {TransactionName(recovered, req)})
    else if req.version == 0 || exists i :: 0 <= i < |req.paths| && !SafeAbsolute(req.paths[i]) then
      outcome == InvalidState && end.data == recovered.data && end.ready.None? && end.pending.None?
    else if req.migrator && !w.succeeds then
      if Restorable(Migrated(recovered.data, req, w), Captured(recovered, req), 0) then
        outcome == MigrationFailed && end.data == recovered.data && end.ready == AppliedVersion(d) && end.pending.None?
      else
        outcome == MigrationRestoreFailed && end.pending == Some(Journal(recovered, req))
    else
      && outcome == Ready && end.data == Migrated(recovered.data, req, w) && end.pending.None?
      && AppliedVersion(end) == Some(req.version) == end.ready
  }

  lemma UnpublishableExactly(d: Disk, req: Request)
    requires Upgrades(d, req) && AppliedVersion(d) != Some(0)
    ensures !Publishable(Journal(d, req)) <==>
            req.version == 0 || exists i :: 0 <= i < |req.paths| && !SafeAbsolute(req.paths[i])
  {
  }

  lemma UnblockedEnds(whole: Meaning, root: Path, d: Disk, req: Request, w: World)
    requires Inv(whole, root, d) && d.pending.None? && Upgrades(d, req) && !Recursive(root, req.paths)
    requires !Blocked(d.data, req.paths) && Publishable(Journal(d, req))
    ensures EndsAs(root, d, d, req, w, MigrateRun(d, req, w).outcome, Last(d, MigrateRun(d, req, w).trail))
  {
    PrepareIsSound(whole, root, d, req);
    SnappedIsSound(whole, root, d, req);
    var settle := SettleRun(Prepared(d, req), req, w, TransactionName(d, req), Captured(d, req));
    assert MigrateRun(d, req, w) == Run(PrepareSteps(d, req) + settle.trail, settle.outcome);
    assert Last(d, PrepareSteps(d, req) + settle.trail) == Last(Prepared(d, req), settle.trail);
    UnpublishableExactly(d, req);
    if req.migrator && !w.succeeds {
      FailureIsSound(whole, root, d, req, w);
    }
  }

  lemma MigrateEnds(whole: Meaning, root: Path, d: Disk, req: Request, w: World)
    requires Inv(whole, root, d) && d.pending.None? && Upgrades(d, req) && !Recursive(root, req.paths)
    ensures EndsAs(root, d, d, req, w, MigrateRun(d, req, w).outcome, Last(d, MigrateRun(d, req, w).trail))
  {
    UnpublishableExactly(d, req);
    if Blocked(d.data, req.paths) {
      OrphanIsSound(whole, root, d, req);
    } else if Publishable(Journal(d, req)) {
      UnblockedEnds(whole, root, d, req, w);
    }
  }

  /** How every call on a sound disk ends, told from its inputs: in particular it succeeds whenever it
      is neither refused nor failed by its migrator, and then the data is the migrator's. */
  lemma CallEndsExactly(whole: Meaning, root: Path, d: Disk, req: Request, w: World)
    requires Inv(whole, root, d)
    ensures EndsAs(root, d, Recovered(root, d, w), req, w, ApplyRun(root, d, req, w).outcome,
                   Last(d, ApplyRun(root, d, req, w).trail))
  {
    RecoverIsSound(whole, root, d, w.recovery);
    if !Recursive(root, req.paths) && Recoverable(d) {
      var recovered := Recovered(root, d, w);
      ApplyUnfolds(whole, root, d, req, w);
      var decide := DecideRun(recovered, req, w);
      assert Last(d, RecoverRun(root, d, w.recovery).trail + decide.trail) == Last(recovered, decide.trail);
      if Upgrades(recovered, req) {
        MigrateEnds(whole, root, recovered, req, w);
      }
    }
  }

  // ----- Disks that are not sound -----

  /** One of the two paths lies below the other, or they are the same. */
  predicate Entangled(a: Path, b: Path) {
    if |a| <= |b| then b[..|a|] == a else a[..|b|] == b
  }

  /** A journal that recovery may act on: it moves a version forward, over absolute paths that never go
      up and stay clear of the managed directory, with the snapshot it names at hand, taken for the
      same move and the same paths, and with an applied version that is the one it starts from or
      its own. */
  predicate Actionable(root: Path, d: Disk, p: Pending) {
    && p.to > 0 && (p.from.Some? ==> 0 < p.from.value < p.to)
    && (forall i :: 0 <= i < |p.paths| ==>
          && p.paths[i] != [] && p.paths[i][0] == "/" && ".." !in p.paths[i] && !Entangled(root, p.paths[i]))
    && p.backup in d.snapshots
    && d.snapshots[p.backup].from == p.from && d.snapshots[p.backup].to == p.to && d.snapshots[p.backup].paths == p.paths
    && (|| (if p.from.Some? then d.applied.Some? && d.applied.value.version == p.from.value else d.applied.None?)
        || d.applied == Some(Applied(p.to, p.backup)))
  }

  lemma EntangledExactly(root: Path, source: Path)
    ensures Overlaps(root, source) <==> Entangled(root, source)
  {
  }

  lemma SafeExactly(root: Path, p: Pending)
    ensures (Publishable(p) && !Recursive(root, p.paths)) <==>
              && p.to > 0 && (p.from.Some? ==> 0 < p.from.value < p.to)
              && (forall i :: 0 <= i < |p.paths| ==>
                    && p.paths[i] != [] && p.paths[i][0] == "/" && ".." !in p.paths[i] && !Entangled(root, p.paths[i]))
  {
    forall i | 0 <= i < |p.paths|
      ensures Overlaps(root, p.paths[i]) <==> Entangled(root, p.paths[i])
    {
      EntangledExactly(root, p.paths[i]);
    }
  }

  /** On any disk at all recovery acts on an actionable journal, and on no other: that one it refuses
      without a step. */
  lemma RecoveryActsExactly(root: Path, d: Disk, removals: seq<seq<set<Path>>>)
    requires d.pending.Some?
    ensures var run := RecoverRun(root, d, removals);
            if Actionable(root, d, d.pending.value) then run.outcome in {Ready, RestoreFailed}
            else run.outcome in {InvalidState, InvalidBackup, RecursiveBackup} && run.trail == []
  {
    SafeExactly(root, d.pending.value);
  }

  /** A snapshot of the same name that was taken for another move is never replaced. */
  lemma ForeignSnapshotIsKept(d: Disk, req: Request, w: World)
    requires TransactionName(d, req) in d.snapshots
    requires var snap := d.snapshots[TransactionName(d, req)]; snap.from != AppliedVersion(d) || snap.to != req.version
    ensures MigrateRun(d, req, w) == Run([], InvalidBackup)
  {
  }
}
