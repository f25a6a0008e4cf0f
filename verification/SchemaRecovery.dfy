/** Crash recovery converges, and when the writer fence can be trusted while it runs. */
module SchemaRecovery {
  import opened Wrappers
  import opened SchemaDisk
  import opened SchemaProtocol
  import opened SchemaSafety

  // ----- Convergence -----

  /** What one uninterrupted recovery makes of a disk: the commit kept, or the source restored. */
  function Settled(d: Disk): Disk
    requires d.pending.Some? ==> d.pending.value.backup in d.snapshots
  {
    if d.pending.None? then d
    else
      var p := d.pending.value;
      if Committed(d, p) then d.(ready := Some(p.to), pending := None)
      else Disk(Restored(d.data, d.snapshots[p.backup]), d.snapshots - {p.backup}, None, d.applied, p.from)
  }

  /** One attempt at recovery: how its removals progress, and where it loses power. */
  datatype Attempt = Attempt(removals: seq<seq<set<Path>>>, stop: nat)

  function Attempts(root: Path, d: Disk, attempts: seq<Attempt>): Disk
    decreases |attempts|
  {
    if attempts == [] then d
    else Attempts(root, After(d, RecoverRun(root, d, attempts[0].removals).trail, attempts[0].stop), attempts[1..])
  }

  /** Equal but for one snapshot that a crash kept from being retired. */
  predicate SameUpToOrphan(a: Disk, b: Disk, orphan: Name) {
    && a.data == b.data && a.pending == b.pending && a.applied == b.applied && a.ready == b.ready
    && a.snapshots - {orphan} == b.snapshots - {orphan}
  }

  /** A disk on the way from `start`: its transaction is still due, as it was, and would settle as it
      would have; or it is settled, which only a disk that could be recovered becomes. */
  ghost predicate Converging(whole: Meaning, root: Path, d: Disk, start: Disk)
    requires start.pending.Some? && start.pending.value.backup in start.snapshots
  {
    var orphan := start.pending.value.backup;
    && Inv(whole, root, d)
    && (d.pending.Some? ==> d.pending == start.pending && SameUpToOrphan(Settled(d), Settled(start), orphan))
    && (d.pending.None? ==> SameUpToOrphan(d, Settled(start), orphan))
    && (if Uncommitted(d) then
          && Uncommitted(start) && d.snapshots[orphan] == start.snapshots[orphan]
          && Without(d.data, d.snapshots[orphan].paths) == Without(start.data, d.snapshots[orphan].paths)
        else if Uncommitted(start) && Separate(start.snapshots[orphan].paths) then Recoverable(start)
        else true)
  }

  lemma TornDataConverges(whole: Meaning, root: Path, d: Disk, torn: Data, start: Disk)
    requires Inv(whole, root, start) && start.pending.Some?
    requires Converging(whole, root, d, start) && Uncommitted(d)
    requires var paths := d.snapshots[d.pending.value.backup].paths; Without(torn, paths) == Without(d.data, paths)
    ensures Converging(whole, root, d.(data := torn), start)
  {
    TornDataIsSound(whole, root, d, torn);
  }

  lemma RestoredDataConverges(whole: Meaning, root: Path, d: Disk, start: Disk)
    requires Inv(whole, root, start) && start.pending.Some?
    requires Converging(whole, root, d, start) && Uncommitted(d)
    requires d.data == Restored(d.data, d.snapshots[d.pending.value.backup])
    requires Separate(start.snapshots[start.pending.value.backup].paths) ==> Recoverable(start)
    ensures var orphan, fenced := d.pending.value.backup, d.(ready := d.pending.value.from);
            && Converging(whole, root, fenced, start)
            && Converging(whole, root, fenced.(pending := None), start)
            && Converging(whole, root, fenced.(pending := None, snapshots := d.snapshots - {orphan}), start)
  {
    var orphan := d.pending.value.backup;
    RollbackRecordsAreSound(whole, root, d);
    assert d.snapshots - {orphan} - {orphan} == d.snapshots - {orphan};
  }

  /** Whether separate paths can be restored does not change on the way. */
  lemma StaysRecoverable(whole: Meaning, root: Path, d: Disk, start: Disk)
    requires Inv(whole, root, start) && start.pending.Some?
    requires Converging(whole, root, d, start) && Uncommitted(d)
    requires Separate(start.snapshots[start.pending.value.backup].paths)
    ensures Recoverable(d) <==> Recoverable(start)
  {
    var snap := d.snapshots[d.pending.value.backup];
    RestorableExactly(d.data, start.data, snap, 0);
    RestorableExactly(start.data, start.data, snap, 0);
  }

  lemma RollbackConverges(whole: Meaning, root: Path, d: Disk, removals: seq<seq<set<Path>>>, start: Disk, k: nat)
    requires Inv(whole, root, start) && start.pending.Some?
    requires Converging(whole, root, d, start) && Uncommitted(d)
    requires k < |RollbackSteps(d, d.pending.value.backup, d.snapshots[d.pending.value.backup], d.pending.value.from, removals)|
    ensures var p := d.pending.value;
            Converging(whole, root, RollbackSteps(d, p.backup, d.snapshots[p.backup], p.from, removals)[k], start)
  {
    var snap := d.snapshots[d.pending.value.backup];
    var states := RestoreSteps(d.data, snap, 0, removals);
    if k < |states| {
      RestoreStepsKeepOutside(d.data, snap, 0, removals, k);
      TornDataConverges(whole, root, d, states[k], start);
    } else {
      RestoreEndsRestored(d.data, snap, 0, removals);
      RestoredIsStable(d.data, snap);
      var restored := Restored(d.data, snap);
      assert Without(restored, snap.paths) == Without(d.data, snap.paths) by {
        RestoredKeepsOutside(d.data, snap);
      }
      if Separate(snap.paths) {
        StaysRecoverable(whole, root, d, start);
      }
      TornDataConverges(whole, root, d, restored, start);
      RestoredDataConverges(whole, root, d.(data := restored), start);
    }
  }

  lemma RestoredKeepsOutside(data: Data, snap: Snapshot)
    requires WellCaptured(snap)
    ensures Without(Restored(data, snap), snap.paths) == Without(data, snap.paths)
  {
  }

  /** What a sound disk recovers by. */
  lemma RecoversBy(whole: Meaning, root: Path, d: Disk, removals: seq<seq<set<Path>>>)
    requires Inv(whole, root, d) && d.pending.Some?
    ensures var p := d.pending.value;
            p.backup in d.snapshots && RecoverRun(root, d, removals).trail ==
            if Committed(d, p) then [d.(ready := Some(p.to)), d.(ready := Some(p.to)).(pending := None)]
            else RollbackSteps(d, p.backup, d.snapshots[p.backup], p.from, removals)
  {
  }

  lemma CommitConverges(whole: Meaning, root: Path, d: Disk, start: Disk)
    requires Inv(whole, root, start) && start.pending.Some?
    requires Converging(whole, root, d, start) && d.pending.Some? && !Uncommitted(d)
    ensures var fenced := d.(ready := Some(d.pending.value.to));
            Converging(whole, root, fenced, start) && Converging(whole, root, fenced.(pending := None), start)
  {
  }

  lemma RecoveryStepsConverge(whole: Meaning, root: Path, d: Disk, removals: seq<seq<set<Path>>>, start: Disk, k: nat)
    requires Inv(whole, root, start) && start.pending.Some?
    requires Converging(whole, root, d, start)
    requires k < |RecoverRun(root, d, removals).trail|
    ensures Converging(whole, root, RecoverRun(root, d, removals).trail[k], start)
  {
    if d.pending.Some? {
      RecoversBy(whole, root, d, removals);
      if Uncommitted(d) {
        RollbackConverges(whole, root, d, removals, start, k);
      } else {
        CommitConverges(whole, root, d, start);
      }
    }
  }

  lemma AttemptsConverge(whole: Meaning, root: Path, d: Disk, attempts: seq<Attempt>, start: Disk)
    requires Inv(whole, root, start) && start.pending.Some?
    requires Converging(whole, root, d, start)
    ensures Converging(whole, root, Attempts(root, d, attempts), start)
    decreases |attempts|
  {
    if attempts != [] {
      var trail := RecoverRun(root, d, attempts[0].removals).trail;
      forall k | 0 <= k < |trail|
        ensures Converging(whole, root, trail[k], start)
      {
        RecoveryStepsConverge(whole, root, d, attempts[0].removals, start, k);
      }
      AttemptsConverge(whole, root, After(d, trail, attempts[0].stop), attempts[1..], start);
    }
  }

  /** Recovery interrupted any number of times, each time anywhere, and then run to its end, gives
      the disk of a single uninterrupted recovery, up to the snapshot being retired.  For separate
      backup paths it does come to its end if and only if it would have done so at once. */
  lemma RecoveryConverges(whole: Meaning, root: Path, d: Disk, attempts: seq<Attempt>, removals: seq<seq<set<Path>>>)
    requires Inv(whole, root, d) && d.pending.Some?
    ensures var s := Attempts(root, d, attempts);
            var run := RecoverRun(root, s, removals);
            && (run.outcome == Ready ==> SameUpToOrphan(Last(s, run.trail), Settled(d), d.pending.value.backup))
            && (Separate(d.pending.value.paths) ==> (run.outcome == Ready <==> Recoverable(d)))
  {
    AttemptsConverge(whole, root, d, attempts, d);
    var s := Attempts(root, d, attempts);
    RecoverIsSound(whole, root, s, removals);
    var trail := RecoverRun(root, s, removals).trail;
    if Uncommitted(s) && Separate(d.pending.value.paths) {
      StaysRecoverable(whole, root, s, d);
    }
    if trail != [] {
      RecoveryStepsConverge(whole, root, s, removals, d, |trail| - 1);
    }
  }

  // ----- A missing parent directory -----

  /** A transaction is due, and one of its separate backup paths has lost a directory above it. */
  predicate Stuck(d: Disk) {
    && Uncommitted(d) && d.pending.value.backup in d.snapshots
    && var paths := d.snapshots[d.pending.value.backup].paths;
       Separate(paths) && !AllReachable(d.data, paths)
  }

  lemma StuckIsUnrecoverable(d: Disk)
    requires Stuck(d)
    ensures !Recoverable(d)
  {
    RestorableExactly(d.data, d.data, d.snapshots[d.pending.value.backup], 0);
  }

  lemma StillStuck(before: Disk, after: Disk)
    requires Stuck(before) && StillDue(before, after)
    ensures Stuck(after)
  {
    var snap := before.snapshots[before.pending.value.backup];
    RestorableExactly(before.data, after.data, snap, 0);
    RestorableExactly(before.data, before.data, snap, 0);
  }

  /** Every call on a stuck disk fails in recovery, or is refused for its own paths, and leaves the
      disk stuck wherever it stops. */
  lemma StuckStays(whole: Meaning, root: Path, d: Disk, req: Request, w: World, stop: nat)
    requires Inv(whole, root, d) && Stuck(d)
    ensures ApplyRun(root, d, req, w).outcome == if Recursive(root, req.paths) then RecursiveBackup else RestoreFailed
    ensures Inv(whole, root, After(d, ApplyRun(root, d, req, w).trail, stop))
    ensures StillDue(d, After(d, ApplyRun(root, d, req, w).trail, stop))
    ensures Stuck(After(d, ApplyRun(root, d, req, w).trail, stop))
  {
    StuckIsUnrecoverable(d);
    RecoverIsSound(whole, root, d, w.recovery);
    RecoversBy(whole, root, d, w.recovery);
    var snap := d.snapshots[d.pending.value.backup];
    var states := RestoreSteps(d.data, snap, 0, w.recovery);
    forall k | 0 <= k < |states|
      ensures StillDue(d, d.(data := states[k]))
    {
      RestoreStepsKeepOutside(d.data, snap, 0, w.recovery, k);
    }
    StillStuck(d, After(d, ApplyRun(root, d, req, w).trail, stop));
  }

  /** So over every run of calls, of any requests and stopped anywhere, no launch ever succeeds. */
  lemma {:induction false} StuckForever(whole: Meaning, root: Path, d: Disk, events: seq<Event>, req: Request, w: World)
    requires Inv(whole, root, d) && Stuck(d) && forall k :: 0 <= k < |events| ==> events[k].Call?
    ensures Stuck(RunEvents(root, d, events))
    ensures ApplyRun(root, RunEvents(root, d, events), req, w).outcome in {RestoreFailed, RecursiveBackup}
    decreases |events|
  {
    if events == [] {
      StuckStays(whole, root, d, req, w, 0);
    } else {
      StuckStays(whole, root, d, events[0].req, events[0].world, events[0].stop);
      StuckForever(whole, root, Step(root, d, events[0]), events[1..], req, w);
    }
  }

  /** How an upgrade ends whose migrator fails.  Where something above a backup path is no directory,
      the capture refuses it with data, applied version, fence and journal as they were.  Otherwise it
      gives the data back if and only if every backup path had its directories when the call began,
      and leaves the disk stuck if not: the source accepts a path that merely lacks directories,
      recording it as absent. */
  lemma FailedUpgradeRollsBackExactly(whole: Meaning, root: Path, d: Disk, req: Request, w: World)
    requires Inv(whole, root, d) && d.pending.None? && Upgrades(d, req)
    requires Publishable(Journal(d, req)) && !Recursive(root, req.paths) && Separate(req.paths)
    requires req.migrator && !w.succeeds
    ensures var run := ApplyRun(root, d, req, w);
            if Blocked(d.data, req.paths) then
              run.outcome == InvalidBackup
              && Last(d, run.trail) == d.(snapshots := d.snapshots - {TransactionName(d, req)})
            else if AllReachable(d.data, req.paths) then
              run.outcome == MigrationFailed && Last(d, run.trail).data == d.data && Last(d, run.trail).pending.None?
            else
              run.outcome == MigrationRestoreFailed && Stuck(Last(d, run.trail))
  {
    if Blocked(d.data, req.paths) {
      OrphanIsSound(whole, root, d, req);
    } else {
      UnblockedRollsBackExactly(whole, root, d, req, w);
    }
  }

  lemma UnblockedRollsBackExactly(whole: Meaning, root: Path, d: Disk, req: Request, w: World)
    requires Inv(whole, root, d) && d.pending.None? && Upgrades(d, req)
    requires Publishable(Journal(d, req)) && !Recursive(root, req.paths) && Separate(req.paths)
    requires req.migrator && !w.succeeds && !Blocked(d.data, req.paths)
    ensures var run := ApplyRun(root, d, req, w);
            if AllReachable(d.data, req.paths) then
              run.outcome == MigrationFailed && Last(d, run.trail).data == d.data && Last(d, run.trail).pending.None?
            else
              run.outcome == MigrationRestoreFailed && Stuck(Last(d, run.trail))
  {
    var p, snap := Prepared(d, req), Captured(d, req);
    var settle := SettleRun(p, req, w, TransactionName(d, req), snap);
    PrepareIsSound(whole, root, d, req);
    SnappedIsSound(whole, root, d, req);
    FailureIsSound(whole, root, d, req, w);
    MigratedKeepsOutside(d, req, w);
    RestorableExactly(Migrated(d.data, req, w), d.data, snap, 0);
    ApplyReachesSettle(whole, root, d, req, w);
    AllInvConcat(whole, root, d, PrepareSteps(d, req), settle.trail);
    if !AllReachable(d.data, req.paths) {
      StillStuck(p, Last(p, settle.trail));
    }
  }

  lemma MigratedKeepsOutside(d: Disk, req: Request, w: World)
    ensures Without(Migrated(d.data, req, w), req.paths) == Without(d.data, req.paths)
  {
    MigratedIsLast(d, req, w);
    if req.migrator && w.writes != [] {
      MigratorSpares(d.data, req.paths, w.writes[|w.writes| - 1]);
    }
  }

  /** One such input: no schema applied yet, one declared path whose parent does not exist, and a
      migrator that fails at once.  The first launch and every later one fail. */
  lemma MissingParentSticks(events: seq<Event>, req: Request, w: World)
    requires forall k :: 0 <= k < |events| ==> events[k].Call?
    ensures var root: Path := ["/", "state"];
            var first, failing := Request(1, [["/", "missing", "data"]], true), World([], false, [], []);
            var run := ApplyRun(root, Fresh(map[]), first, failing);
            var later := RunEvents(root, Last(Fresh(map[]), run.trail), events);
            && run.outcome == MigrationRestoreFailed
            && ApplyRun(root, later, req, w).outcome in {RestoreFailed, RecursiveBackup}
  {
    var root: Path, p: Path := ["/", "state"], ["/", "missing", "data"];
    var first, failing := Request(1, [p], true), World([], false, [], []);
    var whole: Meaning := (data, version) => true;
    var d := Fresh(map[]);
    assert !Reachable(d.data, p) by {
      assert p[..2] !in d.data;
    }
    assert first.paths[0] == p && !Overlaps(root, p) by {
      assert root[1] != p[1];
    }
    FailedUpgradeRollsBackExactly(whole, root, d, first, failing);
    ApplyIsSound(whole, root, d, first, failing);
    var end := Last(d, ApplyRun(root, d, first, failing).trail);
    StuckForever(whole, root, end, events, req, w);
  }

  // ----- The writer fence -----

  /** A raised fence promises whole data of its version. */
  ghost predicate FenceSound(whole: Meaning, d: Disk) {
    d.ready.Some? ==> whole(d.data, d.ready)
  }

  /** Under an unresolved journal a raised fence stands only over exactly restored data. */
  predicate FenceExact(d: Disk) {
    d.ready.Some? && Uncommitted(d) ==>
      d.pending.value.backup in d.snapshots
      && d.data == Restored(d.data, d.snapshots[d.pending.value.backup])
  }

  lemma ExactFenceIsSound(whole: Meaning, root: Path, d: Disk)
    requires Inv(whole, root, d) && FenceExact(d)
    ensures FenceSound(whole, d)
  {
  }

  /** A restore over restored data comes to a path of which something was recorded. */
  predicate Tears(data: Data, snap: Snapshot, i: nat)
    requires i <= |snap.paths|
    decreases |snap.paths| - i
  {
    && i < |snap.paths| && Reachable(data, snap.paths[i])
    && (Subtree(snap.content, snap.paths[i]) != map[] || Tears(data, snap, i + 1))
  }

  /** The fence is up although a journal is unresolved whose snapshot recorded some data that a
      restore would put back: a call was stopped after it raised the source fence and before it
      cleared the journal. */
  predicate Exposed(d: Disk) {
    d.ready.Some? && Uncommitted(d)
    && d.pending.value.backup in d.snapshots
    && Tears(d.data, d.snapshots[d.pending.value.backup], 0)
  }

  predicate AllFenced(trail: seq<Disk>) {
    forall k :: 0 <= k < |trail| ==> FenceExact(trail[k])
  }

  lemma RestoredSubtree(data: Data, snap: Snapshot, i: nat)
    requires WellCaptured(snap) && i < |snap.paths| && data == Restored(data, snap)
    ensures Subtree(data, snap.paths[i]) == Subtree(snap.content, snap.paths[i])
  {
    forall q | Under(q, snap.paths[i])
      ensures q in data <==> q in snap.content
      ensures q in data ==> data[q] == snap.content[q]
    {
      assert Inside(q, snap.paths);
    }
  }

  lemma SourceTears(data: Data, snap: Snapshot, i: nat, survivors: seq<set<Path>>)
    requires WellCaptured(snap) && i < |snap.paths| && data == Restored(data, snap)
    ensures var here := SourceSteps(data, snap.paths[i], snap.content, survivors);
            if Subtree(snap.content, snap.paths[i]) != map[] then here[0] != data else Last(data, here) == data
  {
    RestoredSubtree(data, snap, i);
    var root := snap.paths[i];
    if Subtree(data, root) != map[] {
      var q :| q in Subtree(data, root);
      assert q in data && q !in Replace(data, root, map[]);
    } else {
      forall q | q in data
        ensures !Under(q, root)
      {
        assert q !in Subtree(data, root);
      }
      assert Replace(data, root, map[]) == data;
    }
  }

  lemma TearsNow(data: Data, snap: Snapshot, i: nat, removals: seq<seq<set<Path>>>)
    requires WellCaptured(snap) && i < |snap.paths| && data == Restored(data, snap) && Reachable(data, snap.paths[i])
    requires Subtree(snap.content, snap.paths[i]) != map[]
    ensures RestoreSteps(data, snap, i, removals) != [] && RestoreSteps(data, snap, i, removals)[0] != data
  {
    SourceTears(data, snap, i, At(removals, i));
  }

  /** Where nothing is recorded below a root, the restore comes to the next one with the same data. */
  lemma TearsLater(data: Data, snap: Snapshot, i: nat, removals: seq<seq<set<Path>>>, rest: nat) returns (k: nat)
    requires WellCaptured(snap) && i < |snap.paths| && data == Restored(data, snap) && Reachable(data, snap.paths[i])
    requires Subtree(snap.content, snap.paths[i]) == map[]
    requires rest < |RestoreSteps(data, snap, i + 1, removals)| && RestoreSteps(data, snap, i + 1, removals)[rest] != data
    ensures k < |RestoreSteps(data, snap, i, removals)| && RestoreSteps(data, snap, i, removals)[k] != data
  {
    SourceTears(data, snap, i, At(removals, i));
    var here := SourceSteps(data, snap.paths[i], snap.content, At(removals, i));
    k := |here| + rest;
    IndexInSecond(here, RestoreSteps(data, snap, i + 1, removals), rest);
  }

  /** Restoring over already restored data nevertheless takes recorded data away in between. */
  lemma {:induction false} RestoreTears(data: Data, snap: Snapshot, i: nat, removals: seq<seq<set<Path>>>) returns (k: nat)
    requires WellCaptured(snap) && data == Restored(data, snap) && i <= |snap.paths| && Tears(data, snap, i)
    ensures k < |RestoreSteps(data, snap, i, removals)|
    ensures RestoreSteps(data, snap, i, removals)[k] != data
    decreases |snap.paths| - i
  {
    if Subtree(snap.content, snap.paths[i]) != map[] {
      TearsNow(data, snap, i, removals);
      k := 0;
    } else {
      var rest := RestoreTears(data, snap, i + 1, removals);
      k := TearsLater(data, snap, i, removals, rest);
    }
  }

  /** Separate paths that can be reached, of which something was recorded, come to it. */
  lemma {:induction false} RecordedTears(data: Data, snap: Snapshot, i: nat, p: Path, j: nat)
    requires AllReachable(data, snap.paths) && i <= j < |snap.paths| && p in snap.content && Under(p, snap.paths[j])
    ensures Tears(data, snap, i)
    decreases |snap.paths| - i
  {
    assert p in Subtree(snap.content, snap.paths[j]);
    if i < j {
      RecordedTears(data, snap, i + 1, p, j);
    }
  }

  lemma IndexInSecond<T>(a: seq<T>, b: seq<T>, k: nat)
    requires k < |b|
    ensures (a + b)[|a| + k] == b[k]
  {
  }

  lemma EmptySourceIsStill(data: Data, root: Path, content: Data, survivors: seq<set<Path>>, k: nat)
    requires (forall p :: p in data ==> !Under(p, root)) && Subtree(content, root) == map[]
    requires k < |SourceSteps(data, root, content, survivors)|
    ensures SourceSteps(data, root, content, survivors)[k] == data
  {
    assert Replace(data, root, map[]) == data;
    if k < |survivors| {
      assert Spare(data, root, survivors[k]) == data;
    }
  }

  /** A restore over restored data that comes to nothing recorded moves nothing. */
  lemma {:induction false} UntornIsStill(data: Data, snap: Snapshot, i: nat, removals: seq<seq<set<Path>>>, k: nat)
    requires WellCaptured(snap) && i <= |snap.paths| && data == Restored(data, snap) && !Tears(data, snap, i)
    requires k < |RestoreSteps(data, snap, i, removals)|
    ensures RestoreSteps(data, snap, i, removals)[k] == data
    decreases |snap.paths| - i
  {
    var root := snap.paths[i];
    RestoredSubtree(data, snap, i);
    forall p | p in data
      ensures !Under(p, root)
    {
      assert p !in Subtree(data, root);
    }
    var here := SourceSteps(data, root, snap.content, At(removals, i));
    if k < |here| {
      EmptySourceIsStill(data, root, snap.content, At(removals, i), k);
    } else {
      EmptySourceIsStill(data, root, snap.content, At(removals, i), |here| - 1);
      UntornIsStill(data, snap, i + 1, removals, k - |here|);
    }
  }

  lemma RollbackIsFenced(whole: Meaning, root: Path, d: Disk, removals: seq<seq<set<Path>>>)
    requires Inv(whole, root, d) && Uncommitted(d) && FenceExact(d) && !Exposed(d)
    ensures var p := d.pending.value;
            AllFenced(RollbackSteps(d, p.backup, d.snapshots[p.backup], p.from, removals))
  {
    var p := d.pending.value;
    var snap := d.snapshots[p.backup];
    var states := RestoreSteps(d.data, snap, 0, removals);
    forall k | 0 <= k < |states|
      ensures FenceExact(d.(data := states[k]))
    {
      if d.ready.Some? {
        UntornIsStill(d.data, snap, 0, removals, k);
      }
    }
    if Restorable(d.data, snap, 0) {
      RestoreEndsRestored(d.data, snap, 0, removals);
      RestoredIsStable(d.data, snap);
    }
  }

  lemma CommitIsFenced(d: Disk, req: Request, name: Name)
    requires d.pending.Some? && d.pending.value.to == req.version && d.pending.value.backup == name
    ensures AllFenced(CommitSteps(d, req, name))
  {
  }

  lemma LoweredIsFenced(d: Disk, states: seq<Data>)
    requires d.ready.None?
    ensures AllFenced(OnDisk(d, states))
  {
  }

  lemma FencedConcat(a: seq<Disk>, b: seq<Disk>)
    requires AllFenced(a) && AllFenced(b)
    ensures AllFenced(a + b)
  {
  }

  lemma SettleIsFenced(whole: Meaning, root: Path, d: Disk, req: Request, w: World)
    requires Inv(whole, root, Prepared(d, req)) && d.pending.None? && Upgrades(d, req)
    ensures AllFenced(SettleRun(Prepared(d, req), req, w, TransactionName(d, req), Captured(d, req)).trail)
  {
    var p := Prepared(d, req);
    var name, states := TransactionName(d, req), OnDisk(p, MigratorStates(d.data, req, w));
    var migrated := p.(data := Migrated(d.data, req, w));
    LoweredIsFenced(p, MigratorStates(d.data, req, w));
    if req.migrator && !w.succeeds {
      MigratedIsSound(whole, root, d, req, w);
      RollbackIsFenced(whole, root, migrated, w.rollback);
      FencedConcat(states, RollbackSteps(migrated, name, Captured(d, req), AppliedVersion(d), w.rollback));
    } else {
      CommitIsFenced(migrated, req, name);
      FencedConcat(states, CommitSteps(migrated, req, name));
    }
  }

  lemma PrepareIsFenced(d: Disk, req: Request)
    requires d.pending.None?
    ensures AllFenced(PrepareSteps(d, req))
  {
  }

  lemma DecideIsFenced(whole: Meaning, root: Path, d: Disk, req: Request, w: World)
    requires Inv(whole, root, d) && d.pending.None? && !Recursive(root, req.paths)
    ensures AllFenced(DecideRun(d, req, w).trail)
  {
    if Upgrades(d, req) {
      PrepareIsFenced(d, req);
      if !Blocked(d.data, req.paths) && Publishable(Journal(d, req)) {
        PrepareIsSound(whole, root, d, req);
        SnappedIsSound(whole, root, d, req);
        SettleIsFenced(whole, root, d, req, w);
      }
    }
  }

  lemma FenceHolds(whole: Meaning, root: Path, d: Disk, req: Request, w: World)
    requires Inv(whole, root, d) && FenceExact(d) && !Exposed(d)
    ensures AllFenced(ApplyRun(root, d, req, w).trail)
  {
    if !Recursive(root, req.paths) {
      if Uncommitted(d) {
        RollbackIsFenced(whole, root, d, w.recovery);
      }
      assert AllFenced(RecoverRun(root, d, w.recovery).trail);
      RecoverIsSound(whole, root, d, w.recovery);
      if Recoverable(d) {
        ApplyUnfolds(whole, root, d, req, w);
        DecideIsFenced(whole, root, Recovered(root, d, w), req, w);
        FencedConcat(RecoverRun(root, d, w.recovery).trail, DecideRun(Recovered(root, d, w), req, w).trail);
      }
    }
  }

  /** The next call on an exposed disk takes recorded data away under the raised fence. */
  lemma FenceFails(whole: Meaning, root: Path, d: Disk, req: Request, w: World) returns (k: nat)
    requires Inv(whole, root, d) && FenceExact(d) && Exposed(d) && !Recursive(root, req.paths)
    ensures k < |ApplyRun(root, d, req, w).trail|
    ensures var lost := ApplyRun(root, d, req, w).trail[k];
            Uncommitted(lost) && lost.ready == d.ready && lost.data != d.data && !FenceExact(lost)
  {
    var snap := d.snapshots[d.pending.value.backup];
    k := RestoreTears(d.data, snap, 0, w.recovery);
    RestoreStepsKeepOutside(d.data, snap, 0, w.recovery, k);
    RecoverIsSound(whole, root, d, w.recovery);
    RecoversBy(whole, root, d, w.recovery);
    assert RecoverRun(root, d, w.recovery).trail[k] == d.(data := RestoreSteps(d.data, snap, 0, w.recovery)[k]);
    if Recoverable(d) {
      ApplyUnfolds(whole, root, d, req, w);
    }
  }

  /** The fence holds through every step of a call, whatever the world does, exactly when the call
      does not start on an exposed disk. */
  lemma FenceHoldsExactly(whole: Meaning, root: Path, d: Disk, req: Request)
    requires Inv(whole, root, d) && FenceExact(d) && !Recursive(root, req.paths)
    ensures (forall w: World :: AllFenced(ApplyRun(root, d, req, w).trail)) <==> !Exposed(d)
  {
    if Exposed(d) {
      var w := World([], false, [], []);
      var k := FenceFails(whole, root, d, req, w);
      assert !AllFenced(ApplyRun(root, d, req, w).trail);
    } else {
      forall w: World
        ensures AllFenced(ApplyRun(root, d, req, w).trail)
      {
        FenceHolds(whole, root, d, req, w);
      }
    }
  }

  /** No call starts on an exposed disk, nor on one written to while a journal was unresolved. */
  predicate NeverExposed(root: Path, d: Disk, events: seq<Event>)
    decreases |events|
  {
    events == []
    || ((events[0].Call? ==> FenceExact(d) && !Exposed(d))
        && NeverExposed(root, Step(root, d, events[0]), events[1..]))
  }

  lemma CallIsFenced(whole: Meaning, root: Path, d: Disk, e: Event)
    requires Inv(whole, root, d) && FenceExact(d) && !Exposed(d) && Admissible(whole, root, d, e) && e.Call?
    ensures FenceSound(whole, Step(root, d, e))
  {
    FenceHolds(whole, root, d, e.req, e.world);
    StepIsSound(whole, root, d, e);
    assert FenceExact(Step(root, d, e));
    ExactFenceIsSound(whole, root, Step(root, d, e));
  }

  /** Over every run in which no call starts on such a disk, a raised fence promises whole data in
      every durable state. */
  lemma {:induction false} RunsAreFenced(whole: Meaning, root: Path, d: Disk, events: seq<Event>)
    requires Inv(whole, root, d) && FenceSound(whole, d)
    requires AdmissibleRun(whole, root, d, events) && NeverExposed(root, d, events)
    ensures FenceSound(whole, RunEvents(root, d, events))
    decreases |events|
  {
    if events != [] {
      var e := events[0];
      StepIsSound(whole, root, d, e);
      if e.Call? {
        CallIsFenced(whole, root, d, e);
      }
      RunsAreFenced(whole, root, Step(root, d, e), events[1..]);
    }
  }

  /** The fence also lets the application write while a journal is unresolved.  The next recovery
      that completes keeps such a write if and only if it changed nothing that was recorded. */
  lemma WriteSurvivesExactly(whole: Meaning, root: Path, d: Disk, data: Data, removals: seq<seq<set<Path>>>)
    requires Inv(whole, root, d) && Uncommitted(d) && Admissible(whole, root, d, Write(data))
    requires Recoverable(Step(root, d, Write(data)))
    ensures var written := Step(root, d, Write(data));
            var snap := d.snapshots[d.pending.value.backup];
            var end := Last(written, RecoverRun(root, written, removals).trail);
            && end.data == Restored(data, snap)
            && (end.data == data <==> Within(data, snap.paths) == snap.content)
  {
    var written := Step(root, d, Write(data));
    var snap := d.snapshots[d.pending.value.backup];
    StepIsSound(whole, root, d, Write(data));
    RollbackIsSound(whole, root, written, removals);
    RecoversBy(whole, root, written, removals);
    if Restored(data, snap) == data {
      forall p
        ensures p in Within(data, snap.paths) <==> p in snap.content
        ensures p in snap.content ==> data[p] == snap.content[p]
      {
        assert p in snap.content ==> Restored(data, snap)[p] == snap.content[p];
      }
    }
    if Within(data, snap.paths) == snap.content {
      CaptureThenRestore(data, data, snap);
    }
  }

  /** The steps of a call that gets as far as migrating. */
  lemma ApplyReachesSettle(whole: Meaning, root: Path, d: Disk, req: Request, w: World)
    requires Inv(whole, root, d) && d.pending.None? && Upgrades(d, req)
    requires Publishable(Journal(d, req)) && !Recursive(root, req.paths) && !Blocked(d.data, req.paths)
    ensures ApplyRun(root, d, req, w).trail
         == PrepareSteps(d, req) + SettleRun(Prepared(d, req), req, w, TransactionName(d, req), Captured(d, req)).trail
  {
    PrepareIsSound(whole, root, d, req);
  }

  /** The first state of a completed rollback that is not a torn one. */
  lemma RollbackFences(d: Disk, name: Name, snap: Snapshot, from: Option<nat>, removals: seq<seq<set<Path>>>)
    requires WellCaptured(snap) && Restorable(d.data, snap, 0)
    ensures var n := |RestoreSteps(d.data, snap, 0, removals)|;
            var steps := RollbackSteps(d, name, snap, from, removals);
            n < |steps| && steps[n] == d.(data := Restored(d.data, snap), ready := from)
  {
    RestoreEndsRestored(d.data, snap, 0, removals);
  }

  /** Where a failed migration raises the source fence again. */
  lemma SettlePassesExposed(d: Disk, req: Request, w: World) returns (k: nat)
    requires req.migrator && !w.succeeds && Separate(req.paths) && AllReachable(d.data, req.paths)
    ensures var trail := SettleRun(Prepared(d, req), req, w, TransactionName(d, req), Captured(d, req)).trail;
            k < |trail| && trail[k] == Prepared(d, req).(data := d.data, ready := AppliedVersion(d))
  {
    var migrated := Prepared(d, req).(data := Migrated(d.data, req, w));
    var name, snap := TransactionName(d, req), Captured(d, req);
    MigratedRestores(d, req, w);
    MigratedKeepsOutside(d, req, w);
    RestorableExactly(migrated.data, d.data, snap, 0);
    RollbackFences(migrated, name, snap, AppliedVersion(d), w.rollback);
    var n := |RestoreSteps(migrated.data, snap, 0, w.rollback)|;
    var states := OnDisk(Prepared(d, req), MigratorStates(d.data, req, w));
    IndexInSecond(states, RollbackSteps(migrated, name, snap, AppliedVersion(d), w.rollback), n);
    k := |states| + n;
  }

  lemma RaisedIsExposed(d: Disk, req: Request)
    requires d.applied.Some? && Upgrades(d, req) && Within(d.data, req.paths) != map[] && AllReachable(d.data, req.paths)
    ensures var exposed := Prepared(d, req).(data := d.data, ready := AppliedVersion(d));
            Exposed(exposed) && FenceExact(exposed)
  {
    var p :| p in Within(d.data, req.paths);
    var j :| 0 <= j < |req.paths| && Under(p, req.paths[j]);
    RecordedTears(d.data, Captured(d, req), 0, p, j);
    CaptureThenRestore(d.data, d.data, Captured(d, req));
  }

  /** Every failed upgrade of an application with data that can be rolled back passes through an
      exposed disk, between raising the source fence and clearing the journal. */
  lemma FailedUpgradePassesExposed(whole: Meaning, root: Path, d: Disk, req: Request, w: World) returns (k: nat)
    requires Inv(whole, root, d) && d.pending.None? && d.applied.Some? && Upgrades(d, req)
    requires Publishable(Journal(d, req)) && !Recursive(root, req.paths)
    requires Separate(req.paths) && AllReachable(d.data, req.paths)
    requires req.migrator && !w.succeeds && Within(d.data, req.paths) != map[]
    ensures k < |ApplyRun(root, d, req, w).trail|
    ensures var exposed := ApplyRun(root, d, req, w).trail[k];
            Exposed(exposed) && exposed.ready == AppliedVersion(d) && exposed.data == d.data && FenceExact(exposed)
  {
    ReachableIsNotBlocked(d.data, req.paths);
    ApplyReachesSettle(whole, root, d, req, w);
    RaisedIsExposed(d, req);
    var n := SettlePassesExposed(d, req, w);
    IndexInSecond(PrepareSteps(d, req),
                  SettleRun(Prepared(d, req), req, w, TransactionName(d, req), Captured(d, req)).trail, n);
    k := |PrepareSteps(d, req)| + n;
  }

  /** Two crashes are enough to leave the fence up over missing data: one while a failed upgrade is
      between raising the source fence and clearing the journal, one inside the next restore. */
  lemma FenceLostByTwoCrashes(whole: Meaning, root: Path, d: Disk, req: Request, w: World)
    returns (first: nat, second: nat)
    requires Inv(whole, root, d) && d.pending.None? && d.applied.Some? && Upgrades(d, req)
    requires Publishable(Journal(d, req)) && !Recursive(root, req.paths)
    requires Separate(req.paths) && AllReachable(d.data, req.paths)
    requires req.migrator && !w.succeeds && Within(d.data, req.paths) != map[]
    requires MigratorKeepsWhole(whole, d.data, AppliedVersion(d), req, w)
    ensures first < |ApplyRun(root, d, req, w).trail|
    ensures var exposed := ApplyRun(root, d, req, w).trail[first];
            second < |ApplyRun(root, exposed, req, w).trail|
            && var lost := ApplyRun(root, exposed, req, w).trail[second];
               Uncommitted(lost) && lost.ready == AppliedVersion(d) && lost.data != d.data
  {
    first := FailedUpgradePassesExposed(whole, root, d, req, w);
    ApplyIsSound(whole, root, d, req, w);
    second := FenceFails(whole, root, ApplyRun(root, d, req, w).trail[first], req, w);
  }

  /** One concrete application: a single file, and version 1 applied. */
  function OneFile(): Disk {
    var p: Path, initial := ["/", "d"], Name(None, 1);
    Disk(map[p := File("v1")], map[initial := Snapshot(None, 1, [p], map[])], None, Some(Applied(1, initial)), Some(1))
  }

  lemma OneFileUpgrades(root: Path, p: Path, req: Request, whole: Meaning)
    requires root == ["/", "s"] && p == ["/", "d"] && req == Request(2, [p], true)
    requires forall data: Data, version :: whole(data, version)
    ensures var d := OneFile();
            && Inv(whole, root, d) && Upgrades(d, req) && Publishable(Journal(d, req)) && !Recursive(root, req.paths)
            && p in Within(d.data, req.paths) && Separate(req.paths) && AllReachable(d.data, req.paths)
  {
    assert !Overlaps(root, p) by {
      assert root[1] != p[1];
    }
    assert Inside(p, [p]) by {
      assert Under(p, [p][0]);
    }
  }

  /** The same there: an upgrade to version 2 whose migrator fails at once, and two crashes. */
  lemma FenceLostExample() returns (root: Path, req: Request, w: World, first: nat, second: nat)
    ensures first < |ApplyRun(root, OneFile(), req, w).trail|
    ensures var exposed := ApplyRun(root, OneFile(), req, w).trail[first];
            second < |ApplyRun(root, exposed, req, w).trail|
            && var lost := ApplyRun(root, exposed, req, w).trail[second];
               lost.ready == Some(1) && lost.data != OneFile().data
  {
    root := ["/", "s"];
    var p: Path := ["/", "d"];
    req, w := Request(2, [p], true), World([], false, [], []);
    var whole: Meaning := (data, version) => true;
    OneFileUpgrades(root, p, req, whole);
    first, second := FenceLostByTwoCrashes(whole, root, OneFile(), req, w);
  }
}
