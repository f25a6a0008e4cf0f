/** The data-schema transaction as the runner performs it: one store whose records are published
    and cleared in place.  `trail` records every durable state in the order it is reached. */
module SchemaStore {
  import opened Wrappers
  import opened SchemaDisk
  import opened SchemaProtocol

  lemma OnDiskConcat(d: Disk, first: seq<Data>, rest: seq<Data>, data: Data)
    ensures OnDisk(d, first + rest) == OnDisk(d, first) + OnDisk(d.(data := data), rest)
  {
  }

  lemma RestoreUnfolds(data: Data, snap: Snapshot, i: nat, removals: seq<seq<set<Path>>>)
    requires i < |snap.paths| && Reachable(data, snap.paths[i])
    ensures var here := SourceSteps(data, snap.paths[i], snap.content, At(removals, i));
            && RestoreSteps(data, snap, i, removals) == here + RestoreSteps(Last(data, here), snap, i + 1, removals)
            && (Restorable(data, snap, i) <==> Restorable(Last(data, here), snap, i + 1))
  {
    SourceEnd(data, snap.paths[i], snap.content, At(removals, i));
  }

  lemma Regrouped<T>(gone: seq<T>, here: seq<T>, rest: seq<T>)
    ensures gone + (here + rest) == (gone + here) + rest
  {
  }

  /** One round of the restore loop, on the states written so far. */
  lemma RestoreRound(
    before: Disk, data: Data, snap: Snapshot, i: nat, removals: seq<seq<set<Path>>>, gone: seq<Data>, all: seq<Data>)
    requires i < |snap.paths| && data == Last(before.data, gone) && Reachable(data, snap.paths[i])
    requires all == gone + RestoreSteps(data, snap, i, removals)
    ensures var here := SourceSteps(data, snap.paths[i], snap.content, At(removals, i));
            && all == (gone + here) + RestoreSteps(Last(data, here), snap, i + 1, removals)
            && Last(data, here) == Last(before.data, gone + here)
            && OnDisk(before, gone + here) == OnDisk(before, gone) + OnDisk(before.(data := data), here)
            && (Restorable(data, snap, i) <==> Restorable(Last(data, here), snap, i + 1))
  {
    var here := SourceSteps(data, snap.paths[i], snap.content, At(removals, i));
    OnDiskConcat(before, gone, here, data);
    RestoreUnfolds(data, snap, i, removals);
    Regrouped(gone, here, RestoreSteps(Last(data, here), snap, i + 1, removals));
    assert Last(data, here) == Last(before.data, gone + here);
  }

  lemma Compose<T>(first: T, was: seq<T>, a: seq<T>, b: seq<T>)
    ensures (was + a) + b == was + (a + b)
    ensures Last(Last(first, a), b) == Last(first, a + b)
  {
  }

  class Store {
    const root: Path
    var data: Data
    var snapshots: map<Name, Snapshot>
    var pending: Option<Pending>
    var applied: Option<Applied>
    var ready: Option<nat>
    ghost var trail: seq<Disk>

    constructor (root: Path, d: Disk)
      ensures Now() == d && trail == [] && this.root == root
    {
      this.root := root;
      data, snapshots, pending, applied, ready := d.data, d.snapshots, d.pending, d.applied, d.ready;
      trail := [];
    }

    function Now(): Disk
      reads this
    {
      Disk(data, snapshots, pending, applied, ready)
    }

    // ----- Single durable steps -----

    method WriteData(next: Data)
      modifies this`data, this`trail
      ensures Now() == old(Now()).(data := next) && trail == old(trail) + [Now()]
    {
      data := next;
      trail := trail + [Now()];
    }

    method ClearReady()
      modifies this`ready, this`trail
      ensures Now() == old(Now()).(ready := None) && trail == old(trail) + [Now()]
    {
      ready := None;
      trail := trail + [Now()];
    }

    method PublishReady(version: nat) returns (ok: bool)
      modifies this`ready, this`trail
      ensures ok == (version != 0)
      ensures ok ==> Now() == old(Now()).(ready := Some(version)) && trail == old(trail) + [Now()]
      ensures !ok ==> Now() == old(Now()) && trail == old(trail)
    {
      ok := version != 0;
      if ok {
        ready := Some(version);
        trail := trail + [Now()];
      }
    }

    method PublishSourceReady(version: Option<nat>)
      requires version != Some(0)
      modifies this`ready, this`trail
      ensures Now() == old(Now()).(ready := version) && trail == old(trail) + [Now()]
    {
      match version
      case Some(v) => var _ := PublishReady(v);
      case None => ClearReady();
    }

    method PublishPending(p: Pending) returns (ok: bool)
      modifies this`pending, this`trail
      ensures ok == Publishable(p)
      ensures ok ==> Now() == old(Now()).(pending := Some(p)) && trail == old(trail) + [Now()]
      ensures !ok ==> Now() == old(Now()) && trail == old(trail)
    {
      ok := p.to != 0 && p.from != Some(0) && (p.from.Some? ==> p.from.value < p.to);
      var i := 0;
      while ok && i < |p.paths|
        invariant 0 <= i <= |p.paths|
        invariant ok ==> forall j :: 0 <= j < i ==> SafeAbsolute(p.paths[j])
        invariant ok ==> p.to != 0 && p.from != Some(0) && (p.from.Some? ==> p.from.value < p.to)
        invariant !ok ==> !Publishable(p)
      {
        ok := SafeAbsolute(p.paths[i]);
        i := i + 1;
      }
      if ok {
        pending := Some(p);
        trail := trail + [Now()];
      }
    }

    method ClearPending()
      modifies this`pending, this`trail
      ensures Now() == old(Now()).(pending := None) && trail == old(trail) + [Now()]
    {
      pending := None;
      trail := trail + [Now()];
    }

    method Publish(state: Applied)
      modifies this`applied, this`trail
      ensures Now() == old(Now()).(applied := Some(state)) && trail == old(trail) + [Now()]
    {
      applied := Some(state);
      trail := trail + [Now()];
    }

    method Retire(name: Name)
      modifies this`snapshots, this`trail
      ensures Now() == old(Now()).(snapshots := old(snapshots) - {name}) && trail == old(trail) + [Now()]
    {
      snapshots := snapshots - {name};
      trail := trail + [Now()];
    }

    // ----- Loops -----

    /** The first backup path that contains the managed directory or lies inside it. */
    method RejectRecursiveBackup(paths: seq<Path>) returns (offender: Option<nat>)
      ensures offender.Some? <==> Recursive(root, paths)
      ensures offender.Some? ==>
                offender.value < |paths| && Overlaps(root, paths[offender.value])
                && forall i :: 0 <= i < offender.value ==> !Overlaps(root, paths[i])
    {
      var i := 0;
      while i < |paths|
        invariant 0 <= i <= |paths|
        invariant forall j :: 0 <= j < i ==> !Overlaps(root, paths[j])
      {
        if Overlaps(root, paths[i]) {
          return Some(i);
        }
        i := i + 1;
      }
      return None;
    }

    /** A path whose parent directory cannot be opened is left as it is. */
    method RestoreSource(source: Path, content: Data, survivors: seq<set<Path>>) returns (ok: bool)
      modifies this`data, this`trail
      ensures ok == Reachable(old(data), source)
      ensures !ok ==> Now() == old(Now()) && trail == old(trail)
      ensures ok ==>
                var steps := SourceSteps(old(data), source, content, survivors);
                Now() == old(Now()).(data := Last(old(data), steps)) && trail == old(trail) + OnDisk(old(Now()), steps)
    {
      var k := 2;
      while k < |source|
        invariant 2 <= k
        invariant forall j :: 1 < j < k && j < |source| ==> source[..j] in data && data[source[..j]] == Directory
      {
        if source[..k] !in data || data[source[..k]] != Directory {
          return false;
        }
        k := k + 1;
      }
      Place(source, content, survivors);
      return true;
    }

    /** Put one reachable path back: removed entry by entry, or renamed away and in. */
    method Place(source: Path, content: Data, survivors: seq<set<Path>>)
      modifies this`data, this`trail
      ensures var steps := SourceSteps(old(data), source, content, survivors);
              Now() == old(Now()).(data := Last(old(data), steps)) && trail == old(trail) + OnDisk(old(Now()), steps)
    {
      var tree := Subtree(content, source);
      if tree == map[] {
        var before := data;
        var i := 0;
        while i < |survivors|
          invariant 0 <= i <= |survivors|
          invariant Now() == old(Now()).(data := data)
          invariant trail == old(trail) + OnDisk(old(Now()), SourceSteps(before, source, content, survivors)[..i])
        {
          WriteData(Spare(before, source, survivors[i]));
          i := i + 1;
        }
        WriteData(Replace(before, source, map[]));
      } else {
        var before := data;
        if Subtree(data, source) != map[] {
          WriteData(Replace(before, source, map[]));
        }
        WriteData(Replace(before, source, tree));
      }
    }

    method Restore(snap: Snapshot, removals: seq<seq<set<Path>>>) returns (ok: bool)
      modifies this`data, this`trail
      ensures ok == Restorable(old(data), snap, 0)
      ensures var steps := RestoreSteps(old(data), snap, 0, removals);
              Now() == old(Now()).(data := Last(old(data), steps)) && trail == old(trail) + OnDisk(old(Now()), steps)
    {
      ghost var before := Now();
      ghost var all := RestoreSteps(data, snap, 0, removals);
      ghost var gone: seq<Data> := [];
      var i := 0;
      ok := true;
      while i < |snap.paths|
        invariant 0 <= i <= |snap.paths| && ok
        invariant Now() == before.(data := data) && data == Last(before.data, gone)
        invariant trail == old(trail) + OnDisk(before, gone)
        invariant all == gone + RestoreSteps(data, snap, i, removals)
        invariant Restorable(data, snap, i) <==> Restorable(before.data, snap, 0)
      {
        ghost var now := data;
        ghost var here := SourceSteps(now, snap.paths[i], snap.content, At(removals, i));
        ok := RestoreSource(snap.paths[i], snap.content, At(removals, i));
        if !ok {
          assert RestoreSteps(now, snap, i, removals) == [] && all == gone;
          return;
        }
        RestoreRound(before, now, snap, i, removals, gone, all);
        Compose(before, old(trail), OnDisk(before, gone), OnDisk(before.(data := now), here));
        gone := gone + here;
        i := i + 1;
      }
      assert all == gone;
    }

    method RunMigrator(req: Request, w: World) returns (ok: bool)
      requires req.migrator
      modifies this`data, this`trail
      ensures ok == w.succeeds
      ensures Now() == old(Now()).(data := Migrated(old(data), req, w))
      ensures trail == old(trail) + OnDisk(old(Now()), MigratorStates(old(data), req, w))
    {
      var base, i := data, 0;
      ghost var states := MigratorStates(data, req, w);
      while i < |w.writes|
        invariant 0 <= i <= |w.writes|
        invariant Now() == old(Now()).(data := data) && data == Last(base, states[..i])
        invariant trail == old(trail) + OnDisk(old(Now()), states[..i])
      {
        WriteData(MigratorState(base, req.paths, w.writes[i]));
        i := i + 1;
      }
      assert states[..i] == states;
      ok := w.succeeds;
    }

    // ----- The transaction -----

    method Rollback(name: Name, snap: Snapshot, from: Option<nat>, removals: seq<seq<set<Path>>>) returns (ok: bool)
      requires from != Some(0)
      modifies this
      ensures ok == Restorable(old(data), snap, 0)
      ensures var steps := RollbackSteps(old(Now()), name, snap, from, removals);
              Now() == Last(old(Now()), steps) && trail == old(trail) + steps
    {
      ok := Restore(snap, removals);
      if ok {
        FinishRollback(name, from);
        Compose(old(Now()), old(trail), OnDisk(old(Now()), RestoreSteps(old(data), snap, 0, removals)),
                RecordSteps(old(Now()).(data := data), name, from));
      }
    }

    method FinishRollback(name: Name, from: Option<nat>)
      requires from != Some(0)
      modifies this
      ensures var steps := RecordSteps(old(Now()), name, from);
              Now() == Last(old(Now()), steps) && trail == old(trail) + steps
    {
      PublishSourceReady(from);
      ClearPending();
      Retire(name);
    }

    method RecoverPending(removals: seq<seq<set<Path>>>) returns (outcome: Outcome)
      modifies this
      ensures var run := RecoverRun(root, old(Now()), removals);
              outcome == run.outcome && Now() == Last(old(Now()), run.trail) && trail == old(trail) + run.trail
    {
      if pending.None? {
        return Ready;
      }
      var p := pending.value;
      if !Publishable(p) {
        return InvalidState;
      }
      var offender := RejectRecursiveBackup(p.paths);
      if offender.Some? {
        return RecursiveBackup;
      }
      if p.backup !in snapshots {
        return InvalidBackup;
      }
      var snap := snapshots[p.backup];
      if !Matches(snap, p.from, p.to) || snap.paths != p.paths {
        return InvalidBackup;
      }
      if Committed(Now(), p) {
        var _ := PublishReady(p.to);
        ClearPending();
        return Ready;
      }
      if !SourceCurrent(Now(), p) {
        return InvalidState;
      }
      var restored := Rollback(p.backup, snap, p.from, removals);
      return if restored then Ready else RestoreFailed;
    }

    /** Looks at what is above the path, the nearest first. */
    method RejectSymlinkAncestors(p: Path) returns (blocked: bool)
      ensures blocked <==> PathBlocked(data, p)
    {
      var k := |p|;
      while k > 2
        invariant k <= |p|
        invariant forall j :: k <= j < |p| && 1 < j ==> !(p[..j] in data && data[p[..j]] != Directory)
      {
        k := k - 1;
        if p[..k] in data && data[p[..k]] != Directory {
          return true;
        }
      }
      return false;
    }

    /** The capture of each path begins with that check, and the first blocked path ends it. */
    method CaptureSources(paths: seq<Path>) returns (content: Option<Data>)
      ensures content == if Blocked(data, paths) then None else Some(Within(data, paths))
    {
      var i := 0;
      while i < |paths|
        invariant 0 <= i <= |paths|
        invariant forall j :: 0 <= j < i ==> !PathBlocked(data, paths[j])
      {
        var blocked := RejectSymlinkAncestors(paths[i]);
        if blocked {
          return None;
        }
        i := i + 1;
      }
      return Some(Within(data, paths));
    }

    /** Retire an orphan of the same name, then publish a snapshot of the paths, if none is blocked. */
    method TakeSnapshot(req: Request) returns (name: Name, snap: Option<Snapshot>)
      modifies this`snapshots, this`trail
      ensures name == TransactionName(old(Now()), req)
      ensures var foreign := name in old(snapshots) && !Matches(old(snapshots)[name], name.from, name.to);
              && (snap.None? <==> foreign || Blocked(data, req.paths))
              && (foreign ==> Now() == old(Now()) && trail == old(trail))
              && (snap.None? && !foreign ==>
                    && Now() == Last(old(Now()), OrphanSteps(old(Now()), name))
                    && trail == old(trail) + OrphanSteps(old(Now()), name))
      ensures snap.Some? ==>
                && snap.value == Captured(old(Now()), req)
                && Now() == old(Now()).(snapshots := old(snapshots)[name := snap.value])
                && trail == old(trail) + OrphanSteps(old(Now()), name) + [Now()]
    {
      name := TransactionName(Now(), req);
      if name in snapshots {
        if !Matches(snapshots[name], name.from, name.to) {
          return name, None;
        }
        Retire(name);
      }
      var content := CaptureSources(req.paths);
      if content.None? {
        return name, None;
      }
      var taken := Snapshot(AppliedVersion(Now()), req.version, req.paths, content.value);
      snapshots := snapshots[name := taken];
      snap := Some(taken);
      assert (old(snapshots) - {name})[name := taken] == old(snapshots)[name := taken];
      trail := trail + [Now()];
    }

    /** From the published journal on: migrate, then commit or roll back. */
    method Settle(req: Request, w: World, name: Name, snap: Snapshot) returns (outcome: Outcome)
      requires req.version != 0 && snap.from != Some(0)
      modifies this
      ensures var run := SettleRun(old(Now()), req, w, name, snap);
              outcome == run.outcome && Now() == Last(old(Now()), run.trail) && trail == old(trail) + run.trail
    {
      if req.migrator {
        var ok := RunMigrator(req, w);
        if !ok {
          var restored := Rollback(name, snap, snap.from, w.rollback);
          return if restored then MigrationFailed else MigrationRestoreFailed;
        }
      }
      Publish(Applied(req.version, name));
      var _ := PublishReady(req.version);
      ClearPending();
      return Ready;
    }

    method Migrate(req: Request, w: World) returns (outcome: Outcome)
      modifies this
      ensures var run := MigrateRun(old(Now()), req, w);
              outcome == run.outcome && Now() == Last(old(Now()), run.trail) && trail == old(trail) + run.trail
    {
      ghost var before := Now();
      var name, taken := TakeSnapshot(req);
      if taken.None? {
        return InvalidBackup;
      }
      var snap := taken.value;
      ClearReady();
      var journaled := PublishPending(Pending(snap.from, req.version, name, req.paths));
      assert trail == old(trail) + PrepareSteps(before, req) && Now() == Last(before, PrepareSteps(before, req));
      if !journaled {
        return InvalidState;
      }
      ghost var prepared := Now();
      outcome := Settle(req, w, name, snap);
      Compose(before, old(trail), PrepareSteps(before, req), SettleRun(prepared, req, w, name, snap).trail);
    }

    /** The decision between same version, downgrade and migration. */
    method Decide(req: Request, w: World) returns (outcome: Outcome)
      modifies this
      ensures var run := DecideRun(old(Now()), req, w);
              outcome == run.outcome && Now() == Last(old(Now()), run.trail) && trail == old(trail) + run.trail
    {
      var current := AppliedVersion(Now());
      if current == Some(req.version) {
        var ok := PublishReady(req.version);
        return if ok then Ready else InvalidState;
      }
      if current.Some? && current.value > req.version {
        return Downgrade(current.value, req.version);
      }
      outcome := Migrate(req, w);
    }

    /** One call of the transaction goes through exactly the durable states of `ApplyRun`. */
    method Apply(req: Request, w: World) returns (outcome: Outcome)
      modifies this
      ensures var run := ApplyRun(root, old(Now()), req, w);
              outcome == run.outcome && Now() == Last(old(Now()), run.trail) && trail == old(trail) + run.trail
    {
      var offender := RejectRecursiveBackup(req.paths);
      if offender.Some? {
        return RecursiveBackup;
      }
      if AppliedVersion(Now()) == Some(0) {
        return InvalidState;
      }
      outcome := RecoverPending(w.recovery);
      if outcome == Ready {
        ghost var recover, recovered := RecoverRun(root, old(Now()), w.recovery).trail, Now();
        outcome := Decide(req, w);
        Compose(old(Now()), old(trail), recover, DecideRun(recovered, req, w).trail);
      }
    }
  }
}
