/** One call of the data-schema transaction, written as the sequence of durable states it goes
    through.  A power loss, or an input/output error, is a stop after any number of them. */
module SchemaProtocol {
  import opened Wrappers
  import opened SchemaDisk

  /** What a manifest asks for: the schema version, the paths to back up, and whether it
      brings a migrator. */
  datatype Request = Request(version: nat, paths: seq<Path>, migrator: bool)

  /** What the outside world does during one call: the states the migrator writes inside the
      backup paths, whether it succeeds, and how tree removals progress. */
  datatype World = World(
    writes: seq<Data>,
    succeeds: bool,
    recovery: seq<seq<set<Path>>>,
    rollback: seq<seq<set<Path>>>)

  datatype Outcome =
    | Ready
    | Downgrade(applied: nat, requested: nat)
    | MigrationFailed
    | MigrationRestoreFailed
    | RestoreFailed
    | RecursiveBackup
    | InvalidBackup
    | InvalidState

  datatype Run = Run(trail: seq<Disk>, outcome: Outcome)

  function AppliedVersion(d: Disk): Option<nat> {
    if d.applied.Some? then Some(d.applied.value.version) else None
  }

  predicate Matches(snap: Snapshot, from: Option<nat>, to: nat) {
    snap.from == from && snap.to == to
  }

  predicate Committed(d: Disk, p: Pending) {
    d.applied.Some? && d.applied.value.version == p.to && d.applied.value.backup == p.backup
  }

  predicate SourceCurrent(d: Disk, p: Pending) {
    AppliedVersion(d) == p.from
  }

  function OnDisk(d: Disk, states: seq<Data>): seq<Disk> {
    seq(|states|, i requires 0 <= i < |states| => d.(data := states[i]))
  }

  /** The state after a call that lost power after `stop` durable steps. */
  function After(d: Disk, trail: seq<Disk>, stop: nat): Disk {
    if stop < |trail| then Last(d, trail[..stop]) else Last(d, trail)
  }

  // ----- Recovery -----

  /** Restore the data, publish the fence of the source version, clear the journal, retire the
      snapshot: shared by crash recovery and by a failed migrator.  A restore that cannot reach a
      path ends it. */
  function RollbackSteps(d: Disk, name: Name, snap: Snapshot, from: Option<nat>, removals: seq<seq<set<Path>>>): seq<Disk> {
    var states := RestoreSteps(d.data, snap, 0, removals);
    if !Restorable(d.data, snap, 0) then OnDisk(d, states)
    else OnDisk(d, states) + RecordSteps(d.(data := Last(d.data, states)), name, from)
  }

  function RecordSteps(restored: Disk, name: Name, from: Option<nat>): seq<Disk> {
    var fenced := restored.(ready := from);
    var cleared := fenced.(pending := None);
    [fenced, cleared, cleared.(snapshots := cleared.snapshots - {name})]
  }

  function RecoverRun(root: Path, d: Disk, removals: seq<seq<set<Path>>>): Run {
    if d.pending.None? then Run([], Ready)
    else
      var p := d.pending.value;
      if !Publishable(p) then Run([], InvalidState)
      else if Recursive(root, p.paths) then Run([], RecursiveBackup)
      else if p.backup !in d.snapshots then Run([], InvalidBackup)
      else
        var snap := d.snapshots[p.backup];
        if !Matches(snap, p.from, p.to) || snap.paths != p.paths then Run([], InvalidBackup)
        else if Committed(d, p) then
          var fenced := d.(ready := Some(p.to));
          Run([fenced, fenced.(pending := None)], Ready)
        else if !SourceCurrent(d, p) then Run([], InvalidState)
        else
          Run(RollbackSteps(d, p.backup, snap, p.from, removals),
              if Restorable(d.data, snap, 0) then Ready else RestoreFailed)
  }

  // ----- Migration -----

  function MigratorState(base: Data, paths: seq<Path>, write: Data): Data {
    Without(base, paths) + Within(write, paths)
  }

  function MigratorStates(base: Data, req: Request, w: World): seq<Data> {
    if req.migrator then
      seq(|w.writes|, i requires 0 <= i < |w.writes| => MigratorState(base, req.paths, w.writes[i]))
    else []
  }

  function Migrated(base: Data, req: Request, w: World): Data {
    Last(base, MigratorStates(base, req, w))
  }

  /** A snapshot of the same name is an orphan of an interrupted transaction and goes first. */
  function OrphanSteps(d: Disk, name: Name): seq<Disk> {
    if name in d.snapshots then [d.(snapshots := d.snapshots - {name})] else []
  }

  predicate Publishable(p: Pending) {
    p.to != 0 && p.from != Some(0) && (p.from.Some? ==> p.from.value < p.to)
    && forall i :: 0 <= i < |p.paths| ==> SafeAbsolute(p.paths[i])
  }

  function TransactionName(d: Disk, req: Request): Name {
    Name(AppliedVersion(d), req.version)
  }

  function Journal(d: Disk, req: Request): Pending {
    Pending(AppliedVersion(d), req.version, TransactionName(d, req), req.paths)
  }

  function Captured(d: Disk, req: Request): Snapshot {
    Snapshot(AppliedVersion(d), req.version, req.paths, Within(d.data, req.paths))
  }

  /** Snapshot the data, drop the fence, publish the journal. */
  function PrepareSteps(d: Disk, req: Request): seq<Disk> {
    var name := TransactionName(d, req);
    var snapped := d.(snapshots := d.snapshots[name := Captured(d, req)]);
    var unfenced := snapped.(ready := None);
    OrphanSteps(d, name)
    + [snapped, unfenced]
    + if Publishable(Journal(d, req)) then [unfenced.(pending := Some(Journal(d, req)))] else []
  }

  /** Publish the new version, raise its fence, clear the journal. */
  function CommitSteps(d: Disk, req: Request, name: Name): seq<Disk> {
    var applied := d.(applied := Some(Applied(req.version, name)));
    var fenced := applied.(ready := Some(req.version));
    [applied, fenced, fenced.(pending := None)]
  }

  /** Run the migrator from a prepared disk, then commit or roll back. */
  function SettleRun(d: Disk, req: Request, w: World, name: Name, snap: Snapshot): Run {
    var states := MigratorStates(d.data, req, w);
    var migrated := d.(data := Migrated(d.data, req, w));
    if req.migrator && !w.succeeds then
      Run(OnDisk(d, states) + RollbackSteps(migrated, name, snap, snap.from, w.rollback),
          if Restorable(migrated.data, snap, 0) then MigrationFailed else MigrationRestoreFailed)
    else
      Run(OnDisk(d, states) + CommitSteps(migrated, req, name), Ready)
  }

  /** The capture refuses a blocked path before anything but an orphan is touched. */
  function MigrateRun(d: Disk, req: Request, w: World): Run {
    var name := TransactionName(d, req);
    if name in d.snapshots && !Matches(d.snapshots[name], name.from, name.to) then Run([], InvalidBackup)
    else if Blocked(d.data, req.paths) then Run(OrphanSteps(d, name), InvalidBackup)
    else
      var prepare := PrepareSteps(d, req);
      if !Publishable(Journal(d, req)) then Run(prepare, InvalidState)
      else
        var settle := SettleRun(Last(d, prepare), req, w, name, Captured(d, req));
        Run(prepare + settle.trail, settle.outcome)
  }

  // ----- The whole call -----

  function DecideRun(d: Disk, req: Request, w: World): Run {
    if d.applied.Some? && d.applied.value.version == req.version then
      if req.version == 0 then Run([], InvalidState)
      else Run([d.(ready := Some(req.version))], Ready)
    else if d.applied.Some? && d.applied.value.version > req.version then
      Run([], Downgrade(d.applied.value.version, req.version))
    else MigrateRun(d, req, w)
  }

  function ApplyRun(root: Path, d: Disk, req: Request, w: World): Run {
    if Recursive(root, req.paths) then Run([], RecursiveBackup)
    else if AppliedVersion(d) == Some(0) then Run([], InvalidState)
    else
      var recover := RecoverRun(root, d, w.recovery);
      if recover.outcome != Ready then recover
      else
        var decide := DecideRun(Last(d, recover.trail), req, w);
        Run(recover.trail + decide.trail, decide.outcome)
  }
}
