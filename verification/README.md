# ReMagic: a verified model of its protocols

ReMagic runs applications on an e-paper tablet: a supervisor owns the display and the application
processes, a runner migrates application data between schema versions, a package manager installs
and rolls back releases, an agent daemon runs one turn per application, and a display host maps
application canvases onto the panel.  This project models the parts of it where an ordering, a race
or an off-by-one would hurt, and proves what they promise.  `dafny verify dfyconfig.toml` checks all
of it.

Code that changes things step by step is a class here, proved against a specification over values;
the theorems about runs, crashes and interleavings are lemmas about that specification.

| files | what they model |
|---|---|
| `SchemaDisk`, `SchemaProtocol`, `SchemaSafety`, `SchemaRecovery`, `SchemaOrder`, `SchemaStore` | the crash-safe data migration of the runner: the disk with its data tree, snapshots, journal, applied version and writer fence; every write, rename and removal is one durable step, and power may fail between any two, inside the migrator, inside a restore and inside recovery |
| `PackageProtocol`, `PackageSafety`, `PackageRollback`, `PackageOutcome`, `PackageStore` | installing, recovering, pruning and rolling back releases, with power failures and disk errors at any step |
| `SupervisorModel`, `SupervisorStore`, `Fence`, `Compatibility` | the supervisor's fenced state machine, its validation, the application's end of the fence over a lossy reordering channel, and the conversions from and to the older state |
| `AgentSlot`, `AgentTurns`, `AgentOutcome` | the turn slot of the agent daemon: its critical sections, and all interleavings of requests, turns, cancellations and disconnections |
| `PowerPolicy`, `PowerKey` | work leases and the idle deadline; the timed click tracker of the power key |
| `Scaling`, `DisplayGeometry`, `Damage` | rounding scales, the canvas-to-panel mapping, and deferred damage |
| `RpcLines`, `BundleInventory`, `ContentStream` | the bounded line reader; the package inventory and the canonical stream behind its content id |

## What the proofs found

Where the code does not do what its own comments or callers expect, the model keeps the code as it
is; a lemma shows where it fails, and another says exactly when it holds.

- A backup path with something other than a directory above it, such as a symbolic link, is refused
  when it is captured (`copy.rs:19`, `metadata.rs:79-105`), and nothing is due then.  One that merely
  lacks its parent directory is accepted and recorded as absent, but restoring it opens that parent
  (`restore.rs:15-18`).  So of a failed upgrade `FailedUpgradeRollsBackExactly` says three things: it
  is refused if and only if a path is blocked; otherwise it gives the data back if and only if every
  backup path had its directories when the call began; otherwise the journal stays, and every later
  launch fails in the same place (`StuckForever`, and `MissingParentSticks` for one such input).  In
  general a recovery completes if and only if the paths can be reached when it comes to them
  (`RecoverIsSound`).
- The writer fence (`data_schema.rs:107-109` says an older agent can never write while recovery is
  unresolved).  A failed upgrade raises the source fence before it clears the journal.  A crash
  there leaves the disk *exposed*: the next recovery restores once more, and takes recorded data
  away under the raised fence while it does.  `FenceHoldsExactly` gives the condition,
  `FenceLostByTwoCrashes` the run.  A write made under that fence survives the next recovery if and
  only if it changed nothing that was recorded (`WriteSurvivesExactly`).
- Damage (`geometry.rs:124-125` says scaling can never omit a changed pixel).  The panel looks each
  of its pixels up in the canvas with rounding, so the pixel before the mapped rectangle can show a
  damaged column.  `RedrawnExactly` gives the condition; panels less than twice as fine as the
  canvas, such as the ones named in the source, are safe (`NoSpill`).
- A union of rectangles that spans more than a 32-bit width is empty, so both damages are lost
  (`UnionBoundsExactly`); the deferred rectangles come from clients unclipped
  (`qtfb/surfaces.rs:304`).  An entry then starts over.  After any history it holds every pixel it
  was handed if and only if each damage came after the last that did not fit, or is in the bounding
  box of those that did (`HistoryIsHeldExactly`); what it holds is redrawn whole (`NothingIsLost`).
- An input axis whose range is longer than 32 bits sends some reading off the screen
  (`AxisStaysExactly`).
- Package installation restores the link from the state record.  It is atomic if and only if the two
  agreed, or putting the state's link back is the new registration already, or the install is
  refused before it writes its journal; for a release that is not installed yet only the first of
  these remains (`AtomicExactly`).  A rollback, which has no journal, can leave the two disagreeing
  at exactly one point (`RollbackAgreesExactly`).
- A rollback by version can register a release that an interrupted pruning left incomplete
  (`TornReleaseIsPicked`).
- The content stream separates its fields by NUL, but nothing keeps a NUL out of a version.  By the
  stream alone a version can take in whole records and leave a hash in front of the next path, and
  that is the only way two bundles on disk share a stream (`SameStreamExactly`).  A version that
  comes from the manifest, as installation demands (`bundle.rs:309-320`), cannot do that
  (`SameStreamMeansSamePackage`).
- A turn's id is its request's id.  Closing a connection signals only its own turn, in every run, if
  and only if no id is used on two connections (`DisconnectSparesOthersExactly`); the slot itself
  stays right whatever the ids are (`OneUnfinishedTurn`).
- An equal-epoch token may give a parked application its old lease back (`LeaseRegainedExactly`).
  For that an older token has to arrive after a newer one.  The SDK's client accepts a
  `SOCK_SEQPACKET` socket only (`lifecycle.rs:28`), which keeps order, so there it cannot happen: the
  fence's own check does not rule it out, its transport does.
- Visibly finished work, and a new idle setting, make a reserved sleep stale without waking the
  power manager, and no deadline is due from there (`StaleButQuiescingExactly`,
  `QuiescingIsNeverDue`).
- The reader's `select!` may drop a call in the middle of a line.  Where the whole was a line, the
  next call still gives that line if and only if nothing had been consumed, or only a carriage
  return right before the newline (`DroppedCallTearsTheLine`).
- The power key never counts a press twice, and each one is reported, pending or thrown away
  (`PressesAreConserved`).  None is thrown away if and only if no step of the run is of the kinds
  `Drops` lists, such as a release after the deadline of an earlier click (`ConservedExactly`).

## Model

| member | source | states |
|---|---|---|
| `SchemaDisk.RestoreStepsKeepRestored` | crates/remagic-runner/src/data_schema/backup/mod.rs:250-260 | at every step of a restore, even one stopped inside a removal, what the snapshot restores the data to has not moved |
| `SchemaDisk.RestoreEndsRestored` | crates/remagic-runner/src/data_schema/backup/mod.rs:250-260 | from any torn data a restore that can reach its paths leaves exactly the recorded data below the backup paths and exactly the present data elsewhere |
| `SchemaDisk.RestorableExactly` | crates/remagic-runner/src/data_schema/backup/restore.rs:9-67 | a restore of separate paths runs to its end if and only if each path can be reached, and it does not matter what has been done below them |
| `SchemaDisk.CaptureThenRestore` | crates/remagic-runner/src/data_schema/backup/mod.rs:49-103 | capturing and later restoring over data that differs only below the captured paths gives the captured data back exactly |
| `SchemaDisk.RestoreSparesDirectory` | crates/remagic-runner/src/data_schema.rs:249-262 | a restore whose paths pass the recursion check never changes anything below the managed state directory, at any of its steps |
| `SchemaDisk.RestoreMayStopInside` | crates/remagic-runner/src/data_schema/backup/restore.rs:16-78 | a removal may lose power with any of its entries left, and a replacement with nothing in place |
| `SchemaSafety.RestoredIsStable` | crates/remagic-runner/src/data_schema/backup/mod.rs:250-260 | restoring twice is restoring once |
| `SchemaSafety.TornDataIsSound` | crates/remagic-runner/src/data_schema.rs:192-237 | under an unresolved journal the data may be torn in any way that restores to the same data without losing the invariant |
| `SchemaSafety.RollbackIsSound` | crates/remagic-runner/src/data_schema.rs:233-236 | every state of a rollback is sound; if its paths can be reached its end has the source data back, the source fence, no journal and no snapshot, and if not the journal and snapshot stay |
| `SchemaSafety.RecoverIsSound` | crates/remagic-runner/src/data_schema.rs:192-237 | on every reachable disk recovery never finds the journal incompatible or its backup missing, and completes without a journal if and only if the backup paths can be reached; otherwise the transaction stays due |
| `SchemaSafety.PrepareIsSound` | crates/remagic-runner/src/data_schema.rs:106-118 | snapshot, dropped fence and journal are published in an order whose every prefix is sound, over an orphan of an earlier transaction too |
| `SchemaSafety.MigratorStateIsSound` | crates/remagic-runner/src/data_schema.rs:121-130 | whatever the migrator has written below its declared paths, the snapshot still gives the old data back |
| `SchemaSafety.SettleIsSound` | crates/remagic-runner/src/data_schema.rs:121-158 | after the journal: success publishes version, fence and cleared journal over the migrated data; failure gives the data back byte for byte under the old version, or leaves the transaction due where the paths cannot be reached |
| `SchemaSafety.FailureIsSound` | crates/remagic-runner/src/data_schema.rs:131-135 | a failed migration is rolled back byte for byte if and only if the backup paths can be reached |
| `SchemaSafety.ApplyIsSound` | crates/remagic-runner/src/data_schema.rs:73-159 | one call from any sound disk: all its durable states are sound, it fails in recovery if and only if the disk cannot be recovered, it is refused at the capture if and only if it is an upgrade with a blocked path, with nothing due then, and each outcome leaves exactly what it promises |
| `SchemaSafety.OrphanIsSound` | crates/remagic-runner/src/data_schema/backup/mod.rs:49-75 | a refused capture leaves data, applied version, fence and journal as they were; at most an orphan snapshot is gone |
| `SchemaSafety.ApplyAdvances` | crates/remagic-runner/src/data_schema.rs:150-155 | no durable state of a call has a smaller applied version than the disk it started on |
| `SchemaSafety.RunsAreSound` | crates/remagic-runner/src/data_schema.rs:73-159 | over every run of calls, each stopped after any number of durable steps, and of application writes, also those a raised fence permits over an unresolved journal, the invariant holds and the applied version never decreases |
| `SchemaSafety.ConfinedWriteIsAdmissible` | crates/remagic-runner/src/data_schema.rs:107-118 | under a raised fence any whole write that stays below the backup paths is among those writes |
| `SchemaSafety.SuccessAfterAnyRun` | crates/remagic-runner/src/data_schema.rs:73-159 | whenever a call returns success after any run, the data is whole at the requested version, the applied version and the fence equal it, and no journal is pending |
| `SchemaRecovery.RecoveryConverges` | crates/remagic-runner/src/data_schema.rs:192-237 | recovery interrupted any number of times anywhere and then completed reaches the disk of one uninterrupted recovery, up to the snapshot being retired; for separate paths it completes if and only if it would have at once |
| `SchemaRecovery.FailedUpgradeRollsBackExactly` | crates/remagic-runner/src/data_schema/backup/restore.rs:9-19 | an upgrade whose migrator fails: with a blocked path it is refused with nothing due; otherwise it gives the data back if and only if every backup path had its directories when the call began; otherwise the disk is left stuck |
| `SchemaRecovery.StuckForever` | crates/remagic-runner/src/data_schema/backup/restore.rs:9-19 | on a stuck disk every later call, after any run of calls stopped anywhere, fails in recovery or is refused for its own paths |
| `SchemaRecovery.MissingParentSticks` | crates/remagic-runner/src/data_schema/backup/metadata.rs:79-105 | one such input: a declared path without a parent directory, and a first migration that fails |
| `SchemaRecovery.RollbackIsFenced` | crates/remagic-runner/src/data_schema.rs:233-236 | a rollback that does not start on an exposed disk never has the fence up over data that is not restored |
| `SchemaRecovery.FenceHolds` | crates/remagic-runner/src/data_schema.rs:107-118 | a call that does not start on an exposed disk keeps the fence promise in each of its states |
| `SchemaRecovery.FenceFails` | crates/remagic-runner/src/data_schema.rs:233-235 | the next call on an exposed disk always has a state with the fence up and recorded data missing |
| `SchemaRecovery.FenceHoldsExactly` | crates/remagic-runner/src/data_schema.rs:192-237 | the fence holds through every step of a call, whatever the environment does, if and only if the call does not start on an exposed disk |
| `SchemaRecovery.RunsAreFenced` | crates/remagic-runner/src/data_schema.rs:107-118 | over every run in which no call starts on an exposed disk or one overwritten while exposed, ready = v implies the data is whole at v in every durable state |
| `SchemaRecovery.WriteSurvivesExactly` | crates/remagic-runner/src/data_schema.rs:233-236 | a write made under a raised fence over an unresolved journal survives the next completed recovery if and only if it changed nothing that was recorded |
| `SchemaRecovery.FailedUpgradePassesExposed` | crates/remagic-runner/src/data_schema.rs:131-135 | every failed upgrade of an application with data that can be rolled back passes through an exposed disk |
| `SchemaRecovery.FenceLostByTwoCrashes` | crates/remagic-runner/src/data_schema.rs:131-135 | from any such upgrade two crashes lead to a raised fence over missing data |
| `SchemaRecovery.FenceLostExample` | crates/remagic-runner/src/data_schema.rs:239-247 | the same on one concrete application with one file |
| `SchemaOrder.CallFollows` | crates/remagic-runner/src/data_schema.rs:105-158 | every call writes one record at a time and never rewrites a snapshot; it drops the fence only over a snapshot of the present data, writes its journal only after both, and removes it under the fence of the applied version |
| `SchemaOrder.RaisedOnlyByRollback` | crates/remagic-runner/src/data_schema.rs:107-135 | from a disk without a journal the fence is up over an uncommitted one only after a failed migrator, and then the data is what it was |
| `SchemaOrder.SuccessIsNeverExposed` | crates/remagic-runner/src/data_schema.rs:107-158 | a call whose migrator does not fail never passes an exposed disk |
| `SchemaOrder.CallEndsExactly` | crates/remagic-runner/src/data_schema.rs:73-159 | the outcome and end of every call from its inputs: in particular it succeeds, with the migrator's data, whenever it is neither refused nor failed by its migrator |
| `SchemaOrder.RecoveryActsExactly` | crates/remagic-runner/src/data_schema.rs:192-231 | on any disk, sound or not, recovery acts on a journal if and only if it moves a version forward over safe paths with its snapshot at hand and a fitting applied version, and refuses any other without a step |
| `SchemaOrder.ForeignSnapshotIsKept` | crates/remagic-runner/src/data_schema/backup/mod.rs:49-60 | a snapshot of the same name that was taken for another move is never replaced |
| `SchemaStore.Store.ClearReady` | crates/remagic-runner/src/data_schema/persistence.rs:191-202 | drops the fence, and is no error when it is already down |
| `SchemaStore.Store.PublishReady` | crates/remagic-runner/src/data_schema/persistence.rs:179-189 | raises the fence of a version in one durable step, and refuses version zero |
| `SchemaStore.Store.ClearPending` | crates/remagic-runner/src/data_schema/persistence.rs:156-167 | removes the journal in one durable step |
| `SchemaStore.Store.Publish` | crates/remagic-runner/src/data_schema/persistence.rs:169-177 | records the applied version in one durable step |
| `SchemaStore.Store.Retire` | crates/remagic-runner/src/data_schema/backup/mod.rs:262-292 | removes one snapshot in one durable step and no other |
| `SchemaStore.Store.RejectRecursiveBackup` | crates/remagic-runner/src/data_schema.rs:249-262 | the loop refuses exactly the paths that overlap the state directory in either direction |
| `SchemaStore.Store.PublishPending` | crates/remagic-runner/src/data_schema/persistence.rs:129-154 | writes the journal if it passes the validity checks, and nothing otherwise |
| `SchemaStore.Store.PublishSourceReady` | crates/remagic-runner/src/data_schema.rs:239-247 | raises the fence of the source version, or drops it when there was none |
| `SchemaStore.Store.RestoreSource` | crates/remagic-runner/src/data_schema/backup/restore.rs:9-67 | in-place restoring of one path passes through exactly the specified durable states, and fails where the path cannot be reached |
| `SchemaStore.Store.Place` | crates/remagic-runner/src/data_schema/backup/restore.rs:20-67 | puts the recorded content in place once the path is reached, or leaves what the removal left |
| `SchemaStore.Store.Restore` | crates/remagic-runner/src/data_schema/backup/mod.rs:250-260 | the loop over the backup paths passes through exactly the specified durable states and stops at the first path it cannot reach |
| `SchemaStore.Store.RecoverPending` | crates/remagic-runner/src/data_schema.rs:192-237 | in-place recovery has the specified outcome, end state and trail of durable states |
| `SchemaStore.Store.TakeSnapshot` | crates/remagic-runner/src/data_schema/backup/mod.rs:49-103 | retires an orphan of the same name and captures the paths; refuses a foreign snapshot of that name with no change, and a blocked path after the orphan is retired |
| `SchemaStore.Store.CaptureSources` | crates/remagic-runner/src/data_schema/backup/mod.rs:70-74 | the loop captures all paths, or refuses exactly when one is blocked |
| `SchemaStore.Store.RejectSymlinkAncestors` | crates/remagic-runner/src/data_schema/backup/metadata.rs:79-105 | the walk upwards finds exactly the paths that have something other than a directory above them |
| `SchemaStore.Store.Rollback` | crates/remagic-runner/src/data_schema.rs:131-135 | restore, source fence, cleared journal, retired snapshot, in that order |
| `SchemaStore.Store.FinishRollback` | crates/remagic-runner/src/data_schema.rs:132-135 | after the data: source fence, cleared journal, retired snapshot, in that order |
| `SchemaStore.Store.RunMigrator` | crates/remagic-runner/src/data_schema.rs:121-130 | the data passes through the states the migrator leaves below its declared paths, and its report is passed on |
| `SchemaStore.Store.Migrate` | crates/remagic-runner/src/data_schema.rs:105-158 | snapshot, fence, journal and settlement in place follow the specified trail, refusals included |
| `SchemaStore.Store.Decide` | crates/remagic-runner/src/data_schema.rs:91-103 | the same version raises the fence again, an older one is refused, a newer one migrates |
| `SchemaStore.Store.Settle` | crates/remagic-runner/src/data_schema.rs:121-158 | in-place migration and commit or rollback follow the specified trail |
| `SchemaStore.Store.Apply` | crates/remagic-runner/src/data_schema.rs:73-159 | the whole call in place: its outcome, end state and every durable state in order are those the safety theorems speak of |
| `PackageSafety.RemoveIsSound` | crates/remagic-package/src/filesystem.rs:113-123 | removing a release nothing names is sound at every step of the tree removal |
| `PackageSafety.RemovalMayStopInside` | crates/remagic-package/src/filesystem.rs:113-123 | a removal may lose power over what is left of a release, its manifest readable or not |
| `PackageSafety.PruneIsSound` | crates/remagic-package/src/manager.rs:289-310 | pruning leaves exactly the kept and the unlisted releases, changes no record, and is sound at every step |
| `PackageSafety.RecordsAreSound` | crates/remagic-package/src/manager/transaction.rs:46-77 | while link, manifest and state record are put back one by one, all names stay present |
| `PackageSafety.RecoverIsSound` | crates/remagic-package/src/manager/transaction.rs:46-77 | recovery is sound at every step and ends with the journal's registration, the fresh target gone and no journal |
| `PackageSafety.PublishIsSound` | crates/remagic-package/src/manager/install.rs:185-232 | up to the removal of the journal a publication can be undone, from then on it stands; its end keeps current, previous and unlisted releases |
| `PackageSafety.FailedPublishIsUndone` | crates/remagic-package/src/manager/install.rs:103-148 | a disk error after any number of publication steps hands over to a recovery that ends on the old or the new registration |
| `PackageSafety.TransactionIsSound` | crates/remagic-package/src/manager/install.rs:150-232 | every durable state of a transaction stands for the old or the new registration and none dangles |
| `PackageSafety.InstallIsSound` | crates/remagic-package/src/manager/install.rs:21-35 | the same for a whole install with the recovery before it; success means the new registration |
| `PackageSafety.AttemptsKeepResolution` | crates/remagic-package/src/manager/transaction.rs:38-44 | any number of interrupted recoveries leave what recovery will restore unchanged |
| `PackageSafety.InstallIsAtomic` | crates/remagic-package/src/manager/install.rs:103-232 | for every crash point, any number of crashes in recovery, and a final recovery, link, manifest and state record are exactly the old triple (with the state's link) or exactly the new one |
| `PackageSafety.AtomicExactly` | crates/remagic-package/src/manager/install.rs:63-166 | any crashes of an install and of its recoveries leave exactly the old or exactly the new triple if and only if link and state record agreed, or the state's link gives the new triple already, or the install stops before its journal; for a release not yet installed if and only if they agreed |
| `PackageRollback.SwitchIsSound` | crates/remagic-package/src/manager.rs:98-155 | a rollback dangles nowhere if and only if its target is a whole release; the recorded previous release always is |
| `PackageRollback.RollbackIsSound` | crates/remagic-package/src/manager.rs:90-162 | a rollback to the recorded previous release never dangles at any step; one by version does not when every release answering to it is whole |
| `PackageRollback.TornReleaseIsPicked` | crates/remagic-package/src/manager.rs:264-287 | an interrupted pruning leaves a release that a rollback by version, whatever the order of the full listing, then registers although it is not whole |
| `PackageRollback.TornReleaseExample` | crates/remagic-package/src/manager.rs:289-310 | the same on three concrete releases, all of them listed |
| `PackageRollback.InstallIsCoherent` | crates/remagic-package/src/manager/install.rs:207-225 | a completed install, also one that first recovers from an earlier one, has link, manifest and state on one whole release, records the release recovery went back to as its predecessor, and with a full listing leaves exactly current and previous |
| `PackageRollback.RollbackSwaps` | crates/remagic-package/src/manager.rs:137-155 | one rollback from a coherent registration swaps current and previous |
| `PackageRollback.RollbackTwiceIsIdentity` | crates/remagic-package/src/manager.rs:90-162 | two rollbacks restore link, manifest, the full state record and the releases |
| `PackageRollback.InstallTwiceThenRollback` | crates/remagic-package/src/manager.rs:90-162 | after installing A then B, one rollback runs A with B as its previous release |
| `PackageRollback.RunsNeverDangle` | crates/remagic-package/src/manager/transaction.rs:38-77 | over every run of interrupted installs, recoveries and rollbacks whose by-version targets are whole, no registered name dangles, now or after recovery |
| `PackageRollback.CleanRunsNeverDangle` | crates/remagic-package/src/manager/transaction.rs:38-77 | the same from a machine without packages |
| `PackageRollback.RollbackAgreesExactly` | crates/remagic-package/src/manager.rs:137-155 | a rollback stopped after any number of steps has link and state disagreeing at exactly one point, after its second record |
| `PackageOutcome.InstallEndsExactly` | crates/remagic-package/src/manager/install.rs:63-148 | without a disk error an install succeeds if and only if the bundle is usable and not refused, which a new release never is, and one on disk only without a state record or when it is neither registered nor whole; a renewal takes one step |
| `PackageOutcome.InstallRegistersInOrder` | crates/remagic-package/src/manager/install.rs:103-225 | in a completed install the journal, the release, manifest, link and state record come in this order, and the journal goes when all three records are new |
| `PackageOutcome.RecoveryIsInOrder` | crates/remagic-package/src/manager/transaction.rs:46-77 | a recovery puts back link, manifest and state record in this order, and only then removes a new release and then the journal |
| `PackageOutcome.TargetExactly` | crates/remagic-package/src/manager.rs:264-287 | a rollback goes to the recorded previous release, or to the only entry of the listing that answers to the version |
| `PackageOutcome.RollbackEndsExactly` | crates/remagic-package/src/manager.rs:90-162 | a rollback succeeds if and only if that release can be gone to, and then all three records are its own, the one left is the previous, and the rest stays; otherwise nothing changes |
| `PackageOutcome.RollbackRegistersInOrder` | crates/remagic-package/src/manager.rs:137-155 | and its records come in order too |
| `PackageStore.Store.SwitchLink` | crates/remagic-package/src/filesystem.rs:57-66 | switches the link in one durable step, or fails and changes nothing |
| `PackageStore.Store.WriteManifest` | crates/remagic-package/src/filesystem.rs:26-55 | publishes the manifest in one durable step, or fails and changes nothing |
| `PackageStore.Store.WriteState` | crates/remagic-package/src/filesystem.rs:26-55 | publishes the state record in one durable step, or fails and changes nothing |
| `PackageStore.Store.RemoveTree` | crates/remagic-package/src/filesystem.rs:113-123 | in-place removal passes through the torn states and stops where the disk fails |
| `PackageStore.Store.RemoveStaleReleases` | crates/remagic-package/src/manager.rs:289-310 | the pruning loop carries out exactly the specified steps up to a disk error |
| `PackageStore.Store.RestoreRecords` | crates/remagic-package/src/manager/transaction.rs:46-77 | link, manifest and state record are put back in that order |
| `PackageStore.Store.RecoverJournal` | crates/remagic-package/src/manager/transaction.rs:46-77 | in-place recovery carries out exactly the specified steps |
| `PackageStore.Store.Register` | crates/remagic-package/src/manager/install.rs:197-218 | manifest, link and state record are written in that order up to a disk error |
| `PackageStore.Store.CommitAndPrune` | crates/remagic-package/src/manager/install.rs:138-141 | removes the journal and then prunes, up to a disk error |
| `PackageStore.Store.Transaction` | crates/remagic-package/src/manager/install.rs:150-183 | the journal first, then publication or recovery |
| `PackageStore.Store.Publish` | crates/remagic-package/src/manager/install.rs:185-232 | in-place publication follows the specified steps |
| `PackageStore.Store.PublishOrRecover` | crates/remagic-package/src/manager/install.rs:103-148 | an error during publication hands over to recovery at once |
| `PackageStore.Store.Decide` | crates/remagic-package/src/manager/install.rs:63-101 | which of the install paths is taken, its outcome and its trail |
| `PackageStore.Store.Install` | crates/remagic-package/src/manager/install.rs:21-35 | the whole install in place has the outcome, end and trail of the specification |
| `PackageStore.Store.ReleaseForVersion` | crates/remagic-package/src/manager.rs:264-287 | finds exactly the listed releases that answer to a version, and succeeds when there is one |
| `PackageStore.Store.Switch` | crates/remagic-package/src/manager.rs:98-155 | the choice of the target and its registration in place |
| `PackageStore.Store.Rollback` | crates/remagic-package/src/manager.rs:90-162 | the whole rollback in place has the outcome, end and trail of the specification |
| `SupervisorModel.DoKeepsInvariant` | crates/remagic-core/src/state/lifecycle.rs:5-230 | every accepted operation keeps the declarative invariant and adds exactly one revision |
| `SupervisorModel.AcceptedExactly` | crates/remagic-core/src/state/lifecycle.rs:5-230 | on every valid state an operation is accepted if and only if its guard holds, and takes its application to the one phase it stands for |
| `SupervisorModel.DoIsLocal` | crates/remagic-core/src/state/lifecycle.rs:5-230 | an operation on one application leaves every other application's record alone |
| `SupervisorModel.FencesAdvance` | crates/remagic-core/src/state/lifecycle.rs:15-94 | no operation moves (generation, epoch) back; a start or grant moves it strictly forward; a lease appears only with a grant |
| `SupervisorModel.RunsKeepInvariant` | crates/remagic-core/src/state/model.rs:177-219 | the invariant holds after every run, and the revision never decreases |
| `SupervisorModel.RunsStayTidy` | crates/remagic-core/src/state/lifecycle.rs:51-230 | in every run the foreground application is the last application, ended instances have no process, and unresponsive ones say why |
| `SupervisorModel.ParkAndReturn` | crates/remagic-core/src/state/lifecycle.rs:51-144 | parking a foreground application and granting it again restores its record except for a newer epoch and lease |
| `SupervisorModel.RecordStays` | crates/remagic-core/src/state/lifecycle.rs:5-230 | an application's record is changed by operations on it and by leaving the managed domain, which takes its lease and stops it if it is shown |
| `SupervisorModel.StartRecords` | crates/remagic-core/src/state/lifecycle.rs:33-47 | a started application has a new record with the given process and generation, whatever there was before |
| `SupervisorModel.RecordChanges` | crates/remagic-core/src/state/lifecycle.rs:51-230 | field by field what each other operation leaves: epoch and lease, phase, process, titles and error |
| `SupervisorModel.StateExactly` | crates/remagic-core/src/state/transitions.rs:55-103 | what each operation leaves of the domain, the sleep, the foreground, the last application and the set of applications |
| `SupervisorModel.RunsRecord` | crates/remagic-core/src/state/lifecycle.rs:5-230 | over every run an application's process, titles and error are what it was last told |
| `SupervisorModel.RefusalNamesCause` | crates/remagic-core/src/state/lifecycle.rs:5-230 | what a refusal names is so |
| `SupervisorModel.DomainsExactly` | crates/remagic-core/src/state/transitions.rs:55-78 | into which domain one can go from where |
| `SupervisorStore.Supervisor.ValidateApps` | crates/remagic-core/src/state/model.rs:181-201 | the walk over the applications finds a fault only where there is one, and never a lease held twice |
| `SupervisorStore.Supervisor.Validate` | crates/remagic-core/src/state/model.rs:177-219 | validation succeeds if and only if the declarative invariant holds, and any error it returns names a real fault |
| `SupervisorStore.Supervisor.ValidateInstance` | crates/remagic-core/src/state/model.rs:130-145 | an instance passes exactly when its generation and lease are proper and it holds a lease if and only if it is on screen |
| `SupervisorStore.Supervisor.constructor` | crates/remagic-core/src/state/model.rs:163-175 | a new supervisor is in the initial state |
| `SupervisorStore.Supervisor.Put` | crates/remagic-core/src/state/model.rs:242-248 | stores one instance and counts one revision |
| `SupervisorStore.Supervisor.StartApp` | crates/remagic-core/src/state/lifecycle.rs:5-49 | the operation in place: the specified state and token, or an error and no change |
| `SupervisorStore.Supervisor.GrantForeground` | crates/remagic-core/src/state/lifecycle.rs:51-94 | the operation in place: the specified state and token, or an error and no change |
| `SupervisorStore.Supervisor.MarkBackgroundReady` | crates/remagic-core/src/state/lifecycle.rs:96-118 | the operation in place: the specified state and token, or an error and no change |
| `SupervisorStore.Supervisor.EnterBackground` | crates/remagic-core/src/state/lifecycle.rs:120-144 | the operation in place: the specified state and token, or an error and no change |
| `SupervisorStore.Supervisor.BeginStop` | crates/remagic-core/src/state/lifecycle.rs:146-168 | the operation in place: the specified state and token, or an error and no change |
| `SupervisorStore.Supervisor.FinishApp` | crates/remagic-core/src/state/lifecycle.rs:170-204 | the operation in place: the specified state and token, or an error and no change |
| `SupervisorStore.Supervisor.MarkUnresponsive` | crates/remagic-core/src/state/lifecycle.rs:206-230 | the operation in place: the specified state and token, or an error and no change |
| `SupervisorStore.Supervisor.ReleaseAll` | crates/remagic-core/src/state/transitions.rs:79-88 | the loop drops every lease and stops the foreground application, and touches nothing else |
| `SupervisorStore.Supervisor.TransitionDomain` | crates/remagic-core/src/state/transitions.rs:55-91 | the domain change in place, with its loop over the applications, or an error and no change |
| `SupervisorStore.Supervisor.SetSleeping` | crates/remagic-core/src/state/transitions.rs:93-103 | sleep and wake in place, or an error and no change |
| `Fence.LifecycleClient.AcceptToken` | crates/remagic-app-sdk/src/lifecycle.rs:120-140 | accepts exactly the tokens the fence admits and changes nothing on a refusal |
| `Fence.LifecycleClient.Poll` | crates/remagic-app-sdk/src/lifecycle.rs:40-73 | reads to the end or to the first refused packet; a refusal loses the commands read before it but keeps their tokens |
| `Fence.RunsFollow` | crates/remagic-app-sdk/src/lifecycle.rs:130-138 | along every run a client never changes generation and its epoch never regresses |
| `Fence.EndToEnd` | crates/remagic-core/src/state/lifecycle.rs:15-94 | under any loss, repetition and reordering the client holds an issued token no newer than the supervisor's, and any lease in it is the only one ever granted at its fence |
| `Fence.AcceptsExactly` | crates/remagic-app-sdk/src/lifecycle.rs:120-140 | which tokens a client takes, and why it refuses the others |
| `Fence.CatchesUp` | crates/remagic-app-sdk/src/lifecycle.rs:120-140 | after any run, hearing the supervisor's last token makes a client hold exactly that if and only if it still is the same process; a client without one takes exactly tokens of a start that were on screen |
| `Fence.GrantArrives` | crates/remagic-app-sdk/src/lifecycle.rs:130-138 | a grant that reaches its application brings it to the screen: it is held with its epoch and lease |
| `Fence.LeaseRegainedExactly` | crates/remagic-app-sdk/src/lifecycle.rs:130-138 | a client takes back a lease it gave up exactly when a token of its own fence that holds one arrives, and then that token is older than any copy of its own |
| `Fence.LeaseIsRegained` | crates/remagic-app-sdk/src/lifecycle.rs:136-138 | a concrete run in which a parked application holds its old lease again |
| `Compatibility.ManagerState.Apply` | crates/remagic-core/src/state/transitions.rs:3-51 | an accepted transition moves to the specified state and counts with wrap-around, a refused one changes nothing |
| `Compatibility.RunsRemember` | crates/remagic-core/src/state/transitions.rs:44-47 | in every run the application on screen or parking is the last application |
| `Compatibility.PowerKeyReturns` | crates/remagic-core/src/state/transitions.rs:10-22 | however the machine got there, parking with the power key and pressing it again launches the same application |
| `Compatibility.ReachedExactly` | crates/remagic-core/src/state/transitions.rs:7-37 | each domain of the older machine with all the ways into it |
| `Compatibility.AppliedExactly` | crates/remagic-core/src/state/transitions.rs:39-50 | an accepted transition moves, counts and remembers; a refused one changes nothing |
| `Compatibility.Upgrade` | crates/remagic-core/src/state/compatibility.rs:6-52 | the step-by-step conversion gives the specified fenced state |
| `Compatibility.UpgradeIsSound` | crates/remagic-core/src/state/compatibility.rs:6-52 | every converted state satisfies the supervisor invariant |
| `Compatibility.ConversionCommutes` | crates/remagic-core/src/state/compatibility.rs:6-52 | converting and then doing what a transition does, or making the transition and then converting, comes to the same state |
| `Compatibility.DomainsFollow` | crates/remagic-core/src/state/compatibility.rs:6-52 | the domains of the two machines move together under every transition |
| `Compatibility.Downgrade` | crates/remagic-core/src/state/compatibility.rs:54-95 | the conversion back, with its search over the applications, gives an admissible older state |
| `Compatibility.RoundTrip` | crates/remagic-core/src/state/compatibility.rs:6-95 | converting up and back is the identity on every older state, whatever order the search takes |
| `Compatibility.DowngradeShowsForeground` | crates/remagic-core/src/state/compatibility.rs:62-87 | the older state shows an application if and only if it is the fenced state's foreground |
| `Compatibility.FrozenExactlyAtTheEnd` | crates/remagic-core/src/state/compatibility.rs:8-12 | a converted state refuses every operation if and only if its sequence number is the last one, where the older machine wraps and goes on |
| `AgentSlot.AgentState.Observe` | crates/remagic-agentd/src/state.rs:144-156 | what a starting request sees: free, preemptible by it, or busy |
| `AgentSlot.AgentState.Signal` | crates/remagic-agentd/src/state.rs:157-157 | signals one channel and no other |
| `AgentSlot.AgentState.TryStart` | crates/remagic-agentd/src/state.rs:93-135 | one critical section of a start: retry, busy, failed spawn, or a new turn on a worker that fits the request |
| `AgentSlot.AgentState.Finish` | crates/remagic-agentd/src/state.rs:176-183 | clears the slot exactly when it holds a turn of that id |
| `AgentSlot.AgentState.Cancel` | crates/remagic-agentd/src/state.rs:185-192 | signals exactly the active turn of that id |
| `AgentSlot.AgentState.ReloadProfile` | crates/remagic-agentd/src/state.rs:194-218 | refused during a turn; keeps the worker for the same profile and drops it otherwise |
| `AgentSlot.AgentState.Authorize` | crates/remagic-agentd/src/state.rs:241-267 | admits exactly the known token at the known generation or a newer generation without an active turn, and records it |
| `AgentTurns.RunsAreSound` | crates/remagic-agentd/src/state.rs:79-192 | in every interleaving the slot's turn is the one running turn, on the worker and with the profile it asked for, and preemption aims only at non-interactive turns |
| `AgentTurns.OneUnfinishedTurn` | crates/remagic-agentd/src/requests.rs:163-201 | in every interleaving and for any request ids exactly one turn is started and unfinished while the slot is active, and none otherwise |
| `AgentTurns.OnlyItsDriverEndsATurn` | crates/remagic-agentd/src/state.rs:176-183 | an active turn leaves the slot if and only if its own driver finishes it, which always frees the slot |
| `AgentTurns.PreemptionSparesInteractive` | crates/remagic-agentd/src/state.rs:139-174 | over every run without explicit cancellation no interactive turn is ever signalled |
| `AgentTurns.DisconnectSparesOthers` | crates/remagic-agentd/src/requests.rs:297-305 | while no id is used on two connections, closing a connection signals only its own turn, in every run |
| `AgentTurns.DisconnectSparesOthersExactly` | crates/remagic-agentd/src/requests.rs:163-305 | closing a connection signals only its own turn in every run over a set of requests if and only if no id among them is used on two connections |
| `AgentTurns.DisconnectHitsReusedId` | crates/remagic-agentd/src/requests.rs:297-305 | with a reused id a closing connection signals another connection's turn |
| `AgentTurns.TakenWhileFree` | crates/remagic-agentd/src/requests.rs:198-211 | the situation that needs is reached by an ordinary run |
| `AgentOutcome.SeeksExactly` | crates/remagic-agentd/src/state.rs:139-156 | an interactive request over a turn that is not goes after it, over a free slot a request claims, over any other turn it is given up |
| `AgentOutcome.PreemptsExactly` | crates/remagic-agentd/src/state.rs:157-174 | exactly the turn gone after is signalled, and the request waits until the slot is free or its time is over |
| `AgentOutcome.ClaimsExactly` | crates/remagic-agentd/src/state.rs:101-135 | a claim of a free slot succeeds if and only if a worker fits or can be started, and gives a turn of the request's with a channel nobody has signalled |
| `AgentOutcome.LateClaim` | crates/remagic-agentd/src/state.rs:94-100 | a claim of a taken slot starts over against a turn that makes way, and is given up otherwise |
| `AgentOutcome.GivenUpExactly` | crates/remagic-agentd/src/state.rs:79-174 | over every run a request is given up exactly over a turn that does not make way, at the end of its wait, or without a worker; an interactive one only over an interactive turn, an expired wait or a worker that could not be started |
| `AgentOutcome.PreemptionSucceeds` | crates/remagic-agentd/src/state.rs:139-174 | an interactive request does get the slot of a background turn |
| `AgentOutcome.DrivesExactly` | crates/remagic-agentd/src/requests.rs:163-211 | a started turn is noted, driven, finished and cleared, and only its own note is cleared |
| `AgentOutcome.CancelsExactly` | crates/remagic-agentd/src/state.rs:185-192 | a cancellation signals the turn in the slot if it has that id, and nothing else |
| `AgentOutcome.ClosesExactly` | crates/remagic-agentd/src/requests.rs:297-305 | a closing connection takes its noted turn once and cancels exactly that |
| `AgentOutcome.ReloadsExactly` | crates/remagic-agentd/src/state.rs:194-218 | a reload is refused during a turn, keeps a worker of the same profile, and otherwise leaves none |
| `AgentOutcome.AdmitsExactly` | crates/remagic-agentd/src/state.rs:241-267 | who is admitted with which token, and by what token it is known then |
| `AgentTurns.TokensAreBound` | crates/remagic-agentd/src/state.rs:241-267 | in every interleaving a principal's generation has one token, never goes back, and does not move while that principal has the turn |
| `PowerPolicy.PowerManager.PruneExpired` | crates/remagicd/src/power_manager.rs:421-432 | the loop keeps exactly the leases that end later than now and idles an emptied background workload |
| `PowerPolicy.PowerManager.NextPolicyDeadline` | crates/remagicd/src/power_manager.rs:124-152 | gives the least time by which the idle interval is over and every live lease has ended, exactly when a sleep may become due |
| `PowerPolicy.PowerManager.ReserveAutoSleep` | crates/remagicd/src/power_manager.rs:154-176 | reserves exactly when awake, unblocked, idle long enough, without live leases and at the wanted revision |
| `PowerPolicy.PowerManager.StartWork` | crates/remagicd/src/power_manager.rs:301-337 | a new lease ends after now and within its class maximum, and an imminent sleep is called off |
| `PowerPolicy.PowerManager.EndWork` | crates/remagicd/src/power_manager.rs:339-359 | only the owner removes a lease; a visible end counts as activity when it was the last |
| `PowerPolicy.PowerManager.Activity` | crates/remagicd/src/power_manager.rs:207-224 | activity counts and wakes the manager in the managed domain only |
| `PowerPolicy.PowerManager.Cancel` | crates/remagicd/src/power_manager.rs:232-243 | a called-off sleep restarts the idle interval |
| `PowerPolicy.PowerManager.SetIdleSuspend` | crates/remagicd/src/power_manager.rs:361-376 | accepts exactly zero and one to thirty minutes |
| `PowerPolicy.PowerManager.TakeManaged` | crates/remagicd/src/power_manager.rs:178-191 | entering the managed domain drops all leases and restarts the idle interval |
| `PowerPolicy.PowerManager.ReturnToStock` | crates/remagicd/src/power_manager.rs:193-205 | leaving it drops all leases |
| `PowerPolicy.PowerManager.MarkPhase` | crates/remagicd/src/power_manager.rs:245-295 | the steps of an explicit suspend change the phase and never count as activity |
| `PowerPolicy.PowerManager.MarkResumed` | crates/remagicd/src/power_manager.rs:272-284 | a resume counts as activity |
| `PowerPolicy.PowerManager.AutoSleepIsCurrent` | crates/remagicd/src/power_manager.rs:226-230 | true exactly for the current revision while quiescing in the managed domain |
| `PowerPolicy.RunsAreBounded` | crates/remagicd/src/power_manager.rs:301-337 | in every time-monotone run every lease ends within its class maximum of now |
| `PowerPolicy.DeadlineIsNear` | crates/remagicd/src/power_manager.rs:124-152 | in every run the deadline is at most thirty minutes away, fifteen once the idle interval is over |
| `PowerPolicy.ReservedExactlyWhenDue` | crates/remagicd/src/power_manager.rs:124-176 | with only queries in between, a reservation at time t succeeds if and only if t has reached the deadline given before |
| `PowerPolicy.StaysInForce` | crates/remagicd/src/power_manager.rs:339-352 | before it expires a lease is ended by its owner or a change of the managed domain only |
| `PowerPolicy.WorkKeepsAwake` | crates/remagicd/src/power_manager.rs:154-176 | over every run, until work ends or expires no automatic sleep is reserved |
| `PowerPolicy.RevisionCounts` | crates/remagicd/src/power_manager.rs:178-376 | the revision of any run is the number of its steps that are activity, new or visibly finished work, or a change of ownership |
| `PowerPolicy.CurrentMeansUndisturbed` | crates/remagicd/src/power_manager.rs:226-230 | a reservation is current if and only if the manager is quiescing and no such step happened since |
| `PowerPolicy.StaleButQuiescingExactly` | crates/remagicd/src/power_manager.rs:339-376 | a step makes a reservation stale without waking the manager exactly when it finishes work visibly or sets the idle time |
| `PowerPolicy.QuiescingIsNeverDue` | crates/remagicd/src/power_manager.rs:142-144 | from there no deadline is ever due until a step of another kind |
| `PowerPolicy.LastIsRestart` | crates/remagicd/src/power_manager.rs:178-376 | over every run the idle interval counts from the last activity, resume, called-off sleep, new setting, take-over or visible end of the last work |
| `PowerPolicy.ReservedAfterIdleExactly` | crates/remagicd/src/power_manager.rs:154-176 | over every run a sleep can be reserved if and only if nothing stands against it and the whole idle interval has passed since then |
| `PowerPolicy.NoSleepWithinIdle` | crates/remagicd/src/power_manager.rs:154-220 | after such a step no sleep is reserved for a whole idle interval, whatever else happens but a change of the setting |
| `PowerPolicy.DueExactly` | crates/remagicd/src/power_manager.rs:124-152 | a deadline is given exactly when a reservation at the present revision would succeed at some time |
| `PowerPolicy.PhaseChangesExactly` | crates/remagicd/src/power_manager.rs:178-376 | which steps lead into each phase, and what moves ownership and the setting |
| `PowerPolicy.WorkloadExactly` | crates/remagicd/src/power_manager.rs:178-376 | what the manager shows it is busy with after each step |
| `PowerPolicy.LeaseLastsAsAsked` | crates/remagicd/src/power_manager.rs:301-337 | a lease lasts as long as it was asked for within its class's bounds, under a new number |
| `PowerPolicy.LeasesGoExactly` | crates/remagicd/src/power_manager.rs:339-352 | a lease goes by its owner's end, a change of ownership, or being over when somebody looks |
| `PowerPolicy.RunsAreHonest` | crates/remagicd/src/power_manager.rs:301-359 | in every run lease numbers are new and background work is shown only while it has a lease |
| `PowerKey.ClickTracker.NextDeadline` | crates/remagic-core/src/power.rs:23-30 | polling reports an action at a time if and only if the time has reached this deadline |
| `PowerKey.ClickTracker.Press` | crates/remagic-core/src/power.rs:32-34 | keeps the time of the first press of a hold |
| `PowerKey.ClickTracker.Clear` | crates/remagic-core/src/power.rs:87-92 | forgets everything |
| `PowerKey.ClickTracker.Release` | crates/remagic-core/src/power.rs:36-63 | the release in place with all its branches |
| `PowerKey.ClickTracker.Poll` | crates/remagic-core/src/power.rs:65-85 | the poll in place with all its branches |
| `PowerKey.After` | crates/remagic-core/src/power.rs:22-92 | after every run at most two clicks are counted, and a click is pending exactly when a deadline is set |
| `PowerKey.TripleMeansThreeClicks` | crates/remagic-core/src/power.rs:52-58 | a triple action means three clicks, each held under three seconds from the first press of its hold, with consecutive releases at most 800 ms apart |
| `PowerKey.LongMeansHeld` | crates/remagic-core/src/power.rs:48-51 | a long action means a hold still going on whose first press is at least three seconds old |
| `PowerKey.OneLongPerPress` | crates/remagic-core/src/power.rs:65-77 | between two long actions there is another press |
| `PowerKey.ClickCounts` | crates/remagic-core/src/power.rs:52-63 | a click in time adds to those before it, and the third is a triple action |
| `PowerKey.ThreeClicksAreTriple` | crates/remagic-core/src/power.rs:52-63 | three clicks held under 3000 ms and released at most 800 ms apart, without a poll between them, are a triple action |
| `PowerKey.ClicksAreSingle` | crates/remagic-core/src/power.rs:78-85 | one or two clicks are a single action at a poll, from 800 ms after the last release on |
| `PowerKey.HoldIsLong` | crates/remagic-core/src/power.rs:48-77 | a hold is a long action at a poll or a release from 3000 ms on, and never before |
| `PowerKey.HoldIsReportedOnce` | crates/remagic-core/src/power.rs:36-41 | a hold reported at a poll is not reported again at its release |
| `PowerKey.RepeatIsSuppressed` | crates/remagic-core/src/power.rs:36-41 | nor does a repeated press before that release count |
| `PowerKey.NoPressCountsTwice` | crates/remagic-core/src/power.rs:22-92 | whatever the order and timing, the presses reported, counted and held never exceed the presses made |
| `PowerKey.PressesAreConserved` | crates/remagic-core/src/power.rs:22-92 | in every run each press is reported, pending or thrown away by one of the steps |
| `PowerKey.DropsExactly` | crates/remagic-core/src/power.rs:32-92 | a step throws presses away if and only if it is of one of the listed kinds |
| `PowerKey.ConservedExactly` | crates/remagic-core/src/power.rs:22-92 | reported and pending presses account for all presses made if and only if no step of the run is of those kinds |
| `PowerKey.ClicksAreLost` | crates/remagic-core/src/power.rs:52-54 | a run with such a step: a click not polled in time is dropped |
| `Scaling.RoundTrip` | native/remagic-display-host/src/geometry.rs:139-142 | scaling a value up to a finer scale and back is the identity |
| `Scaling.RoundTripExactly` | native/remagic-display-host/src/geometry.rs:139-142 | every value up to the source survives the round trip if and only if the target is at least the source |
| `Scaling.InRange` | native/remagic-display-host/src/geometry.rs:139-150 | in range no scale wraps, floor, rounding and ceiling are in order, and all stay within the target |
| `Scaling.Monotone` | native/remagic-display-host/src/geometry.rs:139-146 | scaling never reverses an order |
| `Scaling.BacklightExactly` | crates/remagicd/src/backlight.rs:323-341 | every percentage survives the trip to the panel's level and back if and only if the panel has at least a hundred levels |
| `Scaling.BacklightInRange` | crates/remagicd/src/backlight.rs:323-331 | no percentage but zero turns the panel off, a hundred is its highest level, and more percent is never darker |
| `Scaling.PercentInRange` | crates/remagicd/src/backlight.rs:333-341 | the percentage read back is at most a hundred, is that at the highest level, and grows with the level |
| `Scaling.AxisIsMonotone` | native/remagic-display-host/src/input.rs:114-122 | on a range whose length fits in 32 bits readings map into the screen in order, and the ends of the range hit its first and last pixel |
| `Scaling.AxisStaysExactly` | native/remagic-display-host/src/input.rs:114-122 | every reading stays on the screen if and only if the length of the range fits in 32 bits |
| `Scaling.AxisReachesEveryPixel` | native/remagic-display-host/src/input.rs:114-122 | a sensor at least as fine as the screen reaches every pixel |
| `DisplayGeometry.ClipIntersects` | native/remagic-display-host/src/geometry.rs:33-39 | clipping is exactly intersection with the canvas, for every rectangle |
| `DisplayGeometry.UnionBoundsExactly` | native/remagic-display-host/src/geometry.rs:41-53 | for any two rectangles that are not empty the union is the bounding box if and only if the box's width and height fit in 32 bits; otherwise it is empty |
| `DisplayGeometry.PointsReturnExactly` | native/remagic-display-host/src/geometry.rs:106-122 | every logical point survives the trip to the panel and back if and only if the panel is at least as large as the canvas in both directions |
| `DisplayGeometry.SpanIsTight` | native/remagic-display-host/src/geometry.rs:144-150 | a mapped span is the smallest that holds the image of the logical one |
| `DisplayGeometry.MappedIsSpans` | native/remagic-display-host/src/geometry.rs:126-136 | the mapped rectangle stays on the panel and is the product of the two spans |
| `DisplayGeometry.MappedHoldsPoints` | native/remagic-display-host/src/geometry.rs:126-136 | on a panel that fits, the mapped point of every damaged logical pixel is in the mapped rectangle |
| `DisplayGeometry.SpanHoldsSamplesExactly` | native/remagic-display-host/src/panel/render.rs:67-78 | redrawing a span updates every pixel that samples it if and only if the pixel before it does not spill |
| `DisplayGeometry.RedrawnExactly` | native/remagic-display-host/src/geometry.rs:124-136 | redrawing the mapped rectangle updates every panel pixel that shows the damage if and only if neither leading edge spills |
| `DisplayGeometry.NoSpill` | native/remagic-display-host/src/geometry.rs:124-136 | a panel less than twice as fine as the canvas never spills |
| `DisplayGeometry.SpillExample` | native/remagic-display-host/src/geometry.rs:124-136 | a panel twice as fine leaves a damaged pixel stale |
| `Damage.PanelTelemetry.DeferDamage` | native/remagic-display-host/src/panel.rs:144-153 | merges into the lease's entry or creates it, and touches no other lease |
| `Damage.PanelTelemetry.TakeDeferredDamage` | native/remagic-display-host/src/panel.rs:155-157 | hands out the lease's entry once |
| `Damage.PanelTelemetry.DiscardDeferredDamage` | native/remagic-display-host/src/panel.rs:159-161 | drops the entry of one lease and no other |
| `Damage.PanelTelemetry.DiscardDeferredDamageForKey` | native/remagic-display-host/src/panel.rs:163-168 | drops exactly the entries of that key |
| `Damage.EntryIsGathered` | native/remagic-display-host/src/panel.rs:144-168 | after any history a lease's entry is the merge of exactly what it was handed since it was last taken or discarded |
| `Damage.GatheredIsLeastBox` | native/remagic-display-host/src/panel.rs:144-153 | merged damage whose bounding box fits in 32 bits is that least box of what is not empty, on the canvas or off it |
| `Damage.GatheredIsBoxOfRest` | native/remagic-display-host/src/panel.rs:144-153 | whatever the damages, the merge is the least bounding box of those since the last that did not fit, or empty |
| `Damage.HeldExactly` | native/remagic-display-host/src/panel.rs:144-153 | the merge holds every pixel of a damage if and only if the damage came since then or is in the bounding box of those that did |
| `Damage.HistoryIsHeldExactly` | native/remagic-display-host/src/panel.rs:144-168 | after any history the entry of a lease holds every pixel it was handed since it was last taken or discarded if and only if that is so of each damage |
| `Damage.SpannedIsKept` | native/remagic-display-host/src/panel.rs:144-153 | damages whose bounding box fits are all of that kind |
| `Damage.GatheredIsStrongest` | native/remagic-display-host/src/panel.rs:230-245 | the merged intent is the strongest handed in |
| `Damage.IntentsInOrder` | native/remagic-display-host/src/panel.rs:230-245 | from the weakest to the strongest: ink, monochrome, interface, content, full |
| `Damage.OrderIsIrrelevant` | native/remagic-display-host/src/panel.rs:144-153 | for damages whose bounding box fits, order and repetition make no difference to what is redrawn, nor to the rectangle unless an edge is at the last coordinate |
| `Damage.NothingIsLost` | native/remagic-display-host/src/geometry.rs:126-136 | end to end: after any history, redrawing the mapped entry updates every panel pixel that shows anything of a damage the entry holds, on the canvas or off it |
| `RpcLines.Reader.Gather` | crates/remagic-agentd/src/backend/wire.rs:12-35 | the loop over buffers collects exactly the first line, or stops exactly when it is over the limit |
| `RpcLines.Reader.NextRpcLine` | crates/remagic-agentd/src/backend/wire.rs:8-42 | one call gives the first line of the unread stream, however the stream is cut into chunks |
| `RpcLines.Reader.ReadAll` | crates/remagic-agentd/src/backend/wire.rs:8-42 | repeated calls give the same result on every chunking, and end |
| `RpcLines.ReadsThePieces` | crates/remagic-agentd/src/backend/wire.rs:8-42 | the lines read are the pieces of the stream without one trailing carriage return, up to exactly the first piece over the limit or not text |
| `RpcLines.JudgedExactly` | crates/remagic-agentd/src/backend/wire.rs:12-42 | a line over a mebibyte is too long, one carriage return at its end is dropped, and what is left has to be text |
| `RpcLines.OneSplit` | crates/remagic-agentd/src/backend/wire.rs:21-35 | a stream has at most one division into newline-free pieces |
| `RpcLines.SplitExists` | crates/remagic-agentd/src/backend/wire.rs:14-35 | every stream has such a division, an unterminated last piece included |
| `RpcLines.DroppedCallTearsTheLine` | crates/remagic-agentd/src/backend.rs:181-187 | when a call is dropped after consuming part of a line the next one gives the rest of it, or the end of the stream; that is the whole line if and only if nothing was consumed, or only a carriage return before the newline |
| `BundleInventory.ValidateEntries` | crates/remagic-package/src/bundle.rs:195-209 | the loop stops at exactly the first entry that is malformed or repeats a path |
| `BundleInventory.ValidateBundle` | crates/remagic-package/src/bundle.rs:177-214 | accepts exactly the acceptable bundles |
| `BundleInventory.AcceptableMeans` | crates/remagic-package/src/bundle.rs:177-214 | what acceptance promises whoever unpacks: no path rises above its directory or repeats, the manifest is listed and the inventory itself is not, nobody but the owner can write, and names and hashes are what they should be |
| `BundleInventory.SegmentsJoin` | crates/remagic-package/src/filesystem.rs:9-15 | the parts of a path have no slash, and joined by slashes they are the path |
| `BundleInventory.ModeExactly` | crates/remagic-package/src/bundle.rs:385-390 | the accepted modes, digit by digit, and their values |
| `BundleInventory.WhitespaceExactly` | crates/remagic-package/src/bundle.rs:187-187 | which characters a blank version consists of |
| `ContentStream.BuildStreams` | crates/remagic-package/src/bundle.rs:231-263 | the loop builds exactly the canonical content and payload streams |
| `ContentStream.ContentSpells` | crates/remagic-package/src/bundle.rs:231-263 | both streams character by character |
| `ContentStream.BelowExactly` | crates/remagic-package/src/bundle.rs:240-241 | paths are in lexicographic order |
| `ContentStream.DigitsRead` | crates/remagic-package/src/bundle.rs:255-258 | a numeral stands for its number and has no leading zero |
| `ContentStream.SortedInOrder` | crates/remagic-package/src/bundle.rs:240-241 | sorting an inventory with distinct paths orders it strictly |
| `ContentStream.OneOrder` | crates/remagic-package/src/bundle.rs:240-241 | a set of files has one order |
| `ContentStream.SameFilesSameStreams` | crates/remagic-package/src/bundle.rs:240-263 | permuting the inventory, or spelling a mode differently, changes neither stream |
| `ContentStream.DigitsMatch` | crates/remagic-package/src/bundle.rs:255-258 | equal numerals are equal numbers, octal and decimal |
| `ContentStream.AllRecordsMatch` | crates/remagic-package/src/bundle.rs:255-259 | equal rows of records come from equal rows of files |
| `ContentStream.SameStreamExactly` | crates/remagic-package/src/bundle.rs:231-259 | two bundles on disk, their versions any strings, have the same content stream if and only if they agree on application and package, and on version and set of files or else one version takes in the first records of the other |
| `ContentStream.AcceptableIsListed` | crates/remagic-package/src/bundle.rs:177-225 | what validation accepts, with paths found on disk, is what these theorems ask for |
| `ContentStream.ReadsBothWays` | crates/remagic-package/src/bundle.rs:255-259 | the records of an inventory read the other way: a version's end, and the rest with a hash in front of the next path |
| `ContentStream.ReadsNoOtherWay` | crates/remagic-package/src/bundle.rs:255-259 | there is no other way to read them |
| `ContentStream.SameStreamMeansSamePackage` | crates/remagic-package/src/bundle.rs:231-320 | where versions come from the manifests the inventories name, equal streams mean equal application, package, version and set of files, and conversely |
| `ContentStream.SameStreamOfCleanVersions` | crates/remagic-package/src/bundle.rs:231-259 | and so where versions hold no NUL |
| `ContentStream.SamePayloadExactly` | crates/remagic-package/src/bundle.rs:260-266 | two bundles have the same payload stream if and only if they have the same files below the payload directory |

## Left out

- SchemaSafety.SuccessAfterAnyRun: assumes that a migrator which reports success has made the data whole and writes below its declared backup paths only, and that nobody else writes while a call runs; the source asks the same of its callers.
- SchemaRecovery.FenceHoldsExactly: the fence promise the source's comment makes for every state is false; what is proved is its exact condition.
- PackageRollback.RollbackIsSound: a rollback by version is sound only when the releases answering to that version are whole; the source does not check this.
- AgentTurns.DisconnectSparesOthers: holds while no id is used on two connections; the source does not prevent that.
- ContentStream.SameStreamExactly: paths hold no NUL because they were found on disk; the bundle itself is not checked for it.
- ContentStream.SameStreamMeansSamePackage: that a manifest is what its hash says is an assumption about the hash.
- DisplayGeometry.RedrawnExactly: needs the panel to be at least as large as the canvas, which the display host checks when it starts.
- Damage.OrderIsIrrelevant: for damage whose bounding box fits in 32 bits and that does not start at the last coordinate; beyond that the entry starts over, which `Damage.GatheredIsBoxOfRest` states, and the order matters.
- Scaling.AxisIsMonotone: needs the range's length to fit in 32 bits, because the source subtracts unchecked (the model wraps, as a release build does); `Scaling.AxisStaysExactly` shows that on every screen of more than two pixels it is needed.
- SchemaSafety.RunsAreSound: applications write whole data, and over an unresolved journal only under a raised fence and in a way that recovery leaves whole; `SchemaSafety.ConfinedWriteIsAdmissible` says which writes are always of that kind.
- SchemaRecovery.FailedUpgradeRollsBackExactly: for backup paths that do not overlap, which manifests are validated for (crates/remagic-core/src/manifest/validation.rs:285-294).
- PackageStore.Store.RecoverJournal: the disk accepts every step of a recovery; an error inside one stops it like a power failure at that step, which `PackageSafety.InstallIsAtomic` covers.
- SchemaStore.Store.Apply: a disk error inside a call stops it like a power failure at that step, which `SchemaSafety.RunsAreSound` covers; the error value it returns is not modelled.
- PowerPolicy.CurrentMeansUndisturbed: each method is one step, and the revision is unbounded; races between the awaits of one method and the wrap after 2^64 steps are not modelled.
- Compatibility.Downgrade: the order of the source's map decides which of several starting or stopping applications is named; the model allows any.
- SchemaStore.Store.RejectSymlinkAncestors: below a plain file the system may report an I/O error for the nearer ancestors first; the model has one outcome for both.
- Schema migration: sockets, devices and other objects that cannot be backed up, file locks, ownership and mode checks, hashes of snapshots, the temporary siblings of a restore, the phase marker files and the format and application fields of the records; a snapshot is named by its two versions.
- Package management: uninstall, staging and its clean-up, archive extraction, signature and device checks; whether a manifest can be used is one flag of the bundle.  The application directory, symbolic link and file mode rules are not modelled.
- Every atomic write, rename, link switch and removal is one durable step; what fsync does below it is not modelled.
- Supervisor: lease and epoch allocation, timers, and the processes themselves; titles and errors are plain strings.
- Fence: the framing, headers and JSON of a packet are one "garbage" case; the events an application sends back carry the token it holds and are not modelled further.
- Agent daemon: other applications (each has its own slot under the same lock), the three-second wait as a clock, the worker's own protocol, new sessions, and whether a cancellation still has a receiver.
- Power: presentation, wake-up reasons and blockers beyond one flag, wall-clock times in snapshots, and saving the settings.
- Display: pixels, formats, ink, lock screens and the submission history; `expand` of a rectangle.
- Line reader: errors of the stream itself; whether bytes are UTF-8 is a parameter.
- Content id: SHA-256, and the comparison of the declared sizes, modes and hashes with the files on disk; text is a sequence of characters rather than bytes.
- Sockets, systemd, sysfs, input devices, rendering, the home and store interfaces, command-line tools, JSON and TOML.
