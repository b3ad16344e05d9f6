# sabon, verified

sabon schedules restic backups of containers: for every (app, target) pair it takes a
repository lock and a concurrency slot, runs hooks, may stop the app and take ZFS
snapshots, starts a mover container that runs restic, and unwinds all of it, on success,
on errors, on deadlines and on shutdown. This project models that core in Dafny and
proves what it guarantees in every interleaving and on every failure path.
`dafny verify dfyconfig.toml` checks everything.

| files | part of sabon |
|---|---|
| `Lists.dfy` | options, and lists read as sets |
| `Orchestrator*.dfy`, `Locks.dfy` | any number of concurrent runs as one transition system: keyed lock, slot, cache mutex, cold-stop count, snapshots, mover, deferred releases; several lives of the process with crashes between them; the lock and cold-stop classes |
| `Repositories.dfy`, `OrchestratorRepositories.dfy` | which repository an app has in a target, and when the lock keys protect it |
| `Quiesce.dfy`, `Decimal.dfy` | the Swarm quiesce protocol with versioned updates, crashes and recovery; 64-bit decimal labels |
| `Paths.dfy`, `ZfsPaths.dfy`, `ZfsNames.dfy`, `ZfsPools.dfy`, `ZfsSnapshot.dfy` | cleaned paths, dataset lookup, snapshot names, the snapshot transaction and the startup reaping |
| `ZfsLives.dfy` | several lives of the process with the reaping of ZFS at each start |
| `SourceMounts.dfy`, `Preview.dfy` | the source mounts of the modes none, strict and auto, and validate's preview |
| `Scheduler.dfy`, `Reconcile.dfy`, `Collisions.dfy`, `Keys.dfy`, `Daemon.dfy` | from discovered jobs to the cron table, and the event loop |
| `Naming.dfy`, `MountTable.dfy` | unique mount names, target validation, the mover's mount table |
| `MoverHistory.dfy`, `MoverTrace.dfy`, `Specs.dfy` | trimming of run history, the mover's restic commands, retention policies |

External calls (Docker, Swarm, zfs, restic, hooks) are steps that succeed or fail
arbitrarily. Map iteration orders, `select` choices and unstable sorts are arbitrary
choices, so every statement holds for all of them.

Where the code does not have a property one would expect, the exact condition is proved,
together with an execution or an input that fails without it:

- A stopping restore calls the quiescer directly, so it can restart an app under a cold
  backup. This cannot happen exactly when no stopping restore shares a container with a
  cold backup under another repository key (`ColdSafetyExactly`, `CrossRestoreBreaks`).
- In every execution the successful stops and starts of an app alternate exactly when no
  start of it failed before its last call: a failed start is not retried, and the next cold
  backup stops the app once more (`ExecutionsAlternateExactly`, `FailedRestartRepeatsStop`).
- A mover is orphaned when its forced removal fails, an error that is ignored, or when the
  call that created its Swarm service failed after all. It loses a snapshot it reads exactly
  when it was orphaned before the cleanup (`CleanupHurtsOnlyOrphans`, `OrphanLosesSnapshot`).
- A crash on Docker leaves stopped exactly the apps that runs hold, over all executions whose
  stops and starts behave, exactly when no stopping restore has a rival under another key
  (`CalmExactly`); with misbehaving calls, exactly when no run stops the app
  (`AlwaysExactly`).
- A mover clears every restic lock because no other mover is thought to work on its
  repository. Movers under the control of a run work on different repositories exactly when
  whoever shares a repository shares its lock key (`KeysCoverExactly`), which can be read off
  the targets' settings (`MoversApartExactly`); a target without `{app}` breaks it
  (`FixedTargetIsShared`). A mover that is orphaned, or that was kept on shutdown, can run
  beside a second one of the same key (`OrphanBesideAnother`, `KeptBesideAnother`).
- The reaping compares snapshot names, and a run has one name for all its datasets. It
  destroys the snapshots of a run whose mover is running exactly when every source of the run
  lies on a dataset mounted inside another snapshot directory and no other mount in use
  happens to give the name (`ReapedExactly`, `NestedMountIsReaped`).
- One instance can destroy a snapshot that another takes for a valid app exactly when its
  name prefix starts the other's, or continues it without two dots in a row
  (`CanReapExactly`): "a" and "a-b" can destroy each other's (`PrefixedInstance`), of "a" and
  "a-.." only the first the second's (`DottedInstance`).
- The periodic Reap can remove a mover that a run is about to start. It never does exactly
  when the mover has an action and fewer than `keep` others of its group are at least as new
  (`SparedExactly`); movers of snapshot listings have no action (`InFlightSparedExactly`).
- A source called `..` shadows the mover's own mounts and one called `.` its siblings, and
  nothing else goes wrong (`ShadowsExactly`, `DotDotShadows`, `DotShadows`).
- Nothing escapes `|` in keys. They are unambiguous exactly when no target's name, bare or
  with `|check` or `|prune` behind it, ends with a bar and another such name, or equals one
  (`DistinguishesExactly`); otherwise a backup can take the key of a check
  (`BackupTakesCheckKey`).
- A per-target retention whose counts are not positive, one of them negative, replaces the
  target's own policy and turns `forget` off (`SilencedExactly`, `NegativeOverrideSilences`).

## Model

| member | source | states |
|---|---|---|
| `OrchestratorInvariant.StepKeepsInv` | internal/backup/run.go:15-121 | every step of every run, whatever its outcome, keeps the invariant: mutexes held once, slots and refs equal to their holders, snapshots accounted for, each defer stack a prefix of its run's full stack |
| `OrchestratorInvariant.InvAlways` | internal/backup/run.go:15-300 | the invariant holds after any execution of any interleaved runs of all five entry points |
| `OrchestratorRoute.FailureEndsAscent` | internal/backup/run.go:15-121 | in every execution, once a call of a run before its mover has failed (waiting for a slot, preparing, cache, pre-hooks, stopping the app, taking snapshots), the run only releases: it makes no other step, acquires nothing more, and its mover is never up |
| `OrchestratorRoute.MoverFollowsRoute` | internal/backup/run.go:15-121 | in every execution a run whose mover is up has made every step of its route, in order and successfully |
| `OrchestratorRoute.MoverNeedsEverything` | internal/backup/run.go:15-300 | that route spelled out: lock, preparation and cache for all five entry points, a slot for backups, checks and prunes, pre-hooks and snapshots for backups, the app stopped for cold backups and stopping restores |
| `OrchestratorRoute.FinishedWithMover` | internal/mover/runner.go:80-181 | in every execution a run that reached its mover and is done saw it end, kept it, tried to remove it or never got it, and a backup has run its post-hooks whatever became of the mover |
| `OrchestratorRoute.KeptExactly` | internal/mover/runner.go:144-151 | in every execution a mover is kept if and only if it was awaited by a hot backup when the process was told to stop; on a deadline or a lost wait it is not |
| `OrchestratorRoute.CacheIsMadeOnce` | internal/backup/mover.go:165-176 | in every execution a run can fail at the cache volume exactly until some run has got it |
| `OrchestratorRoute.EitherOutcome` | internal/backup/run.go:15-121 | every call that the code handles both ways can succeed and fail at any moment, so the executions cover every failure path |
| `OrchestratorRoute.StepMovesApp` | internal/backup/backup.go:146-166 | an app goes down by the first cold hold, a direct stop, or a failed stop that took effect, comes up by the last cold release or a direct start that works, and otherwise stays as it is |
| `OrchestratorRoute.StepMovesMover` | internal/mover/runner.go:80-181 | a mover whose start was reported as failed may be up all the same; one that survives its removal, or a creation that seemed to fail, is orphaned |
| `OrchestratorTheorems.MutualExclusion` | internal/backup/backup.go:95-113 | in every reachable state two runs between lock and unlock have different repository keys |
| `OrchestratorTheorems.MoversAreExclusive` | internal/backup/run.go:15-19 | two running movers belong to runs with different lock keys, unless one was kept on shutdown or is orphaned |
| `OrchestratorTheorems.SlotBound` | internal/backup/backup.go:64-82 | slot holders never exceed MaxParallel and are backups, checks and prunes only |
| `OrchestratorTheorems.SlotHolderNeverWaits` | internal/backup/run.go:18-27 | in every reachable state a run that holds a slot waits for neither a repository key nor a slot |
| `OrchestratorTheorems.SlotHolderMoves` | internal/backup/run.go:18-27 | it can step as soon as nobody is inside a leaf mutex |
| `OrchestratorTheorems.DeadlockFree` | internal/backup/run.go:15-121 | whenever some run has been launched and is not finished, some launched run can step without giving up its wait |
| `OrchestratorTheorems.ExecutionsAreFinite` | internal/backup/run.go:15-121 | an execution's length is bounded by the runs it starts from, so no execution goes on for ever |
| `OrchestratorTheorems.MaximalExecutionsAreClean` | internal/backup/run.go:15-121 | an execution that cannot go on has finished every run and returned every mutex, slot and cold hold; every snapshot left over was there before, belongs to a kept mover, or survived a failed destroy in a cleanup or in the rollback of a failed snapshot call |
| `OrchestratorRelease.ReleasesAreLifo` | internal/backup/run.go:18-90 | a finished run has released exactly what it acquired, each once, in opposite order: snapshots, app, slot, key |
| `OrchestratorRelease.RunningMoverHasItsSnapshots` | internal/backup/run.go:82-110 | a running mover that is not orphaned finds all its snapshots alive, on every path |
| `OrchestratorRelease.CleanupHurtsOnlyOrphans` | internal/mover/runner.go:112-121 | a cleanup takes a snapshot from a running mover if and only if that mover is orphaned |
| `OrchestratorRelease.ColdMoverKeepsItsHold` | internal/backup/run.go:56-73 | while the mover of a cold backup runs, its hold on the app has not been returned, and it is never kept |
| `OrchestratorRelease.FinishedRun` | internal/mover/runner.go:80-181 | after a run only a kept or orphaned mover still runs, only hot backups keep one, and a kept mover's snapshots outlive the run |
| `OrchestratorCold.RefsCountHolders` | internal/backup/backup.go:115-166 | refs is the number of runs between a successful hold and their release, and never negative |
| `OrchestratorCold.HeldContainersAreDown` | internal/backup/run.go:56-73 | without a crossing restore a held container is down in every state |
| `OrchestratorCold.StopsAndStartsAlternate` | internal/backup/backup.go:146-166 | successful stops and start attempts of a container strictly alternate over every execution |
| `OrchestratorCold.ExecutionsAlternateExactly` | internal/backup/backup.go:146-166 | in every execution successful stops and successful starts of a container alternate if and only if no start of it failed before its last call |
| `OrchestratorWitness.ColdSafetyExactly` | internal/backup/run.go:259-270 | held containers are always down if and only if no stopping restore crosses a cold backup under another key |
| `OrchestratorWitness.CrossRestoreBreaks` | internal/backup/run.go:259-270 | for every such crossing there is an execution that restarts the app under a backup |
| `OrchestratorWitness.FailedRestartRepeatsStop` | internal/backup/backup.go:159-166 | an execution with two successful stops in a row |
| `OrchestratorWitness.OrphanLosesSnapshot` | internal/mover/runner.go:112-121 | an execution in which a running mover loses its snapshot |
| `OrchestratorWitness.OrphanBesideAnother` | internal/mover/runner.go:112-121 | for every key an execution in which an orphaned mover runs beside a second run's mover |
| `OrchestratorStopped.StoppedExactlyWhileHeld` | internal/backup/run.go:56-73 | in every state of every execution an app that was up is down exactly while a run holds it, so a crash on Docker leaves exactly the held apps stopped; for executions without misbehaving stops and starts and without rival restores |
| `OrchestratorStranded.CalmExactly` | internal/backup/run.go:259-270 | that holds of every calm execution if and only if no stopping restore shares the container with another stopping run under another key |
| `OrchestratorStranded.AlwaysExactly` | internal/backup/run.go:56-73 | it holds of every execution, misbehaving calls included, if and only if no run stops the app |
| `OrchestratorLives.MoversKeepSnapshotsAcrossLives` | internal/backup/snapshots.go:13-39 | over any number of lives, each ended at any moment, a running mover of any life that is not orphaned has all its snapshots, if the reaping at each start spares what running movers mount |
| `OrchestratorLives.SurvivorMeetsAnother` | internal/mover/mover.go:196-200 | for every mover that outlived its process there is an execution of the next life with a second mover under its key |
| `OrchestratorLives.KeptBesideAnother` | internal/mover/runner.go:144-151 | a mover kept on shutdown, and in the next life another one under the same key |
| `OrchestratorRepositories.MoversApartExactly` | internal/mover/mover.go:196-200 | for names without bars and at most one `{app}` in each setting that holds if and only if every setting mentions the app and no two can meet |
| `OrchestratorRepositories.KeysCoverExactly` | internal/mover/mover.go:196-200 | for any target names and settings, controlled movers work on different repositories in every execution if and only if whoever shares a repository shares its lock key |
| `OrchestratorRepositories.FixedTargetIsShared` | api/targets.go:144-173 | a target whose location does not mention the app lets two movers meet in one repository |
| `Repositories.SubstituteTemplate` | internal/backup/mover.go:123-125 | replacing `{app}` keeps the text up to the first hole, fills it and goes on behind it |
| `Repositories.DirectoriesMeetExactly` | internal/backup/mover.go:103-106 | two directories share an app's repository if and only if they are the same directory or one is an app's directory in the other |
| `Repositories.TemplatesMeetExactly` | internal/backup/mover.go:123-125 | two templates yield the same location for some apps if and only if prefixes and suffixes fit in the stated way |
| `Repositories.AppsApartExactly` | internal/backup/mover.go:117-125 | within a target different apps have different repositories if and only if the setting mentions the app, however often |
| `Repositories.OneOwnerExactly` | internal/backup/mover.go:117-125 | every repository has one target and one app if and only if every setting mentions the app and no two can meet |
| `Locks.KeyedMutex.Entry` | internal/backup/backup.go:103-110 | a key always yields the same mutex, different keys never share one, and creating one locks nothing |
| `Locks.KeyedMutex.Lock` | internal/backup/backup.go:103-113 | gets through exactly when nobody holds the key and affects no other key |
| `Locks.KeyedMutex.Unlock` | internal/backup/backup.go:103-113 | frees exactly that key |
| `Locks.ColdStop.Hold` | internal/backup/backup.go:146-157 | only the first holder calls stop; a failed stop changes nothing |
| `Locks.ColdStop.Release` | internal/backup/backup.go:159-166 | only the last holder calls start |
| `Locks.ColdStops.Get` | internal/backup/backup.go:127-137 | runs of one container share one counter, which starts without holders |
| `Quiesce.StopKeepsMeaning` | internal/engine/swarm/quiesce.go:47-78 | Stop keeps the intended count, the operator's labels and everything else, and scales to zero |
| `Quiesce.RestoreKeepsMeaning` | internal/engine/swarm/quiesce.go:112-127 | restore drops both labels and scales to the intended count |
| `Quiesce.StopThenRestore` | internal/engine/swarm/quiesce.go:47-127 | a stop and a start give the service back, zero included |
| `Quiesce.MeaningAlwaysKept` | internal/engine/swarm/quiesce.go:47-135 | in every interleaving of stops, starts, recoveries, stale or failed updates, crashes and operator changes, each service means what its operator last said |
| `Quiesce.CrashThenRecover` | cmd/sabon/daemon.go:64 | a crash anywhere, then a successful recovery, leaves every service that the instance owns unlabelled at its intended count and no other one changed |
| `Quiesce.StopFields` | internal/engine/swarm/quiesce.go:47-78 | what Stop writes: no replicas, the old count (one if unset) as a label that parses to it, the instance as the other label, and nothing else; a service labelled already keeps its labels |
| `Quiesce.RestoreFields` | internal/engine/swarm/quiesce.go:112-127 | what restore writes: the recorded count, one if it cannot be read, and every label but the two |
| `Quiesce.MeaningFields` | internal/engine/swarm/quiesce.go:47-127 | the meaning of a service in terms of its mode and labels |
| `Quiesce.StopperOwns` | internal/engine/swarm/quiesce.go:62-110 | a service stopped by an instance is listed by the recovery of that instance and of no other named one |
| `Quiesce.StopCrashRecover` | internal/engine/swarm/quiesce.go:47-110 | in any execution, an accepted stop by an instance, a crash and a full recovery by the same instance bring the service back to the count its operator last set, without labels |
| `Quiesce.RecoveryIsScoped` | internal/engine/swarm/quiesce.go:92-110 | an instance does not touch services that another one quiesced |
| `Quiesce.Quiescer.Scale` | internal/engine/swarm/quiesce.go:129-135 | an update takes effect exactly against the current version |
| `Quiesce.Quiescer.Stop` | internal/engine/swarm/quiesce.go:47-78 | writes the stopped specification, or fails and changes nothing |
| `Quiesce.Quiescer.Restore` | internal/engine/swarm/quiesce.go:112-127 | writes the restored specification; a service without the label is left alone |
| `Quiesce.Quiescer.Start` | internal/engine/swarm/quiesce.go:80-90 | as restore, failing for a missing service |
| `Quiesce.Quiescer.RecoverQuiesced` | internal/engine/swarm/quiesce.go:92-110 | without a list nothing changes; else restores exactly the owned services whose update works, counts them, and leaves the others as they were |
| `Decimal.ParseFormat` | internal/engine/swarm/quiesce.go:62-120 | parsing a formatted count gives it back exactly when it fits 64 bits |
| `Decimal.Spelling` | internal/engine/swarm/quiesce.go:62-70 | the digits are the usual ones, the most significant first |
| `Paths.CleanIsIdempotent` | internal/snapshot/providers/zfs/zfs.go:237 | cleaning an absolute path is idempotent and keeps its segments |
| `Paths.SegmentsStep` | internal/snapshot/providers/zfs/zfs.go:237 | what one more element does to a cleaned path: nothing for an empty one or `.`, a segment more for a name, one less for `..`, which is lost at the root |
| `Paths.SegmentsStart` | internal/snapshot/providers/zfs/zfs.go:237 | the segments of one-element paths |
| `Paths.CleanSpelled` | internal/snapshot/providers/zfs/zfs.go:237 | a cleaned path is its segments with slashes between, behind a slash if it is absolute |
| `Paths.PrefixMeansBelow` | internal/snapshot/providers/zfs/zfs.go:248-249 | on clean absolute paths the string test with a slash behind the prefix is the proper ancestor relation, and trimming it leaves the segments below |
| `ZfsPaths.DatasetFor` | internal/snapshot/providers/zfs/zfs.go:236-262 | the one-pass search computes the specified lookup |
| `ZfsPaths.LookupFindsDeepest` | internal/snapshot/providers/zfs/zfs.go:236-262 | a dataset is found exactly when some mountpoint is the path or an ancestor, and it is the first deepest one, with the segments below it |
| `ZfsPaths.LookupRebuilds` | internal/snapshot/providers/zfs/zfs.go:236-262 | joining the mountpoint and the sub-path rebuilds the cleaned path |
| `ZfsNames.ReadPathIsClean` | internal/snapshot/providers/zfs/zfs.go:265-271 | the read path is the mountpoint's segments, `.zfs`, `snapshot`, the name and the sub-path |
| `ZfsNames.NameFromSegments` | internal/snapshot/providers/zfs/zfs.go:99-109 | the marker search finds the segment behind the first `.zfs`, `snapshot` pair |
| `ZfsNames.ReadPathRoundTrip` | internal/snapshot/providers/zfs/zfs.go:99-109 | a read path leads back to its snapshot if and only if the mountpoint is not inside a snapshot directory (or inside one of the same name) |
| `ZfsNames.OwnsItsOwn` | internal/snapshot/providers/zfs/zfs.go:83-97 | an instance recognises every snapshot it names |
| `ZfsNames.OwnershipExactly` | internal/snapshot/providers/zfs/zfs.go:83-97 | one instance takes a snapshot that another takes for a valid app for its own if and only if its prefix starts the other's or continues it without two dots in a row |
| `ZfsNames.SuffixProper` | internal/snapshot/providers/zfs/zfs.go:275-295 | a snapshot name is a proper path segment of safe characters |
| `ZfsNames.SanitizeSpelled` | internal/snapshot/providers/zfs/zfs.go:279-295 | character by character: letters, digits and the four marks stay, all else becomes a dash, nothing becomes "app" |
| `ZfsNames.SuffixSpelled` | internal/snapshot/providers/zfs/zfs.go:83-97 | the name is built of instance (or "default"), app and time; a snapshot is owned exactly if the text behind `@` starts with the instance's prefix |
| `ZfsPools.GroupByPool` | internal/snapshot/providers/zfs/zfs.go:187-205 | one group per pool, in order of first appearance, each the sublist of its pool |
| `ZfsPools.PoolSpelled` | internal/snapshot/providers/zfs/zfs.go:187-205 | the pool of a snapshot of a root dataset and of one below it |
| `ZfsPools.GroupsPartition` | internal/snapshot/providers/zfs/zfs.go:187-205 | the groups hold every name as often as the input, are pure, not empty and of different pools |
| `ZfsSnapshot.Host.Plan` | internal/snapshot/providers/zfs/zfs.go:141-157 | succeeds exactly if every source is on ZFS, before any command; one name per distinct dataset, and for each source the mount of its sub-path inside its dataset's snapshot |
| `ZfsSnapshot.PlanIsPlanned` | internal/snapshot/providers/zfs/zfs.go:141-157 | the planned mounts and names on their fields: `dataset@suffix` of exactly the datasets that sources are on |
| `ZfsSnapshot.Host.TakePools` | internal/snapshot/providers/zfs/zfs.go:159-177 | every command names one pool; success adds exactly the names, failure leaves at most snapshots whose destroy failed |
| `ZfsSnapshot.Host.Snapshot` | internal/snapshot/providers/zfs/zfs.go:134-185 | the whole call: each error exactly when it is due, and a snapshot command is issued exactly when all sources resolve and there is one |
| `ZfsSnapshot.Host.Transaction` | internal/snapshot/providers/zfs/zfs.go:134-185 | a snapshot and its cleanup, or a failing snapshot, leave the host as it was when destroys work |
| `ZfsSnapshot.Host.Reap` | internal/snapshot/providers/zfs/zfs.go:52-81 | destroys and counts exactly this instance's snapshots that no running mover reads; an error of the helper containers or of the listing changes nothing |
| `ZfsSnapshot.Host.StartupReap` | internal/backup/snapshots.go:16-39 | nothing goes without a snapshot mode or without knowing the running movers' mounts; otherwise exactly the owned snapshots out of use, up to destroys that fail, unless helpers or listing fail |
| `ZfsSnapshot.MountedSnapshotSurvives` | internal/backup/snapshots.go:16-39 | all snapshots of a run survive the reaping of its instance while a running mover mounts one source that is not hidden inside another snapshot directory |
| `ZfsSnapshot.ForeignSnapshotSurvives` | internal/snapshot/providers/zfs/zfs.go:83-97 | snapshots of an instance with an incomparable prefix survive |
| `ZfsSnapshot.ReapedExactly` | internal/snapshot/providers/zfs/zfs.go:52-81 | for a run's whole source list and any mounts in use that include its own: the snapshots of a running mover are destroyed if and only if every source lies inside a snapshot directory of another name and no other mount gives the name |
| `ZfsSnapshot.CanReapExactly` | internal/snapshot/providers/zfs/zfs.go:52-97 | one instance can destroy a snapshot that another takes for a valid app if and only if its prefix starts the other's or continues it without two dots in a row |
| `ZfsSnapshot.PrefixedInstance` | internal/snapshot/providers/zfs/zfs.go:83-97 | instances "a" and "a-b" can destroy each other's snapshots |
| `ZfsSnapshot.DottedInstance` | internal/discovery/discovery.go:46-54 | instance "a" can destroy snapshots of "a-.." but not the other way round |
| `ZfsSnapshot.NestedMountIsReaped` | internal/snapshot/providers/zfs/zfs.go:99-109 | a mountpoint inside a snapshot directory whose mover loses its snapshot |
| `ZfsLives.SparedExactly` | internal/snapshot/providers/zfs/zfs.go:52-81 | the reaping spares a running mover's snapshots if and only if it has none, one of its sources is not hidden, or another mount gives the name |
| `ZfsLives.ZfsMoversKeepSnapshots` | internal/backup/snapshots.go:13-39 | over any number of lives whose starts reap as the ZFS provider does, running movers that are not orphaned and have a source that is not hidden keep their snapshots |
| `SourceMounts.ResolveHostPaths` | internal/backup/snapshots.go:244-265 | every source's host path and exactly the foreign volumes, or an error for an unknown volume |
| `SourceMounts.RemainingExactly` | internal/backup/mover.go:44-65 | exactly the sources a target does not exclude remain, with unique names |
| `SourceMounts.SourcesForTarget` | internal/backup/mover.go:44-65 | computes that list in order |
| `SourceMounts.SpecSourcesSpelled` | internal/backup/mover.go:18-22 | restic is given "/data/" and the name of each source, in order |
| `SourceMounts.FirstAbleIsFirst` | internal/backup/snapshots.go:165-185 | the claimant is the first provider that is usable and able |
| `SourceMounts.MountFields` | internal/backup/snapshots.go:139-210 | a snapshot is bound read-only from where its provider reads it, a live source is mounted by its own kind and reference, both at "/data/" and the name |
| `SourceMounts.ClaimAll` | internal/backup/snapshots.go:158-186 | each provider claims exactly the sources it is the first to be able to take, despite the early exit |
| `SourceMounts.OneMountEach` | internal/backup/snapshots.go:187-217 | snapshot mounts and live mounts together are one mount per source |
| `SourceMounts.Orchestrator.SnapshotClaims` | internal/backup/snapshots.go:187-207 | a later provider's failure releases the snapshots of all earlier ones, up to destroys that fail |
| `SourceMounts.Orchestrator.AutoMounts` | internal/backup/snapshots.go:148-217 | success mounts each source from its claimant's snapshot or live; failure leaves at most snapshots that cannot be destroyed |
| `SourceMounts.Orchestrator.StrictMounts` | internal/backup/snapshots.go:126-146 | a foreign or unknown volume fails exactly when there is one; success binds each source from the provider's read path; failure leaves at most snapshots that cannot be destroyed |
| `SourceMounts.Orchestrator.SourceMountsFor` | internal/backup/snapshots.go:104-124 | in every mode a success mounts exactly the paths restic is given, each once and read-only, live in mode none and from the first registered provider's snapshots in a strict mode; an error leaves the live set as it was, up to destroys that fail |
| `SourceMounts.AutoMountsExact` | internal/backup/mover.go:18-22 | the targets of auto's mounts are the paths of the mover's spec, as multisets |
| `SourceMounts.AutoMountOfSource` | internal/backup/snapshots.go:148-217 | a source's mount is the first able provider's snapshot, else live by its own reference; foreign volumes are live |
| `Preview.PreviewSnapshots` | internal/backup/snapshots.go:41-97 | mode by mode: none previews nobody, auto all providers, a strict mode its first registered one, each error exactly when it is due |
| `Preview.PreviewSpelled` | internal/backup/snapshots.go:59-97 | a source is previewed snapshottable exactly if it is local and some usable provider is able, with the first one's detail; a foreign volume shows its reason, any other the first remark there is |
| `Preview.AutoRunAgrees` | internal/backup/run.go:16-17 | in auto a run mounts each source its target does not exclude from its claimant's snapshot if it was previewed snapshottable, else live, and nothing for an excluded one |
| `Preview.StrictZfs` | internal/backup/snapshots.go:126-146 | the strict zfs run issues a snapshot command exactly under the stated condition; each source is mounted from its sub-path inside its dataset's snapshot |
| `Preview.StrictRunAgrees` | internal/backup/run.go:16-17 | a strict zfs run reaches the command if and only if its target leaves a source over and every one left was previewed snapshottable |
| `Preview.StrictPreviewAgrees` | internal/snapshot/providers/zfs/zfs.go:113-132 | for one source list: there is a source, the host is usable and every source is previewed snapshottable |
| `Scheduling.LastPerKey` | internal/scheduler/scheduler.go:59-62 | of several jobs with a key the last one counts |
| `Scheduling.Scheduler.Drop` | internal/scheduler/scheduler.go:64-72 | leaves exactly the entries whose job is wanted with the same schedule and the same fingerprint, in any map order |
| `Scheduling.Scheduler.Fill` | internal/scheduler/scheduler.go:74-86 | adds exactly the missing jobs with a valid schedule, under new ids |
| `Scheduling.Scheduler.Sync` | internal/scheduler/scheduler.go:55-87 | index and cron table stay in bijection; a job whose schedule and fingerprint are the same keeps id and closure, one with either changed gets a new id and its new closure, invalid schedules none |
| `Scheduling.Scheduler.SyncTwice` | internal/scheduler/scheduler.go:52-54 | a repeated Sync leaves index and cron table exactly as they are |
| `Scheduling.Scheduler.Len` | internal/scheduler/scheduler.go:89-94 | the number of live registrations |
| `Scheduling.OnlyTheLastListCounts` | internal/scheduler/scheduler.go:52-87 | after any Syncs keys, schedules and fingerprints depend on the last list only |
| `Scheduling.ClosuresAreCurrent` | internal/scheduler/scheduler.go:64-86 | each live closure comes from a list in which its key had its present schedule and fingerprint, and every Sync since left it alone |
| `Collisions.DropNamedCollisions` | internal/discovery/discovery.go:71-90 | the kept jobs in order, and exactly the colliding apps with their containers |
| `Collisions.KeptExactly` | internal/discovery/discovery.go:65-70 | a job is kept exactly if no named job of its app stands beside another job of that app; reported are the containers of all jobs of the app |
| `Collisions.CollidesExactly` | internal/discovery/discovery.go:65-90 | an app collides exactly if a named job of it and another job of it are in the list |
| `Collisions.KeptInOrder` | internal/discovery/discovery.go:71-90 | the kept jobs are in the order of the list |
| `Collisions.ClaimsInOrder` | internal/discovery/discovery.go:71-90 | the reported containers are in the order of the list |
| `Collisions.DropIsIdempotent` | internal/discovery/discovery.go:71-90 | what is kept has no collision, and dropping again drops nothing |
| `Collisions.NamedIsAlone` | internal/discovery/discovery.go:65-70 | a kept named backup is its app's only job |
| `Keys.ShareExactly` | internal/reconcile/reconcile.go:64 | two targets give some valid apps the same key if and only if one name ends with a bar and the other |
| `Keys.ValidAppExactly` | internal/discovery/discovery.go:46-54 | a name is refused exactly if it is empty or contains a slash, a backslash or two dots in a row |
| `Keys.UnambiguousExactly` | internal/discovery/discovery.go:46-54 | a set of targets has unambiguous keys for all valid apps if and only if no name so ends with another |
| `Keys.NoBarsIsEnough` | internal/reconcile/reconcile.go:64 | targets named without bars have unambiguous keys |
| `Keys.AmbiguousKeys` | internal/reconcile/reconcile.go:64 | two valid apps on two targets that share a key |
| `Reconcile.TargetsFor` | internal/reconcile/reconcile.go:121-134 | exactly the configured targets a job selects, all of them without a selection |
| `Reconcile.PlansExactly` | internal/reconcile/reconcile.go:106-118 | there is a plan for exactly the jobs and their targets, with the overridden schedule |
| `Reconcile.ScheduleSpelled` | internal/reconcile/reconcile.go:106-118 | the schedule of the first override of the target's name if it sets one, else the target's |
| `Reconcile.PlansInOrder` | internal/reconcile/reconcile.go:106-118 | plans follow the order of the jobs |
| `Reconcile.PlansOfOne` | internal/reconcile/reconcile.go:106-134 | without overrides a job has one plan per configured target, in that order |
| `Reconcile.SelectedInOrder` | internal/reconcile/reconcile.go:121-134 | selected targets follow the order of the overrides |
| `Reconcile.Plans` | internal/reconcile/reconcile.go:106-118 | computes the plans in order |
| `Reconcile.DesiredList` | internal/reconcile/reconcile.go:59-94 | the desired list: the first scheduled plan of a key, checks and prunes |
| `Reconcile.DesiredExactly` | internal/reconcile/reconcile.go:59-94 | an entry is in the list exactly if some plan wants it |
| `Reconcile.DesiredSpelled` | internal/reconcile/reconcile.go:59-94 | the list holds exactly the backups of the first scheduled plan of each key and the checks and prunes of all plans, each with its key, schedule, fingerprint and work |
| `Reconcile.OneBackupEach` | internal/reconcile/reconcile.go:60-76 | at most one backup entry is appended under a key |
| `Reconcile.DistinguishesExactly` | internal/reconcile/reconcile.go:64-92 | keys of backups, checks and prunes tell all work apart if and only if the target names do not clash |
| `Reconcile.EverythingIsScheduled` | internal/reconcile/reconcile.go:59-94 | without a clash every wanted backup, check and prune is the last job of its own key |
| `Reconcile.ReconciledSchedule` | internal/reconcile/reconcile.go:51-104 | after Sync exactly the wanted work with a valid schedule is scheduled, with current schedule and fingerprint |
| `Reconcile.Reconcile` | internal/reconcile/reconcile.go:50-104 | a failed listing changes nothing; otherwise the schedule follows the jobs |
| `Reconcile.NamedBackupsRunTheirOwn` | internal/discovery/discovery.go:65-90 | all plans of an app with a named backup run that one job |
| `Reconcile.BackupTakesCheckKey` | internal/reconcile/reconcile.go:80-85 | with a target named like another one's check key, that check is never scheduled |
| `Daemon.NoLostWakeup` | cmd/sabon/daemon.go:93-117 | in every reachable state an event not yet followed by a reconcile is in the channel or behind the timer |
| `Daemon.Settles` | cmd/sabon/daemon.go:98-117 | without new events the loop makes at most six steps, and when it has none left every event was followed by a reconcile |
| `Daemon.Coalesced` | internal/discovery/discovery.go:56-63 | the timer starts at most one reconcile per event |
| `Daemon.QuietBurst` | internal/discovery/discovery.go:56-63 | a burst of any length leaves the loop where one event would |
| `Daemon.Loop.Signal` | internal/discovery/discovery.go:58-63 | one event step; a full slot stays full |
| `Daemon.Loop.OnChange` | cmd/sabon/daemon.go:106-107 | one take step: the timer is armed |
| `Daemon.Loop.OnDebounce` | cmd/sabon/daemon.go:108-110 | the timer is disarmed and every event so far is covered |
| `Daemon.Loop.OnTick` | cmd/sabon/daemon.go:111-115 | a tick covers every event so far and leaves channel and timer alone |
| `Daemon.Loop.Reconciled` | cmd/sabon/daemon.go:121-125 | the reconcile ends, and events signalled meanwhile are still on their way |
| `Naming.Itoa` | internal/discovery/discovery.go:129-141 | the decimal digits, always within the 20-byte buffer; nothing for a negative number |
| `Naming.SquashIsSafe` | internal/discovery/discovery.go:92-98 | only safe characters remain, and safe text is unchanged |
| `Naming.SquashRun` | internal/discovery/discovery.go:92-98 | each run of characters other than letters, digits, dots, dashes and underscores becomes one dash |
| `Naming.Pigeonhole` | internal/discovery/discovery.go:122-124 | candidates that are all taken cannot outnumber the taken names |
| `Naming.Namer.Pick` | internal/discovery/discovery.go:116-127 | the squashed base if it is free, else the base with the first free number behind it, found after at most one more try than there are taken names; the name is reserved |
| `Naming.SessionNames` | internal/discovery/discovery.go:107-127 | over any calls the names are pairwise distinct, safe and proper path segments, except where the caller asked for `.` or `..` |
| `Naming.BaseNameTidy` | internal/discovery/discovery.go:94-105 | a base name is never empty, `.` or `..`, and starts and ends with a letter or digit |
| `Naming.BaseNameSpelled` | internal/discovery/discovery.go:94-105 | the name is the last segment of the destination, whatever slashes end it, squashed and without edge dashes, dots and underscores, or "data" if nothing is left |
| `Naming.BaseNameOfSource` | internal/discovery/discovery.go:94-105 | a destination without a name of its own takes the source's last segment |
| `Naming.BaseNameKeepsTidy` | internal/discovery/discovery.go:94-105 | a tidy last segment of the destination is the name |
| `MountTable.CollidesMeansRelated` | api/targets.go:115-120 | the string tests on cleaned paths hold exactly for equal, ancestor or descendant paths |
| `MountTable.CleanHostFileExactly` | api/targets.go:178-180 | a host file is accepted exactly if it is an absolute path of proper segments without a colon |
| `MountTable.CheckFile` | api/targets.go:102-120 | a file passes exactly if it may be mounted |
| `MountTable.ValidateFiles` | api/targets.go:99-127 | accepts exactly the lists of mountable files with different cleaned targets, else names the first offender |
| `MountTable.Validate` | api/targets.go:144-173 | accepts exactly the well-formed target lists |
| `MountTable.MoverMounts` | internal/backup/run.go:91-92 | the mount paths of a mover, written out in the order of each use: sources first for a backup, behind cache, secrets and files for a restore in place, then the binds |
| `MountTable.TableMembers` | internal/backup/mover.go:91-108 | exactly what each mover needs is mounted |
| `MountTable.TableDistinct` | internal/backup/mover.go:91-108 | and nothing twice |
| `MountTable.ShadowsExactly` | internal/backup/backup.go:18-25 | for accepted targets and Namer names no mount is equal to or above another, two files excepted, if and only if no source is `..` and none called `.` has company |
| `MountTable.MoverPathsApart` | internal/backup/mover.go:74-108 | the paths a mover starts with stay different after cleaning |
| `MountTable.DotDotShadows` | internal/discovery/discovery.go:116-127 | a volume called `..` keeps its name and shadows other mounts |
| `MountTable.DotShadows` | internal/discovery/discovery.go:116-127 | a volume called `.` shadows the one beside it |
| `MountTable.SessionIsOk` | internal/discovery/discovery.go:107-127 | names from a Namer meet these conditions unless a base was `.` or `..` |
| `MoverHistory.Sorted` | internal/mover/runner.go:246 | some permutation with the newest first |
| `MoverHistory.ServiceRunning` | internal/engine/swarm/engine.go:287-300 | running exactly if some task has not ended or the tasks cannot be listed |
| `MoverHistory.Host.Trim` | internal/mover/runner.go:235-252 | removes what the shared rule allows and counts the removals that work |
| `MoverHistory.Host.ReapContainers` | internal/mover/runner.go:211-254 | Docker: no container in state running or restarting goes, every other one without an action does, each group keeps min(max(keep,0), size), none older than one that goes; without a list nothing happens |
| `MoverHistory.Host.ReapServices` | internal/engine/swarm/engine.go:159-201 | Swarm: the same rule, where a service with an active task, or whose tasks cannot be listed, never goes |
| `MoverHistory.SecondReapExactly` | internal/mover/runner.go:211-254 | a second Reap of the same movers removes nothing if and only if every removal of the first one worked |
| `MoverHistory.SparedExactly` | internal/mover/runner.go:211-254 | no allowed decision of Reap removes a mover if and only if it is running, or has an action and fewer than `keep` others of its group are at least as new |
| `MoverHistory.InFlightSparedExactly` | cmd/sabon/daemon.go:111-115 | a mover between create and start, the newest of its group, is safe from Reap if and only if it has an action and history is kept |
| `MoverHistory.InFlightIsNotRunning` | internal/engine/swarm/engine.go:287-300 | such a mover does not count as running on either engine |
| `MoverHistory.KeepNone` | internal/mover/runner.go:211-214 | keep <= 0 removes exactly the finished movers |
| `MoverHistory.GroupsAreRuns` | internal/mover/runner.go:233 | movers share a group exactly if action and app/target key agree; without clashing targets, app and target |
| `Specs.KeepsExactly` | api/backup.go:36-55 | a policy yields exactly the rules of its positive fields, none exactly if no field is positive and no span is set |
| `Specs.EmptyHasNoKeeps` | api/backup.go:30-34 | an empty policy yields no rule; one that is not empty yields none exactly if it holds only counts that are not positive, one of them negative |
| `Specs.ForgetArgs` | api/backup.go:36-55 | each positive count under its own flag, in the order of the fields, then the span; empty exactly if there is none |
| `Specs.RenderSpelled` | api/backup.go:36-55 | the rendered rules are those flags |
| `Specs.ReadRender` | api/backup.go:36-55 | reading the flags gives the rules back |
| `Specs.OverrideIsFirst` | api/backup.go:212-220 | the override found is the first of that name |
| `Specs.TargetOverride` | api/backup.go:212-220 | the search loop computes it |
| `Specs.OverrideSpelled` | internal/backup/mover.go:23-32 | the first override of the name decides: its retention unless that is all unset, its excludes behind the job's |
| `Specs.NoOverride` | internal/backup/mover.go:23-32 | without one, the target's retention and the job's excludes |
| `Specs.NegativeOverrideSilences` | internal/backup/mover.go:23-32 | an override of -1 turns off a default that keeps the last three |
| `Specs.SilencedExactly` | internal/backup/mover.go:23-32 | an override turns a default policy off if and only if it holds only counts that are not positive, one of them negative |
| `MoverTrace.RunBackup` | internal/mover/mover.go:155-194 | nothing without sources; else probe, init exactly after a failed probe, unlock, the backup with the spec's host, tags, excludes and sources; a forget runs exactly after a successful backup with a policy that has a rule |
| `MoverTrace.Execute` | internal/mover/mover.go:119-153 | for every spec and every outcome of every command the run is safe, carries the target's extra flags on every command, and succeeds exactly if its last command does; snapshots, check, prune and restore each run their own command behind an unlock, and other actions none |
| `MoverTrace.ForgetIsLast` | internal/mover/mover.go:177-193 | at most one forget, and nothing behind it |
| `MoverTrace.ForgetFollowsPolicy` | internal/backup/mover.go:18-41 | for every label, override and default: restic reads from a forget exactly the rules of the applying policy, at least one, all positive, for this app only |
| `MoverTrace.BackupFollowsJob` | internal/backup/mover.go:13-41 | for every label and override: the backup carries the app as host and first tag, the job's sources and tags, its excludes and those of the first override |

## Left out

- Docker, Swarm, event-stream and log calls, restic and zfs themselves: outcomes of steps, with the contracts stated in the files (an update succeeds only on the current version, a failed `zfs snapshot` creates nothing).
- Hooks, password files, image pulls, labels of movers: only "may fail" matters to the orchestrator; a request's other fields are not modelled.
- Contexts: cancellation, deadline and shutdown are outcomes of the step they interrupt, not a shared state; a cancelled context is not tracked from one step to the next, which allows more executions than the code has.
- Real time: jitter, poll intervals and the debounce delay are arbitrary.
- Event streams: events between the first reconcile and the subscription, or during a resubscription, are never signalled; the loop theorem is about signalled events.
- jobFingerprint: an arbitrary function of job and target; since the code builds it from sources, spec and target only, nothing is claimed about a closure's container, project or node.
- YAML and JSON decoding, cron expressions, `parseDatasets`, `ParseResult`: schedule validity is a given predicate, listings and specifications are given decoded.
- HTTP API, health checks, metrics, notifications, CLI wiring, `filterPlans`, `ListRuns`: they only pass requests on to the parts modelled here or print what those return.
- Repositories: environment references in a target's `repo` are expanded beforehand; two names of one place, such as a symbolic link, count as two places.
- OrchestratorRepositories.MoversApartExactly: the condition on the settings is for target names without bars and at most one `{app}`; `KeysCoverExactly` does without both.
- Locks.KeyedMutex.Lock: one attempt instead of a blocking call; waiting is a step guard of the transition system.
- Quiesce.Quiescer.Stop: the wait for the service's tasks to end is not modelled, its result is not looked at by the code either.
- OrchestratorTheorems.DeadlockFree: every external call is taken to return, with some outcome; a hook or a mover that hangs without a deadline is not covered.
- OrchestratorLives.MoversKeepSnapshotsAcrossLives: the startup reaping is taken to spare what a running mover has mounted; for ZFS `ZfsMoversKeepSnapshots` does without that, and `SparedExactly` says when it is so.
- Naming.Namer.Pick: assumes fewer than 2^63 - 1 names, so that the counter does not wrap around.
- MoverHistory.SecondReapExactly: assumes that no further mover ended between the two calls.
- ZfsSnapshot.Host.Snapshot: the snapshot name's clock value is a parameter; that two runs never draw the same one is not claimed, an existing name makes the command fail.
