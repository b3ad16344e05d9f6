/**
 The lives of the process with ZFS as the snapshot provider: what the startup
 reaping destroys is computed from the listing of snapshots and from the mounts
 of running movers, so that it spares those movers is no assumption.
 */
module ZfsLives {
  import opened Lists
  import Orchestrator
  import opened OrchestratorLives
  import opened ZfsPaths
  import opened ZfsNames
  import opened ZfsSnapshot

  /** What a mover was started with: the app and time of its run, the sources, and the
      datasets as they were listed then. */
  datatype Reading = Reading(app: string, nanos: nat, sources: seq<Source>, ds: seq<Dataset>)

  function NameOf(instance: string, rd: Reading): string {
    SnapSuffix(instance, rd.app, rd.nanos)
  }

  ghost predicate Sensible(rd: Reading) {
    && AllAbs(rd.sources) && AllOnZfs(rd.sources, rd.ds)
    && forall i | 0 <= i < |rd.sources| :: '@' !in Matches(rd.sources, rd.ds)[i].dataset.name
  }

  /** The mover reads the snapshots of a run of this instance. */
  ghost predicate Reads(m: Survivor, instance: string, rd: Reading) {
    Sensible(rd) && m.mounts == AsSet(Names(rd.sources, rd.ds, NameOf(instance, rd)))
  }

  /** The paths the mover has mounted are among those in use. */
  ghost predicate Reported(instance: string, rd: Reading, inUsePaths: seq<string>)
    requires Sensible(rd)
  {
    forall p | p in MountPaths(rd.sources, rd.ds, NameOf(instance, rd)) :: p in inUsePaths
  }

  lemma MountIsOfSource(m: Survivor, instance: string, rd: Reading, x: string) returns (k: nat)
    requires Reads(m, instance, rd) && x in m.mounts
    ensures k < |rd.sources| && x == FullName(Matches(rd.sources, rd.ds)[k].dataset.name, NameOf(instance, rd))
  {
    hide Dedupe, Lookup, SnapSuffix;
    var names := FullNames(Matches(rd.sources, rd.ds), NameOf(instance, rd));
    DedupeKeepsElements(names);
    assert x in Dedupe(names) && x in names;
    k :| 0 <= k < |names| && names[k] == x;
  }

  lemma SourceIsMounted(m: Survivor, instance: string, rd: Reading, k: nat)
    requires Reads(m, instance, rd) && k < |rd.sources|
    ensures FullName(Matches(rd.sources, rd.ds)[k].dataset.name, NameOf(instance, rd)) in m.mounts
  {
    hide Dedupe, Lookup, SnapSuffix;
    var names := FullNames(Matches(rd.sources, rd.ds), NameOf(instance, rd));
    DedupeKeepsElements(names);
    assert names[k] in names;
  }

  /** The reaping spares a running mover's snapshots exactly when it has none, or when one of
      its sources is not hidden or another mount happens to give the name. */
  lemma SparedExactly(m: Survivor, instance: string, rd: Reading, listing: seq<string>, inUsePaths: seq<string>)
    requires Reads(m, instance, rd) && Reported(instance, rd, inUsePaths)
    requires forall x | x in m.mounts :: x in listing
    ensures var snap := NameOf(instance, rd);
            m.mounts !! Orphans(instance, listing, inUsePaths) <==>
            || rd.sources == [] || !AllHidden(rd.sources, rd.ds, snap)
            || ToldByOthers(inUsePaths, MountPaths(rd.sources, rd.ds, snap), snap)
  {
    hide Orphans, AllHidden, ToldByOthers, MountPaths, Names, Lookup, SnapSuffix;
    var orphans := Orphans(instance, listing, inUsePaths);
    if x :| x in m.mounts && x in orphans {
      var k := MountIsOfSource(m, instance, rd, x);
      ReapedExactly(instance, rd.app, rd.nanos, rd.sources, rd.ds, k, listing, inUsePaths);
    }
    if rd.sources != [] {
      SourceIsMounted(m, instance, rd, 0);
      ReapedExactly(instance, rd.app, rd.nanos, rd.sources, rd.ds, 0, listing, inUsePaths);
    }
  }

  /** Some source is not hidden, if there is any. */
  ghost predicate Visible(instance: string, rd: Reading)
    requires Sensible(rd)
  {
    rd.sources == [] || !AllHidden(rd.sources, rd.ds, NameOf(instance, rd))
  }

  lemma VisibleIsSpared(m: Survivor, instance: string, rd: Reading, listing: seq<string>, inUsePaths: seq<string>)
    requires Reads(m, instance, rd) && Reported(instance, rd, inUsePaths) && Visible(instance, rd)
    ensures m.mounts !! Orphans(instance, listing, inUsePaths)
  {
    hide Orphans, MountPaths, Names, Lookup, SnapSuffix, Hidden, MountOf;
    var snap := NameOf(instance, rd);
    forall x | x in m.mounts ensures x !in Orphans(instance, listing, inUsePaths) {
      var k := MountIsOfSource(m, instance, rd, x);
      var i :| 0 <= i < |rd.sources| && !Hidden(rd.sources[i], rd.ds, snap);
      PathAt(rd, snap, i);
      MountedSnapshotSurvives(instance, rd.app, rd.nanos, rd.sources[i], rd.ds,
                              Matches(rd.sources, rd.ds)[k].dataset.name, listing, inUsePaths);
    }
  }

  lemma PathAt(rd: Reading, snap: string, i: nat)
    requires Sensible(rd) && i < |rd.sources|
    ensures MountOf(rd.sources[i], Lookup(rd.sources[i].hostPath, rd.ds).value, snap).hostPath in
              MountPaths(rd.sources, rd.ds, snap)
  {
    hide MountOf, Lookup;
    assert MountPaths(rd.sources, rd.ds, snap)[i] in MountPaths(rd.sources, rd.ds, snap);
  }

  // ------------------------------------------------------------- many lives

  /** What the startup of a life saw: the snapshots on the host and the mounts in use. */
  datatype Scan = Scan(listing: seq<string>, inUsePaths: seq<string>)

  /** A life that starts with the reaping of ZFS; destroys may fail. */
  ghost predicate ZfsLife(w: World, life: Life, scan: Scan, instance: string, read: Survivor -> Reading) {
    && life.running <= w.movers && Orchestrator.Feasible(Boot(w, life), life.steps)
    && life.reaped <= Orphans(instance, scan.listing, scan.inUsePaths)
    && forall m | m in life.running ::
         Reads(m, instance, read(m)) && Reported(instance, read(m), scan.inUsePaths) && Visible(instance, read(m))
  }

  lemma ZfsLifeIsPossible(w: World, life: Life, scan: Scan, instance: string, read: Survivor -> Reading)
    requires ZfsLife(w, life, scan, instance, read)
    ensures Possible(w, life)
  {
    hide Orphans, Reads, Reported, Visible, Orchestrator.Feasible, Boot;
    forall m | m in life.running ensures m.mounts !! life.reaped {
      VisibleIsSpared(m, instance, read(m), scan.listing, scan.inUsePaths);
    }
  }

  ghost predicate ZfsHistory(w: World, lives: seq<Life>, scans: seq<Scan>, instance: string, read: Survivor -> Reading)
    decreases |lives|
  {
    |scans| == |lives| &&
    (lives == [] ||
     (ZfsLife(w, lives[0], scans[0], instance, read) &&
      ZfsHistory(Died(w, lives[0]), lives[1..], scans[1..], instance, read)))
  }

  lemma {:induction false} ZfsHistoryIsHistory(w: World, lives: seq<Life>, scans: seq<Scan>, instance: string,
                                               read: Survivor -> Reading)
    requires ZfsHistory(w, lives, scans, instance, read)
    ensures History(w, lives)
    decreases |lives|
  {
    hide Reads, Reported, Visible, Orphans, Died, Orchestrator.Feasible, Boot;
    if lives != [] {
      ZfsLifeIsPossible(w, lives[0], scans[0], instance, read);
      ZfsHistoryIsHistory(Died(w, lives[0]), lives[1..], scans[1..], instance, read);
    }
  }

  /** Over any number of lives with ZFS reaping, each ended at any moment: running movers keep
      the snapshots they read, unless they are orphaned, as long as each has a source
      that is not hidden. */
  lemma ZfsMoversKeepSnapshots(w: World, lives: seq<Life>, scans: seq<Scan>, instance: string,
                               read: Survivor -> Reading)
    requires Sound(w) && ZfsHistory(w, lives, scans, instance, read)
    ensures History(w, lives) && Sound(WorldAfter(w, lives))
  {
    hide Sound, ZfsHistory, History, WorldAfter;
    ZfsHistoryIsHistory(w, lives, scans, instance, read);
    MoversKeepSnapshotsAcrossLives(w, lives);
  }
}
