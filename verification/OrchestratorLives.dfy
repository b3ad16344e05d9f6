/**
 Several lives of the process, one after another. When it dies, by a crash or by
 a shutdown, its locks, slots and counters are gone, while running movers,
 snapshots and stopped containers stay. The next life starts with the reaping of
 snapshots that no running mover reads.
 */
module OrchestratorLives {
  import opened Orchestrator
  import opened OrchestratorInvariant
  import opened OrchestratorTheorems
  import opened OrchestratorRelease
  import opened OrchestratorWitness

  /** A mover that outlived the process that started it. */
  datatype Survivor = Survivor(key: Key, mounts: set<Snap>, orphaned: bool)

  /** What is left between two lives. */
  datatype World = World(movers: set<Survivor>, stopped: set<Container>, live: set<Snap>)

  /** One life: the survivors that still run when it starts, what its reaping destroys and
      which apps its recovery restarts (none on Docker), and its execution up to its end. */
  datatype Life = Life(
    running: set<Survivor>, reaped: set<Snap>, revived: set<Container>,
    max: int, jobs: seq<Job>, steps: seq<Step>)

  function Boot(w: World, life: Life): State {
    Init(life.max, life.jobs, w.stopped - life.revived, w.live - life.reaped)
  }

  /** The reaping spares what a running mover has mounted. */
  ghost predicate Possible(w: World, life: Life) {
    && life.running <= w.movers
    && (forall m | m in life.running :: m.mounts !! life.reaped)
    && Feasible(Boot(w, life), life.steps)
  }

  ghost function End(w: World, life: Life): State
    requires Feasible(Boot(w, life), life.steps)
  {
    After(Boot(w, life), life.steps)
  }

  function SurvivorOf(run: Run): Survivor {
    Survivor(run.job.key, run.snaps.mounts, run.mover.orphaned)
  }

  function RunningMovers(s: State): set<Survivor> {
    set r: nat | r < |s.runs| && s.runs[r].mover.up :: SurvivorOf(s.runs[r])
  }

  ghost function Died(w: World, life: Life): World
    requires Feasible(Boot(w, life), life.steps)
  {
    var s := End(w, life);
    World(life.running + RunningMovers(s), s.stopped, s.live)
  }

  ghost predicate History(w: World, lives: seq<Life>)
    decreases |lives|
  {
    lives == [] || (Possible(w, lives[0]) && History(Died(w, lives[0]), lives[1..]))
  }

  ghost function WorldAfter(w: World, lives: seq<Life>): World
    requires History(w, lives)
    decreases |lives|
  {
    if lives == [] then w else WorldAfter(Died(w, lives[0]), lives[1..])
  }

  /** Every running mover has the snapshots it reads, unless it is orphaned. */
  ghost predicate Sound(w: World) {
    forall m | m in w.movers && !m.orphaned :: m.mounts <= w.live
  }

  lemma {:induction false} BaseStays(s: State, steps: seq<Step>)
    requires Feasible(s, steps)
    ensures After(s, steps).base == s.base
    decreases |steps|
  {
    hide Enabled;
    if steps != [] {
      BaseStays(Apply(s, steps[0]), steps[1..]);
    }
  }

  lemma EndIsReachable(w: World, life: Life)
    requires Possible(w, life)
    ensures Reachable(End(w, life))
  {
    hide Feasible, After;
  }

  lemma LifeIsSound(w: World, life: Life)
    requires Sound(w) && Possible(w, life)
    ensures Sound(Died(w, life))
  {
    hide Feasible, After, Reachable, Inv;
    var s := End(w, life);
    EndIsReachable(w, life);
    forall m | m in RunningMovers(s) && !m.orphaned ensures m.mounts <= s.live {
      var r: nat :| r < |s.runs| && s.runs[r].mover.up && m == SurvivorOf(s.runs[r]);
      RunningMoverHasItsSnapshots(s, r);
    }
    BaseStays(Boot(w, life), life.steps);
    BaseIsLive(s);
    forall m | m in life.running && !m.orphaned ensures m.mounts <= s.live {
      assert m.mounts <= w.live - life.reaped;
    }
  }

  lemma BaseIsLive(s: State)
    requires Reachable(s)
    ensures s.base <= s.live
  {
    hide Reachable, RunsOk, MutexInv, SlotInv, ColdInv;
    ReachableInv(s);
  }

  /** Over any number of lives, each ended at any moment: a mover that runs, whichever life
      started it, has every snapshot it reads, unless it is orphaned. */
  lemma {:induction false} MoversKeepSnapshotsAcrossLives(w: World, lives: seq<Life>)
    requires Sound(w) && History(w, lives)
    ensures Sound(WorldAfter(w, lives))
    decreases |lives|
  {
    hide Sound, Died, Feasible;
    if lives != [] {
      LifeIsSound(w, lives[0]);
      MoversKeepSnapshotsAcrossLives(Died(w, lives[0]), lives[1..]);
    }
  }

  // ------------------------------------------- two movers on one repository

  /** A mover that survived does not hold the next life's lock: there is an execution of
      the next life in which another mover runs under the same key. */
  lemma SurvivorMeetsAnother(w: World, m: Survivor) returns (life: Life)
    requires m in w.movers
    ensures Possible(w, life) && m in life.running
    ensures var s := End(w, life);
            |s.runs| == 1 && s.runs[0].job.key == m.key && s.runs[0].mover.up && !s.runs[0].mover.orphaned
  {
    hide Inv, Feasible, After, Undisturbed;
    var jobs := [Job(ListSnapshots, m.key, "app")];
    InitInv(0, jobs, w.stopped, w.live);
    InitUndisturbed(0, jobs, w.stopped, w.live, 0);
    var steps := StartAlone(Init(0, jobs, w.stopped, w.live), 0);
    life := Life({m}, {}, {}, 0, jobs, steps);
    assert w.live - {} == w.live && w.stopped - {} == w.stopped;
  }

  /** A hot backup that is shut down while its mover runs. */
  lemma KeepingRun(run: Run, x: Snap)
    requires run.pc.TakeSnaps? && run.job.kind == Backup(false)
    ensures var r1 := Next(run, Taken({x})); var r2 := Next(r1, Ok); var r3 := Next(r2, Cancelled);
            && Free(run) && Free(r1) && Free(r2)
            && Allowed(run, Taken({x})) && Allowed(r1, Ok) && Allowed(r2, Cancelled)
            && r3.mover == Mover(true, true, false) && r3.snaps.mounts == {x} && r3.job == run.job
  {
  }

  lemma KeptSurvives(key: Key, x: Snap) returns (life: Life)
    ensures Possible(World({}, {}, {}), life)
    ensures Survivor(key, {x}, false) in Died(World({}, {}, {}), life).movers
  {
    hide Inv, Feasible, After, Next, Free, Allowed, Undisturbed;
    var jobs := [Job(Backup(false), key, "app")];
    var s0 := Init(0, jobs, {}, {});
    InitInv(0, jobs, {}, {});
    InitUndisturbed(0, jobs, {}, {}, 0);
    var a := SetUp(s0, 0);
    NothingLiveYet(After(s0, a));
    KeepingRun(After(s0, a).runs[0], x);
    var o := Taken({x});
    ExtendFree(s0, a, 0, o);
    ExtendFree(s0, a + [Go(0, o)], 0, Ok);
    var b := a + [Go(0, o)] + [Go(0, Ok)];
    ExtendFree(s0, b, 0, Cancelled);
    var s := After(s0, b + [Go(0, Cancelled)]);
    life := Life({}, {}, {}, 0, jobs, b + [Go(0, Cancelled)]);
    assert Boot(World({}, {}, {}), life) == s0;
    assert SurvivorOf(s.runs[0]) in RunningMovers(s);
  }

  /** A mover kept on shutdown, and in the next life a second one under the same key. */
  lemma KeptBesideAnother(key: Key, x: Snap) returns (first: Life, second: Life)
    ensures Possible(World({}, {}, {}), first) && Possible(Died(World({}, {}, {}), first), second)
    ensures Survivor(key, {x}, false) in second.running
    ensures var s := End(Died(World({}, {}, {}), first), second);
            |s.runs| == 1 && s.runs[0].job.key == key && s.runs[0].mover.up && !s.runs[0].mover.orphaned
  {
    hide Feasible, End, Died;
    first := KeptSurvives(key, x);
    second := SurvivorMeetsAnother(Died(World({}, {}, {}), first), Survivor(key, {x}, false));
  }
}
