/**
 Executions that exist: a run left alone gets as far as its first fallible
 resource. They show that the two conditions on the cold-stop theorems cannot be
 dropped: a stopping restore under another repository key restarts a container
 that a cold backup holds, and a failed restart makes two stops follow each other.
 */
module OrchestratorWitness {
  import opened Lists
  import opened Orchestrator
  import opened OrchestratorInvariant
  import opened OrchestratorTheorems
  import opened OrchestratorCold

  lemma {:induction false} Compose(s: State, a: seq<Step>, b: seq<Step>)
    requires Feasible(s, a) && Feasible(After(s, a), b)
    ensures Feasible(s, a + b) && After(s, a + b) == After(After(s, a), b)
    decreases |a|
  {
    hide Enabled, Apply;
    if a == [] {
      assert a + b == b;
    } else {
      Compose(Apply(s, a[0]), a[1..], b);
      assert (a + b)[1..] == a[1..] + b;
    }
  }

  lemma OneStep(s: State, t: Step)
    requires Enabled(s, t)
    ensures Feasible(s, [t]) && After(s, [t]) == Apply(s, t)
  {
    hide Enabled, Apply;
    assert [t][1..] == [];
  }

  /** Program points before the first snapshot or mover. */
  predicate Preparing(pc: Pc) {
    Ascending(pc) && !pc.TakeSnaps? && !AtMover(pc)
  }

  /** Nobody else is in the way of run r. */
  ghost predicate Undisturbed(s: State, r: nat) {
    && r < |s.runs|
    && (forall q: nat | q < |s.runs| && q != r ::
          !InLeaf(s.runs[q].pc) && (s.runs[q].stack.defers != [] ==> s.runs[q].job.key != s.runs[r].job.key))
    && (NeedsSlot(s.runs[r].job.kind) && |s.runs[r].stack.defers| < 2 ==> SlotFree(s))
  }

  /** A mutex that is neither run r's own nor another repository's key is free. */
  lemma OnlyForeignKeysHeld(s: State, r: nat, m: Mutex)
    requires MutexInv(s) && Undisturbed(s, r) && m in s.held
    ensures m in Holds(s.runs[r]) || (m.KeyMu? && m.key != s.runs[r].job.key)
  {
    hide Holds;
    var q: nat :| q < |s.runs| && m in Holds(s.runs[q]);
    OutsideLeafHoldsKey(s.runs[q], m);
  }

  lemma OutsideLeafHoldsKey(run: Run, m: Mutex)
    requires m in Holds(run)
    ensures InLeaf(run.pc) || (run.stack.defers != [] && m == KeyMu(run.job.key))
  {
  }

  lemma PreparingGuard(s: State, run: Run)
    requires PlaceOk(run) && Preparing(run.pc)
    requires forall m | m in s.held :: m in Holds(run) || (m.KeyMu? && m.key != run.job.key)
    requires run.pc.WantSlot? ==> SlotFree(s)
    ensures Guard(s, run)
  {
  }

  lemma PreparingAllows(s: State, r: nat)
    requires r < |s.runs| && Preparing(s.runs[r].pc) && Guard(s, s.runs[r])
    ensures Enabled(s, Go(r, Ok))
  {
  }

  lemma UndisturbedCanGo(s: State, r: nat)
    requires Inv(s) && Undisturbed(s, r) && Preparing(s.runs[r].pc)
    ensures Enabled(s, Go(r, Ok))
  {
    hide MutexInv, SlotInv, ColdInv, SnapInv, MoverOk, ChainOk, Guard, Enabled, Holds, SlotFree;
    assert RunOk(s.runs[r]);
    forall m | m in s.held ensures m in Holds(s.runs[r]) || (m.KeyMu? && m.key != s.runs[r].job.key) {
      OnlyForeignKeysHeld(s, r, m);
    }
    PreparingGuard(s, s.runs[r]);
    PreparingAllows(s, r);
  }

  lemma NextPrepares(run: Run)
    requires PlaceOk(run) && Preparing(run.pc)
    ensures var n := Next(run, Ok);
            && Ascending(n.pc) && (Preparing(n.pc) || n.pc.TakeSnaps? || n.pc.SpawnMover?)
            && (run.job.kind.Backup? ==> !n.pc.SpawnMover?)
            && |n.stack.defers| >= |run.stack.defers|
            && (run.pc.WantSlot? ==> |n.stack.defers| >= 2)
  {
  }

  lemma SlotsStayFree(s: State, r: nat)
    requires RunsOk(s) && Undisturbed(s, r) && Preparing(s.runs[r].pc) && Enabled(s, Go(r, Ok))
    ensures Undisturbed(Apply(s, Go(r, Ok)), r)
  {
    hide Next, MoverOk, ChainOk, HeldAfter, RefsAfter, StoppedAfter, LiveAfter, ColdCalls, Allowed, Agrees, Guard;
    assert RunOk(s.runs[r]);
    StepRun(s, r, Ok);
    NextPrepares(s.runs[r]);
  }

  /** Left alone, a run prepares until it takes snapshots or spawns its mover. */
  lemma SetUp(s: State, r: nat) returns (steps: seq<Step>)
    requires Inv(s) && r < |s.runs| && Undisturbed(s, r) && Ascending(s.runs[r].pc)
    requires Preparing(s.runs[r].pc) || s.runs[r].pc.TakeSnaps? || s.runs[r].pc.SpawnMover?
    ensures Feasible(s, steps) && Inv(After(s, steps))
    ensures forall t | t in steps :: t == Go(r, Ok)
    ensures var s2 := After(s, steps);
            && |s2.runs| == |s.runs| && s2.max == s.max && s2.base == s.base
            && (s2.runs[r].pc.TakeSnaps? || s2.runs[r].pc.SpawnMover?)
            && (s.runs[r].job.kind.Backup? && !s.runs[r].pc.SpawnMover? ==> s2.runs[r].pc.TakeSnaps?)
            && s2.runs[r].job == s.runs[r].job
            && forall q: nat | q < |s.runs| && q != r :: s2.runs[q] == s.runs[q]
    decreases Weight(s.runs[r])
  {
    hide Next, RunsOk, MutexInv, SlotInv, ColdInv, SnapInv, Enabled, HeldAfter, RefsAfter, StoppedAfter,
         LiveAfter, ColdCalls, SlotsAfter, Weight, Undisturbed;
    if !Preparing(s.runs[r].pc) {
      steps := [];
    } else {
      UndisturbedCanGo(s, r);
      var t := Go(r, Ok);
      var s1 := Apply(s, t);
      StepKeepsInv(s, t);
      SlotsStayFree(s, r);
      Advances(s, r);
      var rest := SetUp(s1, r);
      OneStep(s, t);
      Compose(s, [t], rest);
      steps := [t] + rest;
    }
  }

  lemma Advances(s: State, r: nat)
    requires RunsOk(s) && r < |s.runs| && Preparing(s.runs[r].pc) && Enabled(s, Go(r, Ok))
    ensures var s1 := Apply(s, Go(r, Ok));
            && |s1.runs| == |s.runs| && s1.max == s.max && s1.base == s.base && s1.runs[r].job == s.runs[r].job
            && Weight(s1.runs[r]) < Weight(s.runs[r])
            && Ascending(s1.runs[r].pc)
            && (Preparing(s1.runs[r].pc) || s1.runs[r].pc.TakeSnaps? || s1.runs[r].pc.SpawnMover?)
            && (s.runs[r].job.kind.Backup? ==> !s1.runs[r].pc.SpawnMover?)
            && forall q: nat | q < |s.runs| && q != r :: s1.runs[q] == s.runs[q]
  {
    hide Next, Weight, MoverOk, PlaceOk, HeldAfter, RefsAfter, StoppedAfter, LiveAfter, ColdCalls, SlotsAfter,
         Guard, Agrees, Preparing;
    var run := s.runs[r];
    assert RunOk(run);
    StepRun(s, r, Ok);
    NextPrepares(run);
    assert RunOk(Apply(s, Go(r, Ok)).runs[r]);
    DefersHave(run.job.kind, Next(run, Ok).stack);
    PreparingAscends(run.pc);
    NextLowersUp(run, Ok);
  }

  lemma PreparingAscends(pc: Pc)
    requires Preparing(pc)
    ensures Ascending(pc)
  {
  }

  // ------------------------------------------------- the condition is needed

  lemma HolderCounts(s: State, i: nat)
    requires Inv(s) && i < |s.runs| && ColdHold in s.runs[i].stack.defers
    ensures Refs(s, s.runs[i].job.container) > 0
  {
    assert i in ColdHolders(s.runs, s.runs[i].job.container);
  }

  lemma SetUpBackupHolds(s: State, i: nat)
    requires Inv(s) && i < |s.runs| && s.runs[i].job.kind == Backup(true)
    requires s.runs[i].pc.TakeSnaps? || s.runs[i].pc.SpawnMover?
    ensures ColdHold in s.runs[i].stack.defers
  {
    hide MutexInv, SlotInv, ColdInv, SnapInv, MoverOk;
    assert RunOk(s.runs[i]);
    DefersHave(s.runs[i].job.kind, s.runs[i].stack);
  }

  lemma InitUndisturbed(max: int, jobs: seq<Job>, stopped: set<Container>, base: set<Snap>, r: nat)
    requires r < |jobs|
    ensures Undisturbed(Init(max, jobs, stopped, base), r)
  {
  }

  lemma RestoreTop(run: Run)
    requires StackOk(run) && run.job.kind == Restore(true) && (run.pc.TakeSnaps? || run.pc.SpawnMover?)
    ensures run.pc.SpawnMover? && Top(run) == Some(DirectStop)
  {
    hide ChainOk;
    PopChain(Restore(true), run.stack);
  }

  lemma RestoreStack(s: State, j: nat)
    requires Inv(s) && j < |s.runs| && s.runs[j].job.kind == Restore(true)
    requires s.runs[j].pc.TakeSnaps? || s.runs[j].pc.SpawnMover?
    ensures s.runs[j].pc.SpawnMover? && Top(s.runs[j]) == Some(DirectStop)
  {
    hide MutexInv, SlotInv, ColdInv, SnapInv, MoverOk, StackOk, Top;
    assert RunOk(s.runs[j]);
    RestoreTop(s.runs[j]);
  }

  lemma SpawnFails(s: State, j: nat)
    requires j < |s.runs| && s.runs[j].job.kind == Restore(true) && s.runs[j].pc.SpawnMover?
    ensures Enabled(s, Go(j, Fail))
    ensures Apply(s, Go(j, Fail)).runs == s.runs[j := s.runs[j].(pc := Unwind)]
    ensures Apply(s, Go(j, Fail)).stopped == s.stopped && Apply(s, Go(j, Fail)).max == s.max
  {
  }

  lemma RestartsApp(s: State, j: nat)
    requires j < |s.runs| && s.runs[j].pc.Unwind? && Top(s.runs[j]) == Some(DirectStop)
    ensures Enabled(s, Go(j, Ok))
    ensures Apply(s, Go(j, Ok)).runs == s.runs[j := Pop(s.runs[j])]
    ensures s.runs[j].job.container !in Apply(s, Go(j, Ok)).stopped
  {
  }

  /** A stopping restore ready to spawn its mover: the spawn fails, the app is restarted. */
  lemma RestoreFails(s: State, j: nat)
    requires Inv(s) && j < |s.runs| && s.runs[j].job.kind == Restore(true)
    requires s.runs[j].pc.TakeSnaps? || s.runs[j].pc.SpawnMover?
    ensures Feasible(s, [Go(j, Fail), Go(j, Ok)])
    ensures var s2 := After(s, [Go(j, Fail), Go(j, Ok)]);
            && Inv(s2) && |s2.runs| == |s.runs|
            && s.runs[j].job.container !in s2.stopped
            && forall q: nat | q < |s.runs| && q != j :: s2.runs[q] == s.runs[q]
  {
    hide Inv, Feasible, After, Apply, Enabled;
    var t, u := Go(j, Fail), Go(j, Ok);
    RestoreStack(s, j);
    SpawnFails(s, j);
    var s1 := Apply(s, t);
    RestartsApp(s1, j);
    StepKeepsInv(s, t);
    StepKeepsInv(s1, u);
    OneStep(s, t);
    OneStep(s1, u);
    Compose(s, [t], [u]);
    assert [t] + [u] == [t, u];
  }

  lemma CrossRestoreBreaks(max: int, jobs: seq<Job>, i: nat, j: nat) returns (steps: seq<Step>)
    requires i < |jobs| && j < |jobs| && Crossing(jobs[i], jobs[j]) && jobs[i].key != jobs[j].key
    ensures Feasible(Init(max, jobs, {}, {}), steps)
    ensures !DownWhileHeld(After(Init(max, jobs, {}, {}), steps))
  {
    hide Inv, Feasible, After, Apply, Enabled;
    var s0 := Init(max, jobs, {}, {});
    InitInv(max, jobs, {}, {});
    InitUndisturbed(max, jobs, {}, {}, i);
    var a := SetUp(s0, i);
    var s1 := After(s0, a);
    SetUpBackupHolds(s1, i);
    assert Undisturbed(s1, j);
    var b := SetUp(s1, j);
    var s2 := After(s1, b);
    RestoreFails(s2, j);
    var d := [Go(j, Fail), Go(j, Ok)];
    Compose(s1, b, d);
    Compose(s0, a, b + d);
    steps := a + (b + d);
    HolderCounts(After(s0, steps), i);
  }

  ghost predicate NoCross(jobs: seq<Job>) {
    forall i: nat, j: nat | i < |jobs| && j < |jobs| :: Crossing(jobs[i], jobs[j]) ==> jobs[i].key == jobs[j].key
  }

  ghost predicate AlwaysDownWhileHeld(max: int, jobs: seq<Job>) {
    forall stopped, base, steps :: Feasible(Init(max, jobs, stopped, base), steps) ==>
      DownWhileHeld(After(Init(max, jobs, stopped, base), steps))
  }

  /** A held container is down in every state of every execution exactly when no stopping
      restore works on a cold backup's container under another repository key. */
  lemma ColdSafetyExactly(max: int, jobs: seq<Job>)
    ensures AlwaysDownWhileHeld(max, jobs) <==> NoCross(jobs)
  {
    hide Inv, Feasible, After, DownWhileHeld;
    if NoCross(jobs) {
      forall stopped, base, steps | Feasible(Init(max, jobs, stopped, base), steps)
        ensures DownWhileHeld(After(Init(max, jobs, stopped, base), steps))
      {
        InitInv(max, jobs, stopped, base);
        InitDown(max, jobs, stopped, base);
        HeldContainersAreDown(Init(max, jobs, stopped, base), steps);
      }
    } else {
      var i: nat, j: nat :| i < |jobs| && j < |jobs| && Crossing(jobs[i], jobs[j]) && jobs[i].key != jobs[j].key;
      var steps := CrossRestoreBreaks(max, jobs, i, j);
    }
  }

  lemma InitDown(max: int, jobs: seq<Job>, stopped: set<Container>, base: set<Snap>)
    ensures DownWhileHeld(Init(max, jobs, stopped, base))
  {
  }

  // ------------------------------------------------------- a failed restart

  lemma LogGrows(s: State, steps: seq<Step>)
    requires Feasible(s, steps)
    ensures s.log <= After(s, steps).log
    decreases |steps|
  {
    hide Enabled, ColdCalls, Next, HeldAfter, RefsAfter, StoppedAfter, LiveAfter, SlotsAfter;
    if steps != [] {
      LogGrows(Apply(s, steps[0]), steps[1..]);
    }
  }

  lemma {:induction false} CallsGrow(p: seq<ColdEvent>, q: seq<ColdEvent>, c: Container)
    requires p <= q
    ensures Calls(p, c) <= Calls(q, c)
    decreases |q|
  {
    if |p| < |q| {
      assert p <= q[..|q| - 1];
      CallsGrow(p, q[..|q| - 1], c);
    } else {
      assert p == q;
    }
  }

  /** A cold backup that holds its container: the snapshot fails and so does the restart. */
  lemma ColdRunFails(s: State, i: nat) returns (steps: seq<Step>)
    requires Inv(s) && i < |s.runs| && s.runs[i].job.kind == Backup(true) && s.runs[i].pc.TakeSnaps?
    requires Refs(s, s.runs[i].job.container) == 1 && ColdMu(s.runs[i].job.container) !in s.held
    ensures Feasible(s, steps) && Inv(After(s, steps))
    ensures var s2, c := After(s, steps), s.runs[i].job.container;
            && |s2.runs| == |s.runs| && s2.max == s.max && s2.runs[i].pc.Unwind? && s2.runs[i].job == s.runs[i].job
            && s2.log == s.log + [StartFailed(c)] && s2.stopped == s.stopped && Refs(s2, c) == 0
            && forall q: nat | q < |s.runs| && q != i :: s2.runs[q] == s.runs[q]
  {
    hide Inv, Feasible, After, Enabled, Apply;
    SnapshotFails(s, i);
    var t := Go(i, TakeFails({}));
    var s1 := Apply(s, t);
    StepKeepsInv(s, t);
    OneStep(s, t);
    WantsBack(s1, i);
    var s2 := Apply(s1, Go(i, Ok));
    StepKeepsInv(s1, Go(i, Ok));
    OneStep(s1, Go(i, Ok));
    LocksBack(s2, i);
    var s3 := Apply(s2, Go(i, Ok));
    StepKeepsInv(s2, Go(i, Ok));
    OneStep(s2, Go(i, Ok));
    RestartFails(s3, i);
    StepKeepsInv(s3, Go(i, Fail));
    OneStep(s3, Go(i, Fail));
    var d := [Go(i, Ok)] + [Go(i, Fail)];
    Compose(s2, [Go(i, Ok)], [Go(i, Fail)]);
    Compose(s1, [Go(i, Ok)], d);
    Compose(s, [t], [Go(i, Ok)] + d);
    steps := [t] + ([Go(i, Ok)] + d);
  }

  /** s2 differs from s in run i only, and in no cold-stop bookkeeping. */
  predicate SameCold(s: State, s2: State, i: nat) {
    && i < |s.runs| == |s2.runs| && s2.max == s.max && s2.log == s.log && s2.refs == s.refs && s2.stopped == s.stopped
    && s2.runs[i].job == s.runs[i].job
    && forall q: nat | q < |s.runs| && q != i :: s2.runs[q] == s.runs[q]
  }

  lemma SnapshotFails(s: State, i: nat)
    requires Inv(s) && i < |s.runs| && s.runs[i].job.kind == Backup(true) && s.runs[i].pc.TakeSnaps?
    ensures Enabled(s, Go(i, TakeFails({})))
    ensures var s2 := Apply(s, Go(i, TakeFails({})));
            && SameCold(s, s2, i) && s2.held == s.held
            && s2.runs[i].pc.Unwind? && Top(s2.runs[i]) == Some(ColdHold)
  {
    hide MutexInv, SlotInv, ColdInv, SnapInv, MoverOk;
    assert RunOk(s.runs[i]);
    PopChain(Backup(true), s.runs[i].stack);
  }

  lemma WantsBack(s: State, i: nat)
    requires i < |s.runs| && s.runs[i].pc.Unwind? && Top(s.runs[i]) == Some(ColdHold)
    ensures Enabled(s, Go(i, Ok))
    ensures var s2 := Apply(s, Go(i, Ok));
            SameCold(s, s2, i) && s2.held == s.held && s2.runs[i].pc.WantColdBack?
  {
  }

  lemma LocksBack(s: State, i: nat)
    requires i < |s.runs| && s.runs[i].pc.WantColdBack? && ColdMu(s.runs[i].job.container) !in s.held
    ensures Enabled(s, Go(i, Ok))
    ensures SameCold(s, Apply(s, Go(i, Ok)), i) && Apply(s, Go(i, Ok)).runs[i].pc.InColdBack?
  {
  }

  lemma RestartFails(s: State, i: nat)
    requires i < |s.runs| && s.runs[i].pc.InColdBack? && Refs(s, s.runs[i].job.container) == 1
    ensures Enabled(s, Go(i, Fail))
    ensures var s2 := Apply(s, Go(i, Fail));
            && |s2.runs| == |s.runs| && s2.max == s.max
            && s2.runs[i].pc.Unwind? && s2.runs[i].job == s.runs[i].job
            && s2.log == s.log + [StartFailed(s.runs[i].job.container)]
            && s2.stopped == s.stopped && Refs(s2, s.runs[i].job.container) == 0
            && forall q: nat | q < |s.runs| && q != i :: s2.runs[q] == s.runs[q]
  {
  }

  /** Two cold backups of one app to two targets. The first one fails and cannot restart
      the app; the second one stops it again. */
  lemma FailedRestartRepeatsStop() returns (jobs: seq<Job>, steps: seq<Step>, c: Container)
    ensures Feasible(Init(0, jobs, {}, {}), steps)
    ensures !Alternate(Successes(Calls(After(Init(0, jobs, {}, {}), steps).log, c)))
  {
    hide Inv, Feasible, After, Apply, Enabled, Calls, Successes, Alternate, Undisturbed;
    c := "app";
    jobs := [Job(Backup(true), "onsite|app", c), Job(Backup(true), "offsite|app", c)];
    var s0 := Init(0, jobs, {}, {});
    InitInv(0, jobs, {}, {});
    InitUndisturbed(0, jobs, {}, {}, 0);
    var a := SetUp(s0, 0);
    var s1 := After(s0, a);
    HoldsAlone(s1, 0);
    var b := ColdRunFails(s1, 0);
    var s2 := After(s1, b);
    SecondUndisturbed(s2);
    var d := SetUp(s2, 1);
    var s3 := After(s2, d);
    Compose(s1, b, d);
    Compose(s0, a, b + d);
    steps := a + (b + d);
    SetUpBackupHolds(s3, 1);
    HolderCounts(s3, 1);
    LogGrows(s2, d);
    StopIsRepeated(s0, a, b, d, c);
  }

  /** The only run that has started holds its container alone. */
  lemma HoldsAlone(s: State, i: nat)
    requires Inv(s) && i < |s.runs| && s.runs[i].job.kind == Backup(true)
    requires s.runs[i].pc.TakeSnaps? || s.runs[i].pc.SpawnMover?
    requires forall q: nat | q < |s.runs| && q != i :: s.runs[q].pc.Begin?
    ensures var c := s.runs[i].job.container; Refs(s, c) == 1 && ColdMu(c) !in s.held
  {
    hide SlotInv, SnapInv, MutexInv, RunOk;
    var c := s.runs[i].job.container;
    SetUpBackupHolds(s, i);
    forall q: nat | q < |s.runs| && q != i ensures s.runs[q].stack.defers == [] {
      assert RunOk(s.runs[q]);
      NothingPushedYet(s.runs[q]);
    }
    assert ColdHolders(s.runs, c) == {i};
    ColdIsFree(s, c);
  }

  lemma NothingPushedYet(run: Run)
    requires RunOk(run) && run.pc.Begin?
    ensures run.stack.defers == []
  {
    hide MoverOk, ChainOk;
  }

  lemma ColdIsFree(s: State, c: Container)
    requires MutexInv(s)
    requires forall q: nat | q < |s.runs| :: s.runs[q].pc.Begin? || s.runs[q].pc.TakeSnaps? || s.runs[q].pc.SpawnMover?
    ensures ColdMu(c) !in s.held
  {
    hide Holds;
    forall m | m in s.held ensures m.KeyMu? {
      var q: nat :| q < |s.runs| && m in Holds(s.runs[q]);
      OnlyKeys(s.runs[q], m);
    }
  }

  lemma SecondUndisturbed(s: State)
    requires |s.runs| == 2 && s.max == 0
    requires s.runs[0].pc.Unwind? && s.runs[0].job.key == "onsite|app" && s.runs[1].job.key == "offsite|app"
    ensures Undisturbed(s, 1)
  {
  }

  lemma StopIsRepeated(s0: State, a: seq<Step>, b: seq<Step>, d: seq<Step>, c: Container)
    requires Inv(s0) && s0.log == [] && s0.refs == map[]
    requires Feasible(s0, a) && Feasible(After(s0, a), b) && Feasible(After(After(s0, a), b), d)
    requires var s1 := After(s0, a); var s2 := After(s1, b);
             Refs(s1, c) > 0 && s2.log == s1.log + [StartFailed(c)]
    requires Refs(After(After(After(s0, a), b), d), c) > 0
    ensures !Alternate(Successes(Calls(After(After(After(s0, a), b), d).log, c)))
  {
    hide Inv, Feasible, After, Apply, Enabled, Successes, Alternate;
    var s1 := After(s0, a);
    var s2 := After(s1, b);
    var s3 := After(s2, d);
    assert LogOk(s0, c) by { EmptyLogOk(s0, c); }
    InvAlways(s0, a);
    LogAlways(s0, a, c);
    InvAlways(s1, b);
    LogAlways(s1, b, c);
    LogAlways(s2, d, c);
    CallsAppend(s1.log, StartFailed(c), c);
    LogGrows(s2, d);
    CallsGrow(s2.log, s3.log, c);
    var f := Calls(s3.log, c);
    var k := |Calls(s1.log, c)|;
    assert f[k] == StartFailed(c);
    assert k < |f| - 1;
    CallsAreCalls(s3.log, c);
    SuccessesAlternateExactly(f);
  }

  lemma EmptyLogOk(s: State, c: Container)
    requires s.log == [] && s.refs == map[]
    ensures LogOk(s, c)
  {
  }

  // ------------------------------------------------------- a failed removal

  /** Program points from the snapshot on that never block. */
  predicate Free(run: Run) {
    run.pc.TakeSnaps? || AtMover(run.pc) || (run.pc.Unwind? && Top(run) != Some(Slot))
  }

  predicate OthersStay(s: State, s2: State, r: nat) {
    && |s2.runs| == |s.runs| && s2.max == s.max
    && forall q: nat | q < |s.runs| && q != r :: s2.runs[q] == s.runs[q]
  }

  lemma FreeStep(s: State, r: nat, o: Outcome)
    requires r < |s.runs| && Free(s.runs[r]) && Allowed(s.runs[r], o)
    requires (o.Taken? ==> o.snaps !! s.live) && !o.TakeFails?
    ensures Enabled(s, Go(r, o))
    ensures var s2 := Apply(s, Go(r, o));
            && OthersStay(s, s2, r)
            && s2.runs[r] == Next(s.runs[r], o) && s2.live == LiveAfter(s, s.runs[r], o)
  {
    hide Next, HeldAfter, RefsAfter, StoppedAfter, LiveAfter, SlotsAfter, ColdCalls;
  }

  /** A hot backup whose mover misses its deadline and cannot be removed. */
  lemma OrphaningRun(run: Run, x: Snap)
    requires run.pc.TakeSnaps? && run.job.kind == Backup(false)
    ensures var r1 := Next(run, Taken({x})); var r2 := Next(r1, Ok); var r3 := Next(r2, Deadline);
            var r4 := Next(r3, Fail); var r5 := Next(r4, Ok); var r6 := Next(r5, CleanUp({}));
            && Free(run) && Free(r1) && Free(r2) && Free(r3) && Free(r4) && Free(r5)
            && Allowed(run, Taken({x})) && Allowed(r1, Ok) && Allowed(r2, Deadline)
            && Allowed(r3, Fail) && Allowed(r4, Ok) && Allowed(r5, CleanUp({}))
            && r6.mover == Mover(true, false, true) && r6.snaps == Snaps({x}, {})
            && r5.snaps.mounts == {x} && !r5.mover.kept
  {
  }

  lemma Extend(s: State, steps: seq<Step>, t: Step)
    requires Feasible(s, steps) && Enabled(After(s, steps), t)
    ensures Feasible(s, steps + [t]) && After(s, steps + [t]) == Apply(After(s, steps), t)
  {
    hide Enabled, Apply;
    OneStep(After(s, steps), t);
    Compose(s, steps, [t]);
  }

  lemma ExtendFree(s: State, steps: seq<Step>, r: nat, o: Outcome)
    requires Feasible(s, steps) && r < |After(s, steps).runs|
    requires var s1 := After(s, steps);
             Free(s1.runs[r]) && Allowed(s1.runs[r], o) && (o.Taken? ==> o.snaps !! s1.live) && !o.TakeFails?
    ensures Feasible(s, steps + [Go(r, o)])
    ensures var s1, s2 := After(s, steps), After(s, steps + [Go(r, o)]);
            && OthersStay(s1, s2, r) && |s2.runs| == |s1.runs|
            && s2.runs[r] == Next(s1.runs[r], o) && s2.live == LiveAfter(s1, s1.runs[r], o)
  {
    hide Feasible, After, Enabled, Apply, Next, LiveAfter, Free, Allowed;
    FreeStep(After(s, steps), r, o);
    Extend(s, steps, Go(r, o));
  }

  /** When the forced removal of a mover fails, its snapshots are destroyed under it. */
  lemma OrphanLosesSnapshot(x: Snap) returns (jobs: seq<Job>, steps: seq<Step>)
    ensures |jobs| == 1 && Feasible(Init(0, jobs, {}, {}), steps)
    ensures var s := After(Init(0, jobs, {}, {}), steps);
            |s.runs| == 1 && s.runs[0].mover.up && x in s.runs[0].snaps.mounts && x !in s.live
  {
    hide Inv, Feasible, After, Next, Free, Allowed, Undisturbed;
    jobs := [Job(Backup(false), "onsite|app", "app")];
    var s0 := Init(0, jobs, {}, {});
    InitInv(0, jobs, {}, {});
    InitUndisturbed(0, jobs, {}, {}, 0);
    var a := SetUp(s0, 0);
    var s1 := After(s0, a);
    NothingLiveYet(s1);
    OrphaningRun(s1.runs[0], x);
    var o0, o5 := Taken({x}), CleanUp({});
    ExtendFree(s0, a, 0, o0);
    ExtendFree(s0, a + [Go(0, o0)], 0, Ok);
    var b := a + [Go(0, o0)] + [Go(0, Ok)];
    ExtendFree(s0, b, 0, Deadline);
    ExtendFree(s0, b + [Go(0, Deadline)], 0, Fail);
    var d := b + [Go(0, Deadline)] + [Go(0, Fail)];
    ExtendFree(s0, d, 0, Ok);
    ExtendFree(s0, d + [Go(0, Ok)], 0, o5);
    steps := d + [Go(0, Ok)] + [Go(0, o5)];
  }

  lemma NothingLiveYet(s: State)
    requires Inv(s) && |s.runs| == 1 && s.base == {} && s.runs[0].pc.TakeSnaps? && s.runs[0].job.kind == Backup(false)
    ensures s.live == {}
  {
    hide MutexInv, SlotInv, ColdInv;
    var run := s.runs[0];
    assert RunOk(run);
    DefersHave(run.job.kind, run.stack);
    assert Owns(run) == {};
  }

  /** A listing whose mover is lost and cannot be removed: it returns its key all the same. */
  lemma AbandoningRun(run: Run)
    requires run.stack.defers == [RepoKey] && run.pc.SpawnMover? && run.job.kind == ListSnapshots
    ensures var r1 := Next(run, Ok); var r2 := Next(r1, WaitLost); var r3 := Next(r2, Fail); var r4 := Next(r3, Ok);
            && Free(run) && Free(r1) && Free(r2) && Free(r3)
            && Allowed(run, Ok) && Allowed(r1, WaitLost) && Allowed(r2, Fail) && Allowed(r3, Ok)
            && r4.mover == Mover(true, false, true) && r4.pc.Unwind? && r4.stack.defers == [] && r4.job == run.job
  {
    hide PcFits, Depth;
  }

  /** The steps of that run from its spawn on. */
  lemma Abandon(s: State, r: nat) returns (steps: seq<Step>)
    requires Inv(s) && r < |s.runs| && s.runs[r].job.kind == ListSnapshots && s.runs[r].pc.SpawnMover?
    ensures Feasible(s, steps) && Inv(After(s, steps))
    ensures var s2 := After(s, steps);
            && OthersStay(s, s2, r) && s2.runs[r].job == s.runs[r].job
            && s2.runs[r].mover == Mover(true, false, true) && s2.runs[r].pc.Unwind? && s2.runs[r].stack.defers == []
  {
    hide Inv, Feasible, After, Next, Free, Allowed, OthersStay;
    ListingSpawns(s, r);
    AbandoningRun(s.runs[r]);
    Nothing(s);
    ExtendFree(s, [], r, Ok);
    var a := [] + [Go(r, Ok)];
    ExtendFree(s, a, r, WaitLost);
    var b := a + [Go(r, WaitLost)];
    ExtendFree(s, b, r, Fail);
    var d := b + [Go(r, Fail)];
    ExtendFree(s, d, r, Ok);
    steps := d + [Go(r, Ok)];
    StayTwice(s, After(s, a), After(s, b), r);
    StayTwice(s, After(s, b), After(s, d), r);
    StayTwice(s, After(s, d), After(s, steps), r);
    InvAlways(s, steps);
  }

  lemma Nothing(s: State)
    ensures Feasible(s, []) && After(s, []) == s
    ensures forall r: nat :: OthersStay(s, s, r)
  {
  }

  lemma StayTwice(s: State, s1: State, s2: State, r: nat)
    requires OthersStay(s, s1, r) && OthersStay(s1, s2, r)
    ensures OthersStay(s, s2, r)
  {
  }

  /** Two listings of one repository: the mover of the first cannot be removed, so it is
      still up when the second has started its own. */
  lemma OrphanBesideAnother(key: Key) returns (jobs: seq<Job>, steps: seq<Step>)
    ensures Feasible(Init(0, jobs, {}, {}), steps)
    ensures var s := After(Init(0, jobs, {}, {}), steps);
            && |s.runs| == 2 && s.runs[0].job.key == s.runs[1].job.key == key
            && s.runs[0].mover.up && s.runs[1].mover.up && !s.runs[1].mover.orphaned && !s.runs[1].mover.kept
  {
    hide Inv, Feasible, After, Next, Free, Allowed, Undisturbed;
    jobs := [Job(ListSnapshots, key, "app"), Job(ListSnapshots, key, "app")];
    var s0 := Init(0, jobs, {}, {});
    InitInv(0, jobs, {}, {});
    InitUndisturbed(0, jobs, {}, {}, 0);
    var a := SetUp(s0, 0);
    var s1 := After(s0, a);
    ListingSpawns(s1, 0);
    var b := Abandon(s1, 0);
    Compose(s0, a, b);
    var s2 := After(s1, b);
    AloneAgain(s2);
    var d := StartAlone(s2, 1);
    Compose(s0, a + b, d);
    steps := a + b + d;
  }

  /** A listing nobody is in the way of gets its mover up. */
  lemma StartAlone(s: State, r: nat) returns (steps: seq<Step>)
    requires Inv(s) && Undisturbed(s, r) && s.runs[r].pc.Begin? && s.runs[r].job.kind == ListSnapshots
    ensures Feasible(s, steps) && Inv(After(s, steps))
    ensures var s2 := After(s, steps);
            && OthersStay(s, s2, r) && s2.runs[r].job == s.runs[r].job
            && s2.runs[r].mover == Mover(true, false, false) && s2.runs[r].pc.AwaitMover?
  {
    hide Inv, Feasible, After, Next, Free, Allowed;
    var a := SetUp(s, r);
    var s1 := After(s, a);
    ListingSpawns(s1, r);
    SpawnSucceeds(s1.runs[r]);
    ExtendFree(s, a, r, Ok);
    steps := a + [Go(r, Ok)];
    InvAlways(s, steps);
  }

  lemma ListingSpawns(s: State, r: nat)
    requires Inv(s) && r < |s.runs| && s.runs[r].job.kind == ListSnapshots
    requires s.runs[r].pc.TakeSnaps? || s.runs[r].pc.SpawnMover?
    ensures s.runs[r].pc.SpawnMover? && s.runs[r].stack.defers == [RepoKey]
  {
    hide MutexInv, SlotInv, ColdInv, SnapInv, MoverOk, StackOk;
    assert RunOk(s.runs[r]);
    OneDefer(s.runs[r]);
  }

  lemma OneDefer(run: Run)
    requires StackOk(run) && run.job.kind == ListSnapshots && (run.pc.TakeSnaps? || run.pc.SpawnMover?)
    ensures run.pc.SpawnMover? && run.stack.defers == [RepoKey]
  {
    hide ChainOk;
    PopChain(ListSnapshots, run.stack);
  }

  lemma SpawnSucceeds(run: Run)
    requires run.pc.SpawnMover?
    ensures Free(run) && Allowed(run, Ok) && Next(run, Ok).mover == Mover(true, false, false)
    ensures Next(run, Ok).job == run.job && Next(run, Ok).pc.AwaitMover?
  {
  }

  /** Under different keys two movers run at once. */
  lemma TwoMovers(k: Key, l: Key) returns (jobs: seq<Job>, steps: seq<Step>)
    requires k != l
    ensures Feasible(Init(0, jobs, {}, {}), steps)
    ensures var s := After(Init(0, jobs, {}, {}), steps);
            && |s.runs| == 2 && s.runs[0].job.key == k && s.runs[1].job.key == l
            && s.runs[0].mover == s.runs[1].mover == Mover(true, false, false)
  {
    hide Inv, Feasible, After, Undisturbed;
    jobs := [Job(ListSnapshots, k, "app"), Job(ListSnapshots, l, "app")];
    var s0 := Init(0, jobs, {}, {});
    InitInv(0, jobs, {}, {});
    InitUndisturbed(0, jobs, {}, {}, 0);
    var a := StartAlone(s0, 0);
    var s1 := After(s0, a);
    OtherKeyUndisturbed(s1);
    var b := StartAlone(s1, 1);
    Compose(s0, a, b);
    steps := a + b;
  }

  lemma OtherKeyUndisturbed(s: State)
    requires |s.runs| == 2 && s.max == 0 && s.runs[0].pc.AwaitMover? && s.runs[0].job.key != s.runs[1].job.key
    ensures Undisturbed(s, 1)
  {
  }

  lemma AloneAgain(s: State)
    requires |s.runs| == 2 && s.max == 0 && s.runs[0].pc.Unwind? && s.runs[0].stack.defers == []
    requires s.runs[1].pc.Begin? && s.runs[1].stack.defers == []
    ensures Undisturbed(s, 1)
  {
  }
}
