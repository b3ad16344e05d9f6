/**
 Neither condition on the apps a crash leaves stopped can be dropped: over calm
 executions they are the held ones exactly when no restore has a rival, and over
 all executions exactly when no run stops the app at all.
 */
module OrchestratorStranded {
  import opened Lists
  import opened Orchestrator
  import opened OrchestratorInvariant
  import opened OrchestratorTheorems
  import opened OrchestratorCold
  import opened OrchestratorStopped
  import opened OrchestratorWitness

  /** In every calm execution the app is down exactly while it is held. */
  ghost predicate ExactWhenCalm(jobs: seq<Job>, c: Container) {
    forall max, stopped, base, steps |
      c !in stopped && Feasible(Init(max, jobs, stopped, base), steps) &&
      Calm(Init(max, jobs, stopped, base), steps, c) ::
      DownExactly(After(Init(max, jobs, stopped, base), steps), c)
  }

  /** In every execution it is. */
  ghost predicate ExactAlways(jobs: seq<Job>, c: Container) {
    forall max, stopped, base, steps | c !in stopped && Feasible(Init(max, jobs, stopped, base), steps) ::
      DownExactly(After(Init(max, jobs, stopped, base), steps), c)
  }

  predicate NobodyStops(jobs: seq<Job>, c: Container) {
    forall i | 0 <= i < |jobs| :: jobs[i].container == c ==> !StopsApp(jobs[i].kind)
  }

  // ------------------------------------------------------- calm executions

  lemma {:induction false} CalmTogether(s: State, a: seq<Step>, b: seq<Step>, c: Container)
    requires Feasible(s, a) && Feasible(After(s, a), b) && Feasible(s, a + b)
    requires Calm(s, a, c) && Calm(After(s, a), b, c)
    ensures Calm(s, a + b, c)
    decreases |a|
  {
    hide Enabled, Apply, CalmStep;
    if a == [] {
      assert a + b == b;
    } else {
      assert (a + b)[1..] == a[1..] + b;
      CalmTogether(Apply(s, a[0]), a[1..], b, c);
    }
  }

  lemma {:induction false} CalmIfOk(s: State, steps: seq<Step>, c: Container)
    requires Feasible(s, steps) && forall t | t in steps :: t.Go? && t.o == Ok
    ensures Calm(s, steps, c)
    decreases |steps|
  {
    hide Enabled, Apply;
    if steps != [] {
      assert steps[0] in steps;
      CalmIfOk(Apply(s, steps[0]), steps[1..], c);
    }
  }

  /** A run set up to take snapshots or to spawn its mover holds its app. */
  lemma SetUpHolds(s: State, i: nat)
    requires Inv(s) && i < |s.runs| && StopsApp(s.runs[i].job.kind)
    requires s.runs[i].pc.TakeSnaps? || s.runs[i].pc.SpawnMover?
    ensures HoldsApp(s.runs[i])
  {
    hide Inv;
    if s.runs[i].job.kind == Backup(true) {
      SetUpBackupHolds(s, i);
    } else {
      RestoreStack(s, i);
      TopIsDeferred(s.runs[i], DirectStop);
    }
  }

  lemma TopIsDeferred(run: Run, res: Resource)
    requires Top(run) == Some(res)
    ensures res in run.stack.defers
  {
  }

  /** The restore's mover cannot be spawned and the app is restarted: both calls behave. */
  lemma RestoreFailsCalmly(s: State, j: nat, c: Container)
    requires Feasible(s, [Go(j, Fail), Go(j, Ok)]) && j < |s.runs| && s.runs[j].pc.SpawnMover?
    ensures Calm(s, [Go(j, Fail), Go(j, Ok)], c)
  {
    hide Next, HeldAfter, RefsAfter, StoppedAfter, LiveAfter, ColdCalls, SlotsAfter;
    var t, u := Go(j, Fail), Go(j, Ok);
    assert [t, u][1..] == [u] && [u][1..] == [];
    assert CalmStep(s, t, c);
    var s1 := Apply(s, t);
    CalmIfOk(s1, [u], c);
  }

  /** With a rival: the first run holds the app, the restore stops and restarts it. */
  lemma RivalRestarts(jobs: seq<Job>, c: Container, i: nat, j: nat)
    requires i < |jobs| && j < |jobs| && i != j && jobs[i].container == c && jobs[j].container == c
    requires jobs[i].kind == Restore(true) && StopsApp(jobs[j].kind) && jobs[i].key != jobs[j].key
    ensures !ExactWhenCalm(jobs, c)
  {
    hide Inv, Feasible, After, Apply, Enabled, Calm, Undisturbed, HoldsApp, DownExactly;
    var s0 := Init(0, jobs, {}, {});
    InitInv(0, jobs, {}, {});
    InitUndisturbed(0, jobs, {}, {}, j);
    var a := SetUp(s0, j);
    var s1 := After(s0, a);
    SetUpHolds(s1, j);
    SecondUnhindered(s1, j, i);
    var b := SetUp(s1, i);
    var s2 := After(s1, b);
    RestoreStack(s2, i);
    RestoreFails(s2, i);
    var d := [Go(i, Fail), Go(i, Ok)];
    Compose(s0, a, b);
    Compose(s0, a + b, d);
    CalmIfOk(s0, a, c);
    CalmIfOk(s1, b, c);
    CalmTogether(s0, a, b, c);
    RestoreFailsCalmly(s2, i, c);
    CalmTogether(s0, a + b, d, c);
    HeldYetUp(After(s0, a + b + d), j, c);
  }

  lemma HeldYetUp(s: State, j: nat, c: Container)
    requires j < |s.runs| && HoldsApp(s.runs[j]) && s.runs[j].job.container == c && c !in s.stopped
    ensures !DownExactly(s, c)
  {
    hide HoldsApp;
  }

  /** One run is set up, all others have not begun, and there is no semaphore. */
  lemma SecondUnhindered(s: State, j: nat, i: nat)
    requires j < |s.runs| && i < |s.runs| && i != j && s.max == 0
    requires s.runs[j].pc.TakeSnaps? || s.runs[j].pc.SpawnMover?
    requires s.runs[j].job.key != s.runs[i].job.key
    requires forall q: nat | q < |s.runs| && q != j :: s.runs[q].pc.Begin? && s.runs[q].stack.defers == []
    ensures Undisturbed(s, i)
  {
  }

  /** Over calm executions the apps that are down are the held ones exactly when no stopping
      restore shares the container with another stopping run under another key. */
  lemma CalmExactly(jobs: seq<Job>, c: Container)
    ensures ExactWhenCalm(jobs, c) <==> NoRivals(jobs, c)
  {
    hide Feasible, After, Calm;
    if NoRivals(jobs, c) {
      forall max, stopped, base, steps |
        c !in stopped && Feasible(Init(max, jobs, stopped, base), steps) &&
        Calm(Init(max, jobs, stopped, base), steps, c)
        ensures DownExactly(After(Init(max, jobs, stopped, base), steps), c)
      {
        StoppedExactlyWhileHeld(max, jobs, stopped, base, steps, c);
      }
    } else {
      var i: nat, j: nat :| i < |jobs| && j < |jobs| && i != j && jobs[i].container == c && jobs[j].container == c &&
        jobs[i].kind == Restore(true) && StopsApp(jobs[j].kind) && jobs[i].key != jobs[j].key;
      RivalRestarts(jobs, c, i, j);
    }
  }

  // --------------------------------------------------------- all executions

  /** A run that does not stop its app cannot misbehave. */
  lemma NothingToMisbehave(run: Run, o: Outcome)
    requires StackOk(run) && Allowed(run, o) && !StopsApp(run.job.kind)
    ensures !Misbehaves(run, o)
  {
    DirectOnTop(run);
  }

  lemma {:induction false} CalmIfNobodyStops(s: State, steps: seq<Step>, c: Container)
    requires Inv(s) && Feasible(s, steps) && NobodyStops(Jobs(s), c)
    ensures Calm(s, steps, c)
    decreases |steps|
  {
    hide MutexInv, SlotInv, ColdInv, SnapInv, Misbehaves, StackOk, MoverOk, Apply, Allowed, Agrees, Guard, StopsApp;
    if steps != [] {
      var t := steps[0];
      if t.Go? {
        assert RunOk(s.runs[t.r]);
        assert Jobs(s)[t.r] == s.runs[t.r].job;
        if s.runs[t.r].job.container == c {
          NothingToMisbehave(s.runs[t.r], t.o);
        }
      }
      StepKeepsInv(s, t);
      JobsStay(s, t);
      CalmIfNobodyStops(Apply(s, t), steps[1..], c);
    }
  }

  /** A stopping restore whose mover cannot be spawned and whose app cannot be restarted. */
  lemma RestoreStrands(s: State, j: nat) returns (steps: seq<Step>)
    requires Inv(s) && j < |s.runs| && s.runs[j].job.kind == Restore(true) && s.runs[j].pc.SpawnMover?
    ensures Feasible(s, steps)
    ensures var s2 := After(s, steps);
            && OthersStay(s, s2, j) && s2.stopped == s.stopped
            && s2.runs[j].job == s.runs[j].job && !HoldsApp(s2.runs[j])
  {
    hide Inv, Feasible, After, Apply, Enabled, HoldsApp;
    var t := Go(j, Fail);
    RestoreStack(s, j);
    SpawnFails(s, j);
    var s1 := Apply(s, t);
    StepKeepsInv(s, t);
    RestartFailsToo(s1, j);
    OneStep(s, t);
    OneStep(s1, t);
    Compose(s, [t], [t]);
    steps := [t] + [t];
  }

  lemma RestartFailsToo(s: State, j: nat)
    requires Inv(s) && j < |s.runs| && s.runs[j].pc.Unwind? && Top(s.runs[j]) == Some(DirectStop)
    ensures Enabled(s, Go(j, Fail))
    ensures var s2 := Apply(s, Go(j, Fail));
            && OthersStay(s, s2, j) && s2.stopped == s.stopped && s2.runs[j] == Pop(s.runs[j])
            && !HoldsApp(s2.runs[j])
  {
    hide RunsOk, MutexInv, SlotInv, ColdInv, SnapInv, Next, HoldsApp;
    RunOkAt(s, j);
    UnwindFails(s, j);
    StepRun(s, j, Fail);
    RunOkAt(Apply(s, Go(j, Fail)), j);
    HoldsAppIsDeep(s.runs[j]);
    HoldsAppIsDeep(Apply(s, Go(j, Fail)).runs[j]);
  }

  lemma UnwindFails(s: State, j: nat)
    requires j < |s.runs| && s.runs[j].pc.Unwind? && Top(s.runs[j]) == Some(DirectStop)
    ensures Enabled(s, Go(j, Fail))
    ensures var s2 := Apply(s, Go(j, Fail));
            OthersStay(s, s2, j) && s2.stopped == s.stopped && s2.runs[j] == Pop(s.runs[j])
  {
  }

  /** A cold backup whose snapshot fails and whose app cannot be restarted. */
  lemma BackupStrands(s: State, i: nat) returns (steps: seq<Step>)
    requires Inv(s) && i < |s.runs| && s.runs[i].job.kind == Backup(true) && s.runs[i].pc.TakeSnaps?
    requires forall q: nat | q < |s.runs| && q != i :: s.runs[q].pc.Begin?
    ensures Feasible(s, steps)
    ensures var s2 := After(s, steps);
            && OthersStay(s, s2, i) && s2.stopped == s.stopped
            && s2.runs[i].job == s.runs[i].job && !HoldsApp(s2.runs[i])
  {
    hide Inv, Feasible, After, HoldsApp;
    HoldsAlone(s, i);
    steps := ColdRunFails(s, i);
    UncountedHoldsNothing(After(s, steps), i);
  }

  lemma UncountedHoldsNothing(s: State, i: nat)
    requires Inv(s) && i < |s.runs| && s.runs[i].job.kind == Backup(true) && Refs(s, s.runs[i].job.container) == 0
    ensures !HoldsApp(s.runs[i])
  {
    hide MutexInv, SlotInv, SnapInv, StackOk, MoverOk;
    var c := s.runs[i].job.container;
    assert RunOk(s.runs[i]);
    assert ColdHolders(s.runs, c) == {};
    assert i !in ColdHolders(s.runs, c);
    if DirectStop in s.runs[i].stack.defers {
      DirectMeansRestore(s.runs[i]);
    }
  }

  lemma NobodyHolds(s: State, i: nat, c: Container)
    requires Inv(s) && i < |s.runs| && !HoldsApp(s.runs[i])
    requires forall q: nat | q < |s.runs| && q != i :: s.runs[q].pc.Begin?
    ensures !Held(s, c)
  {
    hide MutexInv, SlotInv, ColdInv, SnapInv, RunOk;
    forall q: nat | q < |s.runs| ensures !HoldsApp(s.runs[q]) {
      if q != i {
        assert RunOk(s.runs[q]);
        NothingPushedYet(s.runs[q]);
      }
    }
  }

  /** A run that stops the app and fails to restart it leaves it down and unheld. */
  lemma StopperStrands(jobs: seq<Job>, c: Container, i: nat)
    requires i < |jobs| && jobs[i].container == c && StopsApp(jobs[i].kind)
    ensures !ExactAlways(jobs, c)
  {
    hide Inv, Feasible, After, Apply, Enabled, Undisturbed, HoldsApp;
    var s0 := Init(0, jobs, {}, {});
    InitInv(0, jobs, {}, {});
    InitUndisturbed(0, jobs, {}, {}, i);
    var a := SetUp(s0, i);
    var s1 := After(s0, a);
    SetUpHolds(s1, i);
    var b: seq<Step>;
    if jobs[i].kind == Backup(true) {
      b := BackupStrands(s1, i);
    } else {
      RestoreStack(s1, i);
      b := RestoreStrands(s1, i);
    }
    InvAlways(s1, b);
    NobodyHolds(After(s1, b), i, c);
    Compose(s0, a, b);
    assert Held(s1, c);
    assert c !in s1.stopped || !DownExactly(After(s0, a + b), c);
    assert c !in s1.stopped ==> !DownExactly(After(s0, a), c);
  }

  /** Over all executions, misbehaving calls included, they are exactly when no run stops the
      app at all. */
  lemma AlwaysExactly(jobs: seq<Job>, c: Container)
    ensures ExactAlways(jobs, c) <==> NobodyStops(jobs, c)
  {
    hide Feasible, After, Calm, Inv;
    if NobodyStops(jobs, c) {
      forall max, stopped, base, steps | c !in stopped && Feasible(Init(max, jobs, stopped, base), steps)
        ensures DownExactly(After(Init(max, jobs, stopped, base), steps), c)
      {
        var s0 := Init(max, jobs, stopped, base);
        InitInv(max, jobs, stopped, base);
        assert Jobs(s0) == jobs;
        CalmIfNobodyStops(s0, steps, c);
        StoppedExactlyWhileHeld(max, jobs, stopped, base, steps, c);
      }
    } else {
      var i :| 0 <= i < |jobs| && jobs[i].container == c && StopsApp(jobs[i].kind);
      StopperStrands(jobs, c, i);
    }
  }
}
