/**
 Which apps are down, in every state and so at every moment the process may die.
 On Docker nothing recovers them: a crash leaves stopped exactly the apps that
 some run was holding, as long as no stop or start misbehaved.
 */
module OrchestratorStopped {
  import opened Lists
  import opened Orchestrator
  import opened OrchestratorInvariant
  import opened OrchestratorTheorems
  import opened OrchestratorCold

  /** The run has stopped its app, or counted itself as a holder, and not given it back. */
  predicate HoldsApp(run: Run) {
    ColdHold in run.stack.defers || DirectStop in run.stack.defers
  }

  ghost predicate HeldBut(s: State, c: Container, r: int) {
    exists q: nat :: q < |s.runs| && q != r && s.runs[q].job.container == c && HoldsApp(s.runs[q])
  }

  ghost predicate Held(s: State, c: Container) {
    HeldBut(s, c, -1)
  }

  predicate StopsApp(k: Kind) {
    k == Backup(true) || k == Restore(true)
  }

  /** No stopping restore shares the container with another stopping run under another key. */
  ghost predicate NoRivals(jobs: seq<Job>, c: Container) {
    forall i: nat, j: nat | i < |jobs| && j < |jobs| && i != j ::
      jobs[i].container == c && jobs[j].container == c && jobs[i].kind == Restore(true) && StopsApp(jobs[j].kind) ==>
        jobs[i].key == jobs[j].key
  }

  ghost function Jobs(s: State): seq<Job> {
    seq(|s.runs|, i requires 0 <= i < |s.runs| => s.runs[i].job)
  }

  /** A start that fails, or a stop that fails and takes effect all the same. */
  predicate Misbehaves(run: Run, o: Outcome) {
    || (o.StopFails? && o.nowStopped)
    || (run.pc.InColdBack? && o == Fail)
    || (run.pc.Unwind? && Top(run) == Some(DirectStop) && o == Fail)
  }

  predicate CalmStep(s: State, t: Step, c: Container)
    requires Enabled(s, t)
  {
    t.Go? && s.runs[t.r].job.container == c ==> !Misbehaves(s.runs[t.r], t.o)
  }

  /** No stop or start of the container misbehaves during the execution. */
  predicate Calm(s: State, steps: seq<Step>, c: Container)
    requires Feasible(s, steps)
    decreases |steps|
  {
    steps == [] || (CalmStep(s, steps[0], c) && Calm(Apply(s, steps[0]), steps[1..], c))
  }

  // ------------------------------------------------------------ one run

  /** Holding the app, read off the length of the defer stack. */
  predicate Deep(run: Run) {
    || (run.job.kind == Backup(true) && |run.stack.defers| >= 3)
    || (run.job.kind == Restore(true) && |run.stack.defers| >= 2)
  }

  lemma HoldsAppIsDeep(run: Run)
    requires RunOk(run)
    ensures HoldsApp(run) <==> Deep(run)
    ensures HoldsApp(run) ==> StopsApp(run.job.kind) && run.stack.defers != []
    ensures Top(run) == Some(DirectStop) <==> run.job.kind == Restore(true) && |run.stack.defers| == 2
  {
    hide PlaceOk, MoverOk, ChainOk, Top;
    DefersHave(run.job.kind, run.stack);
    DirectByDepth(run.job.kind, run.stack);
    DirectOnTop(run);
  }

  lemma DirectByDepth(k: Kind, st: Stack)
    requires ChainOk(k, st)
    ensures DirectStop in st.defers <==> k == Restore(true) && |st.defers| >= 2
  {
    var d, f := st.defers, FullStack(k);
    assert forall i | 0 <= i < |d| :: d[i] == st.acquired[i] == f[i];
    if |d| >= 2 {
      assert d[1] == f[1];
    }
  }

  lemma DirectOnTop(run: Run)
    requires ChainOk(run.job.kind, run.stack)
    ensures Top(run) == Some(DirectStop) <==> run.job.kind == Restore(true) && |run.stack.defers| == 2
  {
    if run.stack.defers != [] {
      PopChain(run.job.kind, run.stack);
      DefersHave(run.job.kind, run.stack);
    }
  }

  lemma NextStoppedUp(s: State, run: Run, o: Outcome, others: bool)
    requires PlaceOk(run) && Allowed(run, o) && Agrees(s, run, o) && !Misbehaves(run, o) && Ascending(run.pc)
    requires run.job.container in s.stopped <==> Deep(run) || others
    requires Refs(s, run.job.container) > 0 ==> Deep(run) || others
    requires Refs(s, run.job.container) >= 0
    ensures run.job.container in StoppedAfter(s, run, o) <==> Deep(Next(run, o)) || others
  {
  }

  lemma NextStoppedDown(s: State, run: Run, o: Outcome, others: bool)
    requires PlaceOk(run) && Allowed(run, o) && !Misbehaves(run, o) && !Ascending(run.pc)
    requires Top(run) == Some(ColdHold) <==> run.job.kind == Backup(true) && |run.stack.defers| == 3
    requires Top(run) == Some(DirectStop) <==> run.job.kind == Restore(true) && |run.stack.defers| == 2
    requires run.job.container in s.stopped <==> Deep(run) || others
    requires run.pc.InColdBack? ==> (Refs(s, run.job.container) == 1 <==> !others)
    requires run.pc.Unwind? && Top(run) == Some(DirectStop) ==> !others
    ensures run.job.container in StoppedAfter(s, run, o) <==> Deep(Next(run, o)) || others
  {
  }

  lemma OtherContainers(s: State, run: Run, o: Outcome, c: Container)
    requires c != run.job.container
    ensures c in StoppedAfter(s, run, o) <==> c in s.stopped
  {
  }

  // --------------------------------------------------------- one step of it

  /** While a run gives back an app nobody else counts on, nobody else holds it. */
  lemma RivalsExcluded(s: State, r: nat)
    requires Inv(s) && r < |s.runs| && NoRivals(Jobs(s), s.runs[r].job.container)
    requires s.runs[r].job.kind == Restore(true) && s.runs[r].stack.defers != []
    ensures !HeldBut(s, s.runs[r].job.container, r)
  {
    hide MutexInv, SlotInv, ColdInv, SnapInv, HoldsApp, RunOk;
    var jobs := Jobs(s);
    forall q: nat | q < |s.runs| && q != r && s.runs[q].job.container == s.runs[r].job.container
      ensures !HoldsApp(s.runs[q])
    {
      assert RunOk(s.runs[q]);
      HoldsAppIsDeep(s.runs[q]);
      assert jobs[q] == s.runs[q].job && jobs[r] == s.runs[r].job;
      if HoldsApp(s.runs[q]) {
        KeysDiffer(s, q, r);
      }
    }
  }

  /** A cold backup is the last holder exactly when nobody else holds the app. */
  lemma LastHolder(s: State, r: nat)
    requires Inv(s) && r < |s.runs| && NoRivals(Jobs(s), s.runs[r].job.container)
    requires s.runs[r].job.kind == Backup(true) && |s.runs[r].stack.defers| == 3
    ensures Refs(s, s.runs[r].job.container) == 1 <==> !HeldBut(s, s.runs[r].job.container, r)
  {
    hide MutexInv, SlotInv, SnapInv, MoverOk, PlaceOk;
    var c := s.runs[r].job.container;
    var holders := ColdHolders(s.runs, c);
    assert RunOk(s.runs[r]);
    DefersHave(s.runs[r].job.kind, s.runs[r].stack);
    assert r in holders;
    if holders == {r} {
      NoOtherHolder(s, r);
    } else {
      assert holders != {r} && |holders| != 1 by {
        SingleMember(holders, r);
      }
      var q :| q in holders && q != r;
      assert HoldsApp(s.runs[q]);
    }
  }

  lemma SingleMember(a: set<nat>, r: nat)
    requires r in a && a != {r}
    ensures |a| > 1 && exists q :: q in a && q != r
  {
    assert a == {r} + (a - {r});
    assert a - {r} != {};
  }

  lemma NoOtherHolder(s: State, r: nat)
    requires Inv(s) && r < |s.runs| && NoRivals(Jobs(s), s.runs[r].job.container)
    requires s.runs[r].job.kind == Backup(true) && s.runs[r].stack.defers != []
    requires ColdHolders(s.runs, s.runs[r].job.container) == {r}
    ensures !HeldBut(s, s.runs[r].job.container, r)
  {
    hide MutexInv, SlotInv, SnapInv, ColdInv, RunOk;
    var jobs := Jobs(s);
    forall q: nat | q < |s.runs| && q != r && s.runs[q].job.container == s.runs[r].job.container
      ensures !HoldsApp(s.runs[q])
    {
      assert q !in ColdHolders(s.runs, s.runs[r].job.container);
      assert RunOk(s.runs[q]);
      HoldsAppIsDeep(s.runs[q]);
      assert jobs[q] == s.runs[q].job && jobs[r] == s.runs[r].job;
      if DirectStop in s.runs[q].stack.defers {
        DirectMeansRestore(s.runs[q]);
        KeysDiffer(s, q, r);
      }
    }
  }

  lemma DirectMeansRestore(run: Run)
    requires RunOk(run) && DirectStop in run.stack.defers
    ensures run.job.kind == Restore(true) && run.stack.defers != []
  {
    hide PlaceOk, MoverOk;
    var d := run.stack.defers;
    var i :| 0 <= i < |d| && d[i] == DirectStop;
    assert d[i] == run.stack.acquired[i] == FullStack(run.job.kind)[i];
  }

  ghost predicate DownExactly(s: State, c: Container) {
    c in s.stopped <==> Held(s, c)
  }

  lemma HeldSplits(s: State, c: Container, r: nat)
    requires r < |s.runs|
    ensures Held(s, c) <==> HeldBut(s, c, r) || (s.runs[r].job.container == c && HoldsApp(s.runs[r]))
  {
  }

  lemma OthersUnmoved(s: State, s2: State, c: Container, r: nat)
    requires OneRun(s, s2, r)
    ensures HeldBut(s2, c, r) <==> HeldBut(s, c, r)
  {
    hide HoldsApp;
    forall q: nat | q < |s.runs| && q != r ensures s2.runs[q] == s.runs[q] {
    }
  }

  lemma RefsMeanHeld(s: State, c: Container)
    requires Inv(s)
    ensures Refs(s, c) >= 0 && (Refs(s, c) > 0 ==> Held(s, c))
  {
    hide RunsOk, MutexInv, SlotInv, SnapInv;
    if Refs(s, c) > 0 {
      assert ColdHolders(s.runs, c) != {};
      var q :| q in ColdHolders(s.runs, c);
      assert HoldsApp(s.runs[q]);
    }
  }

  /** The step of a run on its own container. */
  lemma OwnStep(s: State, r: nat, o: Outcome)
    requires Inv(s) && Enabled(s, Go(r, o)) && !Misbehaves(s.runs[r], o)
    requires NoRivals(Jobs(s), s.runs[r].job.container) && DownExactly(s, s.runs[r].job.container)
    ensures s.runs[r].job.container in StoppedAfter(s, s.runs[r], o) <==>
            Deep(Next(s.runs[r], o)) || HeldBut(s, s.runs[r].job.container, r)
  {
    hide MutexInv, SlotInv, ColdInv, SnapInv, MoverOk, PlaceOk, ChainOk, HeldBut, StoppedAfter, Next,
         NoRivals, Misbehaves, Allowed, Agrees, Guard, Refs, Top;
    var run := s.runs[r];
    var c := run.job.container;
    assert RunOk(run);
    HoldsAppIsDeep(run);
    HeldSplits(s, c, r);
    RefsMeanHeld(s, c);
    if Ascending(run.pc) {
      NextStoppedUp(s, run, o, HeldBut(s, c, r));
    } else {
      TopIs(run);
      if run.job.kind == Restore(true) && run.stack.defers != [] {
        RivalsExcluded(s, r);
      }
      if run.job.kind == Backup(true) && |run.stack.defers| == 3 {
        LastHolder(s, r);
      }
      BackIsCold(run);
      NextStoppedDown(s, run, o, HeldBut(s, c, r));
    }
  }

  lemma BackIsCold(run: Run)
    requires PlaceOk(run)
    ensures run.pc.InColdBack? ==> run.job.kind == Backup(true) && |run.stack.defers| == 3
  {
  }

  lemma StepKeepsDownExactly(s: State, t: Step, c: Container)
    requires Inv(s) && Enabled(s, t) && CalmStep(s, t, c) && NoRivals(Jobs(s), c) && DownExactly(s, c)
    ensures DownExactly(Apply(s, t), c)
  {
    hide MutexInv, SlotInv, ColdInv, SnapInv, RunOk, HeldBut, StoppedAfter, Next, NoRivals, Misbehaves,
         Allowed, Agrees, Guard, HeldAfter, RefsAfter, LiveAfter, ColdCalls, SlotsAfter, HoldsApp, Deep;
    var s2, r := Apply(s, t), t.r;
    var run := s.runs[r];
    OthersUnmoved(s, s2, c, r);
    HeldSplits(s, c, r);
    HeldSplits(s2, c, r);
    if t.Go? {
      StepRun(s, r, t.o);
      assert RunOk(s2.runs[r]);
      HoldsAppIsDeep(s2.runs[r]);
      if run.job.container == c {
        OwnStep(s, r, t.o);
      } else {
        OtherContainers(s, run, t.o, c);
      }
    } else {
      SameStack(run, s2.runs[r]);
    }
  }

  lemma SameStack(a: Run, b: Run)
    requires a.stack == b.stack
    ensures HoldsApp(a) <==> HoldsApp(b)
  {
  }

  lemma {:induction false} DownAlways(s: State, steps: seq<Step>, c: Container)
    requires Inv(s) && Feasible(s, steps) && Calm(s, steps, c) && NoRivals(Jobs(s), c) && DownExactly(s, c)
    ensures DownExactly(After(s, steps), c)
    decreases |steps|
  {
    hide Inv, Enabled, Apply, DownExactly, NoRivals, CalmStep;
    if steps != [] {
      var t := steps[0];
      StepKeepsInv(s, t);
      StepKeepsDownExactly(s, t, c);
      JobsStay(s, t);
      DownAlways(Apply(s, t), steps[1..], c);
    }
  }

  lemma JobsStay(s: State, t: Step)
    requires Inv(s) && Enabled(s, t)
    ensures Jobs(Apply(s, t)) == Jobs(s)
  {
    hide RunsOk, MutexInv, SlotInv, ColdInv, SnapInv, Enabled, Apply;
    StepKeepsJobs(s, t);
  }

  /** In every state of every execution an app that was up is down exactly while some run
      holds it: what a crash at that moment leaves stopped. The execution must be free of
      misbehaving stops and starts and of rival restores of the app. */
  lemma StoppedExactlyWhileHeld(max: int, jobs: seq<Job>, stopped: set<Container>, base: set<Snap>,
                                steps: seq<Step>, c: Container)
    requires Feasible(Init(max, jobs, stopped, base), steps) && Calm(Init(max, jobs, stopped, base), steps, c)
    requires NoRivals(jobs, c) && c !in stopped
    ensures var s := After(Init(max, jobs, stopped, base), steps);
            c in s.stopped <==> Held(s, c)
  {
    hide Inv, Feasible, After, Calm, NoRivals;
    var s0 := Init(max, jobs, stopped, base);
    InitInv(max, jobs, stopped, base);
    assert Jobs(s0) == jobs;
    assert DownExactly(s0, c);
    DownAlways(s0, steps, c);
  }
}
