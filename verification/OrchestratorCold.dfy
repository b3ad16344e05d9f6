/**
 The cold-stop coordination over every interleaving: what the reference count
 means, when a held container is down, and how stops and starts alternate.
 */
module OrchestratorCold {
  import opened Lists
  import opened Orchestrator
  import opened OrchestratorInvariant
  import opened OrchestratorTheorems

  /** refs is the number of runs between a successful hold and their release. */
  lemma RefsCountHolders(s: State, c: Container)
    requires Reachable(s)
    ensures Refs(s, c) == |ColdHolders(s.runs, c)| >= 0
  {
    ReachableInv(s);
  }

  // ------------------------------------------------- held containers are down

  predicate Crossing(backup: Job, restore: Job) {
    backup.kind == Backup(true) && restore.kind == Restore(true) && backup.container == restore.container
  }

  /** A restore that stops the app calls the quiescer directly. It can restart a container
      under a cold backup unless both use the same repository key. */
  ghost predicate NoCrossRestore(runs: seq<Run>) {
    forall i: nat, j: nat | i < |runs| && j < |runs| ::
      Crossing(runs[i].job, runs[j].job) ==> runs[i].job.key == runs[j].job.key
  }

  ghost predicate DownWhileHeld(s: State) {
    forall c :: Refs(s, c) > 0 ==> c in s.stopped
  }

  lemma KeysDiffer(s: State, q: nat, r: nat)
    requires MutexInv(s) && q < |s.runs| && r < |s.runs| && q != r
    requires s.runs[q].stack.defers != [] && s.runs[r].stack.defers != []
    ensures s.runs[q].job.key != s.runs[r].job.key
  {
    assert Holds(s.runs[q]) !! Holds(s.runs[r]);
    assert KeyMu(s.runs[q].job.key) in Holds(s.runs[q]);
    assert KeyMu(s.runs[r].job.key) in Holds(s.runs[r]);
  }

  /** A restore about to restart its app: no cold backup holds the container. */
  lemma RestoreFindsNoHolder(s: State, r: nat)
    requires Inv(s) && NoCrossRestore(s.runs) && r < |s.runs|
    requires s.runs[r].job.kind == Restore(true) && s.runs[r].stack.defers != []
    ensures Refs(s, s.runs[r].job.container) == 0
  {
    hide SlotInv, SnapInv, MutexInv;
    var c := s.runs[r].job.container;
    forall q: nat | q < |s.runs| && s.runs[q].job.container == c
      ensures ColdHold !in s.runs[q].stack.defers
    {
      assert RunOk(s.runs[q]);
      DefersHave(s.runs[q].job.kind, s.runs[q].stack);
      if q != r && s.runs[q].stack.defers != [] {
        KeysDiffer(s, q, r);
      }
    }
    assert ColdHolders(s.runs, c) == {};
  }

  lemma NextDown(s: State, run: Run, o: Outcome, c: Container)
    requires Allowed(run, o) && Agrees(s, run, o)
    requires DownWhileHeld(s)
    requires run.pc.Unwind? && Top(run) == Some(DirectStop) ==> Refs(s, run.job.container) == 0
    ensures CountIn(RefsAfter(s, run, o), c) > 0 ==> c in StoppedAfter(s, run, o)
  {
    hide Next;
  }

  lemma DirectStopIsRestore(run: Run)
    requires ChainOk(run.job.kind, run.stack) && Top(run) == Some(DirectStop)
    ensures run.job.kind == Restore(true) && run.stack.defers != []
  {
    PopChain(run.job.kind, run.stack);
  }

  lemma StepKeepsDown(s: State, t: Step)
    requires Inv(s) && NoCrossRestore(s.runs) && DownWhileHeld(s) && Enabled(s, t)
    ensures DownWhileHeld(Apply(s, t))
  {
    hide MutexInv, SlotInv, ColdInv, SnapInv, Next, RefsAfter, StoppedAfter, MoverOk, PlaceOk, ChainOk,
         Allowed, Agrees, Guard, HeldAfter, LiveAfter, ColdCalls;
    if t.Go? {
      var run := s.runs[t.r];
      assert RunOk(run);
      if run.pc.Unwind? && Top(run) == Some(DirectStop) {
        DirectStopIsRestore(run);
        RestoreFindsNoHolder(s, t.r);
      }
      forall c ensures CountIn(RefsAfter(s, run, t.o), c) > 0 ==> c in StoppedAfter(s, run, t.o) {
        NextDown(s, run, t.o, c);
      }
    }
  }

  lemma StepKeepsJobs(s: State, t: Step)
    requires RunsOk(s) && Enabled(s, t)
    ensures |Apply(s, t).runs| == |s.runs|
    ensures forall r: nat | r < |s.runs| :: Apply(s, t).runs[r].job == s.runs[r].job
  {
    hide Next, RunOk;
    if t.Go? {
      StepRun(s, t.r, t.o);
    }
  }

  /** As long as no stopping restore shares a container with a cold backup under another
      repository key, a container is down whenever some cold backup holds it. */
  lemma {:induction false} HeldContainersAreDown(s: State, steps: seq<Step>)
    requires Inv(s) && NoCrossRestore(s.runs) && DownWhileHeld(s) && Feasible(s, steps)
    ensures DownWhileHeld(After(s, steps))
    decreases |steps|
  {
    hide RunsOk, MutexInv, SlotInv, ColdInv, SnapInv, Enabled, Apply, DownWhileHeld;
    if steps != [] {
      StepKeepsInv(s, steps[0]);
      StepKeepsDown(s, steps[0]);
      StepKeepsJobs(s, steps[0]);
      HeldContainersAreDown(Apply(s, steps[0]), steps[1..]);
    }
  }

  // ------------------------------------------------------ stops and starts

  /** The successful stops and the attempted starts of one container, in order. */
  function Calls(log: seq<ColdEvent>, c: Container): seq<ColdEvent> {
    if log == [] then []
    else
      var e := log[|log| - 1];
      Calls(log[..|log| - 1], c) + (if e.container == c && !e.StopFailed? then [e] else [])
  }

  predicate Alternate(f: seq<ColdEvent>) {
    forall i: nat | i < |f| :: f[i].Stopped? <==> i % 2 == 0
  }

  /** The log of a container alternates, and ends in a stop exactly while it is held. */
  ghost predicate LogOk(s: State, c: Container) {
    Alternate(Calls(s.log, c)) && (|Calls(s.log, c)| % 2 == 1 <==> Refs(s, c) > 0)
  }

  lemma CallsAppend(log: seq<ColdEvent>, e: ColdEvent, c: Container)
    ensures Calls(log + [e], c) == Calls(log, c) + (if e.container == c && !e.StopFailed? then [e] else [])
  {
    assert (log + [e])[..|log|] == log;
  }

  lemma NextCalls(s: State, run: Run, o: Outcome, c: Container)
    requires Allowed(run, o) && Agrees(s, run, o) && Refs(s, run.job.container) >= 0
    requires run.pc.InColdBack? ==> Refs(s, run.job.container) >= 1
    ensures var e, refs, d := ColdCalls(s, run, o), RefsAfter(s, run, o), run.job.container;
            var n := CountIn(refs, c);
            && |e| <= 1
            && (e == [] || e[0].StopFailed? || e[0].container != c ==> (n > 0 <==> Refs(s, c) > 0))
            && (e != [] && e[0].container == c && e[0].Stopped? ==> Refs(s, c) == 0 && n > 0)
            && (e != [] && e[0].container == c && !e[0].Stopped? && !e[0].StopFailed? ==> Refs(s, c) > 0 && n == 0)
  {
  }

  lemma ReleaserIsCounted(s: State, r: nat)
    requires Inv(s) && r < |s.runs|
    ensures var d := s.runs[r].job.container;
            Refs(s, d) >= 0 && (s.runs[r].pc.InColdBack? ==> Refs(s, d) >= 1)
  {
    hide MutexInv, SlotInv, SnapInv, MoverOk;
    var d := s.runs[r].job.container;
    assert RunOk(s.runs[r]);
    DefersHave(s.runs[r].job.kind, s.runs[r].stack);
    assert Refs(s, d) == |ColdHolders(s.runs, d)|;
    if s.runs[r].pc.InColdBack? {
      assert r in ColdHolders(s.runs, d);
    }
  }

  lemma StepKeepsLog(s: State, t: Step, c: Container)
    requires Inv(s) && Enabled(s, t) && LogOk(s, c)
    ensures LogOk(Apply(s, t), c)
  {
    hide Inv, Next, RefsAfter, ColdCalls, Calls, Alternate, Allowed, Agrees, Guard, HeldAfter, LiveAfter,
         StoppedAfter, SlotsAfter;
    if t.Go? {
      var run := s.runs[t.r];
      ReleaserIsCounted(s, t.r);
      NextCalls(s, run, t.o, c);
      var e := ColdCalls(s, run, t.o);
      if e == [] {
        assert s.log + e == s.log;
      } else {
        assert e == [e[0]];
        CallsAppend(s.log, e[0], c);
        AlternateSnoc(Calls(s.log, c), e[0]);
        assert Calls(s.log, c) + [] == Calls(s.log, c);
      }
    }
  }

  lemma {:induction false} LogAlways(s: State, steps: seq<Step>, c: Container)
    requires Inv(s) && LogOk(s, c) && Feasible(s, steps)
    ensures LogOk(After(s, steps), c)
    decreases |steps|
  {
    hide Inv, Enabled, Apply, LogOk;
    if steps != [] {
      StepKeepsInv(s, steps[0]);
      StepKeepsLog(s, steps[0], c);
      LogAlways(Apply(s, steps[0]), steps[1..], c);
    }
  }

  /** Successful stops and attempted starts of every container strictly alternate,
      beginning with a stop. */
  lemma StopsAndStartsAlternate(max: int, jobs: seq<Job>, stopped: set<Container>, base: set<Snap>,
                                steps: seq<Step>, c: Container)
    requires Feasible(Init(max, jobs, stopped, base), steps)
    ensures Alternate(Calls(After(Init(max, jobs, stopped, base), steps).log, c))
  {
    hide Inv, Feasible, After;
    InitInv(max, jobs, stopped, base);
    assert LogOk(Init(max, jobs, stopped, base), c);
    LogAlways(Init(max, jobs, stopped, base), steps, c);
  }

  /** The calls that succeeded. */
  function Successes(f: seq<ColdEvent>): seq<ColdEvent> {
    if f == [] then []
    else Successes(f[..|f| - 1]) + (if f[|f| - 1].StartFailed? then [] else [f[|f| - 1]])
  }

  /** A failed start came before the last call. */
  ghost predicate FailedStartBeforeLast(f: seq<ColdEvent>) {
    exists i: nat :: i < |f| - 1 && f[i].StartFailed?
  }

  lemma AlternateSnoc(g: seq<ColdEvent>, e: ColdEvent)
    ensures Alternate(g + [e]) <==> Alternate(g) && (e.Stopped? <==> |g| % 2 == 0)
  {
    assert forall i: nat | i < |g| :: (g + [e])[i] == g[i];
    assert (g + [e])[|g|] == e;
  }

  lemma FailedSnoc(p: seq<ColdEvent>, e: ColdEvent)
    ensures FailedStartBeforeLast(p + [e]) <==>
              FailedStartBeforeLast(p) || (p != [] && p[|p| - 1].StartFailed?)
  {
    var f := p + [e];
    assert forall i: nat | i < |p| :: f[i] == p[i];
    if p != [] && p[|p| - 1].StartFailed? {
      assert f[|p| - 1].StartFailed?;
    }
  }

  /** Successful stops and successful starts alternate exactly when no start failed before
      the last call: after a failed start the container stays down, and the next cold
      backup stops it once more. */
  lemma {:induction false} SuccessesAlternateExactly(f: seq<ColdEvent>)
    requires Alternate(f) && forall e | e in f :: !e.StopFailed?
    ensures Alternate(Successes(f)) <==> !FailedStartBeforeLast(f)
    ensures f != [] && !f[|f| - 1].StartFailed? ==>
              Successes(f) != [] && Successes(f)[|Successes(f)| - 1] == f[|f| - 1]
    ensures f != [] && f[|f| - 1].StartFailed? ==>
              Successes(f) != [] && Successes(f)[|Successes(f)| - 1].Stopped?
    decreases |f|
  {
    if f != [] {
      var n := |f| - 1;
      var p, e, g := f[..n], f[n], Successes(f[..n]);
      assert f == p + [e];
      AlternateSnoc(p, e);
      SuccessesAlternateExactly(p);
      FailedSnoc(p, e);
      AlternateSnoc(g, e);
      if g != [] {
        LastParity(g);
      }
      if p != [] {
        LastParity(p);
      }
      assert g + [] == g;
    }
  }

  lemma LastParity(g: seq<ColdEvent>)
    requires g != []
    ensures Alternate(g) ==> (g[|g| - 1].Stopped? <==> |g| % 2 == 1)
  {
  }

  lemma {:induction false} CallsAreCalls(log: seq<ColdEvent>, c: Container)
    ensures forall e | e in Calls(log, c) :: !e.StopFailed?
    decreases |log|
  {
    if log != [] {
      CallsAreCalls(log[..|log| - 1], c);
    }
  }

  /** Of every execution: the successful stops and the successful starts of a container
      alternate exactly when no start of it failed before its last call. */
  lemma ExecutionsAlternateExactly(max: int, jobs: seq<Job>, stopped: set<Container>, base: set<Snap>,
                                   steps: seq<Step>, c: Container)
    requires Feasible(Init(max, jobs, stopped, base), steps)
    ensures var calls := Calls(After(Init(max, jobs, stopped, base), steps).log, c);
            Alternate(Successes(calls)) <==> !FailedStartBeforeLast(calls)
  {
    hide Feasible, After, Calls, Successes, Alternate, FailedStartBeforeLast;
    var log := After(Init(max, jobs, stopped, base), steps).log;
    StopsAndStartsAlternate(max, jobs, stopped, base, steps, c);
    CallsAreCalls(log, c);
    SuccessesAlternateExactly(Calls(log, c));
  }
}
