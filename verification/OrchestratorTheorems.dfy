/**
 What the orchestrator guarantees in every reachable state and over every whole
 execution: exclusion, the slot bound, progress, last-in-first-out release and
 the safety of running movers.
 */
module OrchestratorTheorems {
  import opened Lists
  import opened Orchestrator
  import opened OrchestratorInvariant

  ghost predicate Reachable(s: State) {
    exists max, jobs, stopped, base, steps ::
      Feasible(Init(max, jobs, stopped, base), steps) && s == After(Init(max, jobs, stopped, base), steps)
  }

  lemma ReachableInv(s: State)
    requires Reachable(s)
    ensures Inv(s)
  {
    hide Inv;
    var max, jobs, stopped, base, steps :|
      Feasible(Init(max, jobs, stopped, base), steps) && s == After(Init(max, jobs, stopped, base), steps);
    InitInv(max, jobs, stopped, base);
    InvAlways(Init(max, jobs, stopped, base), steps);
  }

  // ----------------------------------------------------- exclusion and slots

  /** Between locking and unlocking its repository key. */
  predicate InCritical(run: Run) {
    RepoKey in run.stack.defers
  }

  lemma MutualExclusion(s: State, q: nat, r: nat)
    requires Reachable(s) && q < |s.runs| && r < |s.runs| && q != r
    requires InCritical(s.runs[q]) && InCritical(s.runs[r])
    ensures s.runs[q].job.key != s.runs[r].job.key
  {
    ReachableInv(s);
    assert Holds(s.runs[q]) !! Holds(s.runs[r]);
    assert KeyMu(s.runs[q].job.key) in Holds(s.runs[q]);
    assert KeyMu(s.runs[r].job.key) in Holds(s.runs[r]);
  }

  /** A mover of any run is only up inside the run's critical section, unless it
      was deliberately kept or is orphaned. */
  lemma MoversAreExclusive(s: State, q: nat, r: nat)
    requires Reachable(s) && q < |s.runs| && r < |s.runs| && q != r
    requires var a, b := s.runs[q].mover, s.runs[r].mover;
             a.up && b.up && !a.kept && !b.kept && !a.orphaned && !b.orphaned
    ensures s.runs[q].job.key != s.runs[r].job.key
  {
    hide Inv, InCritical;
    ReachableInv(s);
    MoverInCritical(s, q);
    MoverInCritical(s, r);
    MutualExclusion(s, q, r);
  }

  lemma MoverInCritical(s: State, r: nat)
    requires Inv(s) && r < |s.runs|
    requires var m := s.runs[r].mover; m.up && !m.kept && !m.orphaned
    ensures InCritical(s.runs[r])
  {
    hide MutexInv, SlotInv, ColdInv, SnapInv;
    assert RunOk(s.runs[r]);
    DefersHave(s.runs[r].job.kind, s.runs[r].stack);
  }

  lemma SlotBound(s: State)
    requires Reachable(s)
    ensures s.max > 0 ==> |SlotHolders(s.runs)| <= s.max
    ensures forall r | r in SlotHolders(s.runs) :: NeedsSlot(s.runs[r].job.kind)
  {
    ReachableInv(s);
    hide MutexInv, ColdInv, SnapInv;
    forall r | r in SlotHolders(s.runs) ensures NeedsSlot(s.runs[r].job.kind) {
      assert RunOk(s.runs[r]);
      DefersHave(s.runs[r].job.kind, s.runs[r].stack);
    }
  }

  // ---------------------------------------------------------------- progress

  predicate Launched(run: Run) {
    !run.pc.Begin? && !run.pc.Done?
  }

  /** An outcome that is possible at every program point that is not blocked. */
  function Default(run: Run): Outcome {
    if run.pc.TakeSnaps? then Taken({})
    else if run.pc.AwaitMover? then MoverDone
    else if run.pc.Unwind? && Top(run) == Some(Snapshots) then CleanUp({})
    else Ok
  }

  lemma UnblockedSteps(s: State, r: nat)
    requires r < |s.runs| && Guard(s, s.runs[r]) && !s.runs[r].pc.Done?
    ensures Enabled(s, Go(r, Default(s.runs[r])))
  {
  }

  predicate InLeaf(pc: Pc) {
    pc.InTable? || pc.InCache? || pc.InColds? || pc.InCold? || pc.InColdBack?
  }

  /** When nobody is inside a leaf mutex, only the repository key and the semaphore can block. */
  lemma LeafFree(s: State, r: nat)
    requires MutexInv(s) && r < |s.runs|
    requires forall q: nat | q < |s.runs| :: !InLeaf(s.runs[q].pc)
    requires !s.runs[r].pc.WantKey? && !s.runs[r].pc.WantSlot? && !s.runs[r].pc.Unwind?
    ensures Guard(s, s.runs[r])
  {
    hide Holds, Guard, InLeaf;
    forall m | m in s.held ensures m.KeyMu? {
      var q: nat :| q < |s.runs| && m in Holds(s.runs[q]);
      OnlyKeys(s.runs[q], m);
    }
    OnlyKeysBlock(s, s.runs[r]);
  }

  lemma OnlyKeys(run: Run, m: Mutex)
    requires !InLeaf(run.pc) && m in Holds(run)
    ensures m.KeyMu?
  {
  }

  lemma OnlyKeysBlock(s: State, run: Run)
    requires forall m | m in s.held :: m.KeyMu?
    requires !run.pc.WantKey? && !run.pc.WantSlot? && !run.pc.Unwind?
    ensures Guard(s, run)
  {
  }

  /** A run that holds a slot never waits for a repository key or a slot. */
  lemma SlotHolderNeverWaits(s: State, r: nat)
    requires Reachable(s) && r in SlotHolders(s.runs)
    ensures var pc := s.runs[r].pc; !pc.WantTable? && !pc.InTable? && !pc.WantKey? && !pc.WantSlot?
  {
    hide Reachable, MutexInv, SlotInv, ColdInv, SnapInv, MoverOk;
    ReachableInv(s);
    assert RunOk(s.runs[r]);
    DefersHave(s.runs[r].job.kind, s.runs[r].stack);
  }

  /** So it can step once nobody is inside a leaf mutex. */
  lemma SlotHolderMoves(s: State, r: nat)
    requires Inv(s) && r in SlotHolders(s.runs)
    requires forall q: nat | q < |s.runs| :: !InLeaf(s.runs[q].pc)
    ensures Guard(s, s.runs[r]) && Launched(s.runs[r])
  {
    hide SnapInv, ColdInv, Holds;
    assert RunOk(s.runs[r]);
    DefersHave(s.runs[r].job.kind, s.runs[r].stack);
    if !s.runs[r].pc.Unwind? {
      LeafFree(s, r);
    }
  }

  ghost predicate SomeoneMoves(s: State) {
    exists r: nat :: r < |s.runs| && Launched(s.runs[r]) && Guard(s, s.runs[r])
  }

  lemma KeyHolderMoves(s: State, r: nat)
    requires Inv(s) && r < |s.runs| && Launched(s.runs[r]) && !s.runs[r].pc.WantKey?
    requires forall q: nat | q < |s.runs| :: !InLeaf(s.runs[q].pc)
    ensures SomeoneMoves(s)
  {
    hide SnapInv, ColdInv, Holds, Guard;
    if s.runs[r].pc.WantSlot? {
      if !SlotFree(s) {
        assert SlotHolders(s.runs) != {};
        var q :| q in SlotHolders(s.runs);
        SlotHolderMoves(s, q);
      } else {
        WantSlotGuard(s, s.runs[r]);
      }
    } else if s.runs[r].pc.Unwind? {
      UnwindGuard(s, r);
    } else {
      LeafFree(s, r);
    }
  }

  lemma WantSlotGuard(s: State, run: Run)
    requires run.pc.WantSlot? && SlotFree(s)
    ensures Guard(s, run)
  {
  }

  lemma UnwindGuard(s: State, r: nat)
    requires Inv(s) && r < |s.runs| && s.runs[r].pc.Unwind?
    ensures Guard(s, s.runs[r])
  {
    hide MutexInv, ColdInv, SnapInv;
    if Top(s.runs[r]) == Some(Slot) {
      assert r in SlotHolders(s.runs);
    }
  }

  /** Some launched run can step, and not by giving up its wait for a slot: the order
      is repository key, then slot, then a leaf mutex whose holder never waits. */
  lemma DeadlockFree(s: State, r: nat)
    requires Reachable(s) && r < |s.runs| && Launched(s.runs[r])
    ensures exists q: nat, o :: Enabled(s, Go(q, o)) && Launched(s.runs[q]) && Guard(s, s.runs[q])
  {
    hide Enabled;
    ReachableInv(s);
    SomeoneCanMove(s, r);
    var q: nat :| q < |s.runs| && Launched(s.runs[q]) && Guard(s, s.runs[q]);
    UnblockedSteps(s, q);
  }

  lemma SomeoneCanMove(s: State, r: nat)
    requires Inv(s) && r < |s.runs| && Launched(s.runs[r])
    ensures SomeoneMoves(s)
  {
    hide SnapInv, ColdInv, SlotInv, RunsOk, Holds, Guard;
    if q: nat :| q < |s.runs| && InLeaf(s.runs[q].pc) {
      LeafHolderMoves(s, q);
    } else if s.runs[r].pc.WantKey? && KeyMu(s.runs[r].job.key) in s.held {
      var q: nat :| q < |s.runs| && KeyMu(s.runs[r].job.key) in Holds(s.runs[q]);
      KeyHolderIsIn(s, q, s.runs[r].job.key);
      KeyHolderMoves(s, q);
    } else if s.runs[r].pc.WantKey? {
      WantKeyGuard(s, s.runs[r]);
    } else {
      KeyHolderMoves(s, r);
    }
  }

  lemma LeafHolderMoves(s: State, q: nat)
    requires q < |s.runs| && InLeaf(s.runs[q].pc)
    ensures Launched(s.runs[q]) && Guard(s, s.runs[q])
  {
  }

  lemma WantKeyGuard(s: State, run: Run)
    requires run.pc.WantKey? && KeyMu(run.job.key) !in s.held
    ensures Guard(s, run)
  {
  }

  lemma KeyHolderIsIn(s: State, q: nat, key: Key)
    requires RunsOk(s) && q < |s.runs| && KeyMu(key) in Holds(s.runs[q])
    ensures Launched(s.runs[q]) && !s.runs[q].pc.WantKey?
  {
    assert RunOk(s.runs[q]);
  }

  // ------------------------------------------------- every execution is finite

  /** How many more steps a run can take at most. */
  function Weight(run: Run): nat {
    One(run.mover.up) +
    match run.pc
    case Begin => 60
    case WantTable => 58
    case InTable => 56
    case WantKey => 54
    case WantSlot => 52
    case Prepare => 50
    case WantCache => 48
    case InCache => 46
    case PreHooks => 44
    case WantColds => 42
    case InColds => 40
    case WantCold => 38
    case InCold | StopDirect => 36
    case TakeSnaps => 34
    case SpawnMover => 32
    case AwaitMover => 29
    case RemoveMover => 27
    case PostHooks => 25
    case Unwind => 4 * |run.stack.defers| + 1
    case WantColdBack => 12
    case InColdBack => 11
    case Done => 0
  }

  function Total(runs: seq<Run>): nat {
    if runs == [] then 0 else Total(runs[..|runs| - 1]) + Weight(runs[|runs| - 1])
  }

  lemma {:induction false} TotalMoves(runs: seq<Run>, r: nat, run: Run)
    requires r < |runs|
    ensures Total(runs[r := run]) == Total(runs) - Weight(runs[r]) + Weight(run)
    decreases |runs|
  {
    hide Weight;
    var n := |runs| - 1;
    if r == n {
      assert runs[r := run][..n] == runs[..n];
    } else {
      assert runs[r := run][..n] == runs[..n][r := run];
      TotalMoves(runs[..n], r, run);
    }
  }

  lemma NextLowersUp(run: Run, o: Outcome)
    requires MoverOk(run) && Allowed(run, o) && Ascending(run.pc) && |Next(run, o).stack.defers| <= 4
    ensures Weight(Next(run, o)) < Weight(run)
  {
  }

  lemma NextLowersDown(run: Run, o: Outcome)
    requires PlaceOk(run) && Allowed(run, o) && !Ascending(run.pc)
    requires Top(run) == Some(ColdHold) ==> |run.stack.defers| == 3
    ensures Weight(Next(run, o)) < Weight(run)
  {
  }

  lemma StepLowers(s: State, t: Step)
    requires RunsOk(s) && Enabled(s, t)
    ensures Total(Apply(s, t).runs) < Total(s.runs)
  {
    hide Next, Weight, RunsOk, Total, MoverOk, PlaceOk;
    var run := s.runs[t.r];
    assert RunOk(run) by { RunOkAt(s, t.r); }
    match t
    case MoverExits(r) =>
      TotalMoves(s.runs, r, run.(mover := run.mover.(up := false)));
      ExitLowers(run);
    case Go(r, o) =>
      TotalMoves(s.runs, r, Next(run, o));
      NextRunOk(run, o);
      DefersHave(run.job.kind, Next(run, o).stack);
      if Ascending(run.pc) {
        NextLowersUp(run, o);
      } else {
        TopIs(run);
        NextLowersDown(run, o);
      }
  }

  lemma RunOkAt(s: State, r: nat)
    requires RunsOk(s) && r < |s.runs|
    ensures RunOk(s.runs[r])
  {
  }

  lemma ExitLowers(run: Run)
    requires run.mover.up
    ensures Weight(run.(mover := run.mover.(up := false))) < Weight(run)
  {
  }

  /** No execution runs forever: its length is bounded by the runs it starts from. */
  lemma {:induction false} ExecutionsAreFinite(s: State, steps: seq<Step>)
    requires Inv(s) && Feasible(s, steps)
    ensures |steps| + Total(After(s, steps).runs) <= Total(s.runs)
    decreases |steps|
  {
    hide RunsOk, MutexInv, SlotInv, ColdInv, SnapInv, Enabled, Apply, Total;
    if steps != [] {
      StepKeepsInv(s, steps[0]);
      StepLowers(s, steps[0]);
      ExecutionsAreFinite(Apply(s, steps[0]), steps[1..]);
    }
  }

  ghost predicate Stuck(s: State) {
    forall t :: !Enabled(s, t)
  }

  /** An execution that cannot go on has finished every run, and every mutex, slot and
      cold hold is back. The snapshots left are those that were there before, those
      of movers kept running, and those whose destroy failed. */
  lemma MaximalExecutionsAreClean(s: State)
    requires Reachable(s) && Stuck(s)
    ensures forall r: nat | r < |s.runs| :: s.runs[r].pc.Done?
    ensures s.held == {} && s.slots == 0
    ensures forall c :: Refs(s, c) == 0
    ensures forall x | x in s.live && x !in s.base ::
              exists r: nat :: r < |s.runs| &&
                x in (if s.runs[r].mover.kept then s.runs[r].snaps.mounts else s.runs[r].snaps.leaked)
  {
    hide Enabled, Guard, Inv;
    forall r: nat | r < |s.runs| ensures s.runs[r].pc.Done? {
      if s.runs[r].pc.Begin? {
        BeginSteps(s, r);
        assert false;
      }
      if Launched(s.runs[r]) {
        DeadlockFree(s, r);
        assert false;
      }
    }
    ReachableInv(s);
    AllDoneIsClean(s);
  }

  lemma BeginSteps(s: State, r: nat)
    requires r < |s.runs| && s.runs[r].pc.Begin?
    ensures Enabled(s, Go(r, Ok))
  {
  }

  lemma AllDoneIsClean(s: State)
    requires Inv(s) && forall r: nat | r < |s.runs| :: s.runs[r].pc.Done?
    ensures s.held == {} && s.slots == 0
    ensures forall c :: Refs(s, c) == 0
    ensures forall x | x in s.live && x !in s.base ::
              exists r: nat :: r < |s.runs| &&
                x in (if s.runs[r].mover.kept then s.runs[r].snaps.mounts else s.runs[r].snaps.leaked)
  {
    hide MoverOk, ChainOk;
    forall r: nat | r < |s.runs| ensures s.runs[r].stack.defers == [] {
      assert RunOk(s.runs[r]);
    }
    assert SlotHolders(s.runs) == {};
    forall c ensures ColdHolders(s.runs, c) == {} {
    }
    forall x | x in s.live && x !in s.base
      ensures exists r: nat :: r < |s.runs| &&
                x in (if s.runs[r].mover.kept then s.runs[r].snaps.mounts else s.runs[r].snaps.leaked)
    {
      var r: nat :| r < |s.runs| && x in Owns(s.runs[r]);
    }
  }
}
