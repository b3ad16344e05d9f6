/**
 The way a run takes, told by its own steps: up to its mover it passes the
 program points of its route, each successfully and in order; the first step that
 fails ends the ascent, and from then on the run only gives back what it has.
 */
module OrchestratorRoute {
  import opened Lists
  import opened Orchestrator
  import opened OrchestratorInvariant
  import opened OrchestratorTheorems

  /** One step of a run: where it was, and how the call went. */
  datatype Move = Move(pc: Pc, o: Outcome)

  /** The steps that run r made in an execution. */
  function Moves(s: State, steps: seq<Step>, r: nat): seq<Move>
    requires Feasible(s, steps) && r < |s.runs|
    decreases |steps|
  {
    if steps == [] then []
    else
      var t := steps[0];
      (if t.Go? && t.r == r then [Move(s.runs[r].pc, t.o)] else []) + Moves(Apply(s, t), steps[1..], r)
  }

  /** What each entry point does before its mover is up, in order. */
  function Route(k: Kind): seq<Pc> {
    match k
    case Backup(cold) =>
      [Begin, WantTable, InTable, WantKey, WantSlot, Prepare, WantCache, InCache, PreHooks]
      + (if cold then [WantColds, InColds, WantCold, InCold] else []) + [TakeSnaps, SpawnMover]
    case Check => [Begin, WantTable, InTable, WantKey, WantSlot, Prepare, WantCache, InCache, SpawnMover]
    case Prune => [Begin, WantTable, InTable, WantKey, WantSlot, Prepare, WantCache, InCache, SpawnMover]
    case ListSnapshots => [Begin, WantTable, InTable, WantKey, Prepare, WantCache, InCache, SpawnMover]
    case Restore(stop) =>
      [Begin, WantTable, InTable, WantKey, Prepare, WantCache, InCache]
      + (if stop then [StopDirect] else []) + [SpawnMover]
  }

  /** The call did what it was meant to. */
  predicate Succeeded(m: Move) {
    if m.pc.TakeSnaps? then m.o.Taken? else m.o == Ok
  }

  /** The place of the first step that did not succeed. */
  function FirstBad(h: seq<Move>): nat {
    if h == [] then 0
    else
      var n := |h| - 1;
      var before := FirstBad(h[..n]);
      if before < n then before else if Succeeded(h[n]) then n + 1 else n
  }

  lemma {:induction false} FirstBadIsFirst(h: seq<Move>)
    ensures FirstBad(h) <= |h|
    ensures forall i | 0 <= i < FirstBad(h) :: Succeeded(h[i])
    ensures FirstBad(h) < |h| ==> !Succeeded(h[FirstBad(h)])
    decreases |h|
  {
    if h != [] {
      FirstBadIsFirst(h[..|h| - 1]);
    }
  }

  lemma FirstBadSnoc(h: seq<Move>, m: Move)
    ensures FirstBad(h) <= |h|
    ensures FirstBad(h + [m]) == if FirstBad(h) < |h| then FirstBad(h) else if Succeeded(m) then |h| + 1 else |h|
  {
    FirstBadIsFirst(h);
    assert (h + [m])[..|h|] == h;
  }

  /** Giving back. */
  predicate Down(pc: Pc) {
    pc.Unwind? || pc.WantColdBack? || pc.InColdBack? || pc.Done?
  }

  predicate HasPc(h: seq<Move>, pc: Pc) {
    exists i :: 0 <= i < |h| && h[i].pc == pc
  }

  /** The steps up to the first bad one are those of the route. */
  predicate OnRoute(k: Kind, h: seq<Move>) {
    forall i | 0 <= i < |h| && i < |Route(k)| && i <= FirstBad(h) :: h[i].pc == Route(k)[i]
  }

  /** Before its mover a run stands where its route goes on; after a failure it goes down. */
  predicate Climb(run: Run, h: seq<Move>) {
    var k, f := run.job.kind, FirstBad(h);
    && OnRoute(k, h)
    && (BeforeMover(run.pc) <==> f == |h| && |h| < |Route(k)|)
    && (BeforeMover(run.pc) ==> run.pc == Route(k)[|h|])
    && (f < |h| && f < |Route(k)| - 1 ==> Down(run.pc) && run.mover == Mover(false, false, false))
    && (forall i | 0 <= i < |h| && f < i && f < |Route(k)| - 1 :: Down(h[i].pc))
    && (forall i | 0 <= i < |h| && (f < i || |Route(k)| <= i) :: !BeforeMover(h[i].pc))
  }

  /** The step of the route from its i-th place. */
  predicate Advances(run: Run, o: Outcome, i: nat) {
    var k, n := run.job.kind, Next(run, o);
    && (Succeeded(Move(run.pc, o)) ==> n.pc == (if i + 1 < |Route(k)| then Route(k)[i + 1] else AwaitMover))
    && (!Succeeded(Move(run.pc, o)) ==> !BeforeMover(n.pc) && (i + 1 < |Route(k)| ==> n.pc.Unwind?))
    && (i + 1 < |Route(k)| ==> n.mover == run.mover)
  }

  lemma RouteStepBackup(run: Run, o: Outcome, i: nat)
    requires Allowed(run, o) && i < |Route(run.job.kind)| && run.pc == Route(run.job.kind)[i] && run.job.kind.Backup?
    ensures Advances(run, o, i)
  {
  }

  lemma RouteStepOther(run: Run, o: Outcome, i: nat)
    requires Allowed(run, o) && i < |Route(run.job.kind)| && run.pc == Route(run.job.kind)[i] && !run.job.kind.Backup?
    ensures Advances(run, o, i)
  {
  }

  lemma RouteStep(run: Run, o: Outcome, i: nat)
    requires Allowed(run, o) && i < |Route(run.job.kind)| && run.pc == Route(run.job.kind)[i]
    ensures Advances(run, o, i)
  {
    hide Route, Allowed, Advances;
    if run.job.kind.Backup? {
      RouteStepBackup(run, o, i);
    } else {
      RouteStepOther(run, o, i);
    }
  }

  lemma RouteIsBeforeMover(k: Kind, i: nat)
    requires i < |Route(k)|
    ensures BeforeMover(Route(k)[i])
  {
  }

  lemma NextClimb(run: Run, o: Outcome, h: seq<Move>)
    requires RunOk(run) && Allowed(run, o) && Climb(run, h)
    ensures Climb(Next(run, o), h + [Move(run.pc, o)])
  {
    hide Route, Next, Allowed, StackOk, FirstBad, Succeeded;
    var m, k := Move(run.pc, o), run.job.kind;
    var h2, n := h + [m], Next(run, o);
    FirstBadSnoc(h, m);
    NextShape(run, o);
    if BeforeMover(run.pc) {
      RouteStep(run, o, |h|);
      if |h| + 1 < |Route(k)| {
        RouteIsBeforeMover(k, |h| + 1);
      }
      MoverDownBefore(run);
    } else {
      PastStays(run, o);
    }
    forall i | 0 <= i < |h2| && i < |Route(k)| && i <= FirstBad(h2) ensures h2[i].pc == Route(k)[i] {
      if i < |h| {
        assert h2[i] == h[i];
      }
    }
  }

  lemma MoverDownBefore(run: Run)
    requires MoverOk(run) && BeforeMover(run.pc)
    ensures run.mover == Mover(false, false, false)
  {
  }

  /** Past its spawn a run never climbs again, and going down it never turns back. */
  lemma PastStays(run: Run, o: Outcome)
    requires Allowed(run, o) && !BeforeMover(run.pc)
    ensures !BeforeMover(Next(run, o).pc)
    ensures Down(run.pc) ==> Down(Next(run, o).pc) && Next(run, o).mover == run.mover
  {
  }

  // -------------------------------------------------------- around the mover

  /** The mover was left running on purpose. */
  predicate Kept(k: Kind, h: seq<Move>) {
    k == Backup(false) && Move(AwaitMover, Cancelled) in h
  }

  /** The mover is over, or was dealt with: it ended, was kept, or its removal was tried. */
  predicate Settled(k: Kind, h: seq<Move>) {
    || Move(AwaitMover, MoverDone) in h || Kept(k, h) || HasPc(h, RemoveMover)
    || Move(SpawnMover, Fail) in h || Move(SpawnMover, Unnoticed) in h
  }

  /** What the steps around the mover have to do with where the run is. */
  predicate Around(run: Run, h: seq<Move>) {
    var k := run.job.kind;
    && (run.mover.kept <==> Kept(k, h))
    && (HasPc(h, SpawnMover) <==> !BeforeMover(run.pc) && FirstBad(h) >= |Route(k)| - 1)
    && (HasPc(h, SpawnMover) && !run.pc.AwaitMover? && !run.pc.RemoveMover? ==> Settled(k, h))
    && (HasPc(h, PostHooks) <==> k.Backup? && HasPc(h, SpawnMover) && Down(run.pc))
    && (run.mover.up ==> HasPc(h, SpawnMover))
  }

  lemma HasPcSnoc(h: seq<Move>, m: Move, pc: Pc)
    ensures HasPc(h + [m], pc) <==> HasPc(h, pc) || m.pc == pc
  {
    var h2 := h + [m];
    assert h2[|h|] == m && forall i | 0 <= i < |h| :: h2[i] == h[i];
  }

  /** The facts about the past that one more step changes. */
  lemma PastSnoc(k: Kind, h: seq<Move>, m: Move)
    ensures Kept(k, h + [m]) <==> Kept(k, h) || (k == Backup(false) && m == Move(AwaitMover, Cancelled))
    ensures Settled(k, h) ==> Settled(k, h + [m])
    ensures m.pc.RemoveMover? || m == Move(AwaitMover, MoverDone) ==> Settled(k, h + [m])
    ensures m == Move(SpawnMover, Fail) || m == Move(SpawnMover, Unnoticed) ==> Settled(k, h + [m])
    ensures Kept(k, h + [m]) ==> Settled(k, h + [m])
  {
    HasPcSnoc(h, m, RemoveMover);
  }

  /** Once the mover was to be spawned, the route is behind the run. */
  lemma SpawnIsLast(k: Kind, i: nat)
    requires i < |Route(k)|
    ensures Route(k)[i].SpawnMover? <==> i == |Route(k)| - 1
    ensures !Route(k)[i].PostHooks? && |Route(k)| > 0
  {
  }

  lemma NextAroundClimbing(run: Run, o: Outcome, h: seq<Move>)
    requires RunOk(run) && Allowed(run, o) && Climb(run, h) && Around(run, h) && BeforeMover(run.pc)
    ensures Around(Next(run, o), h + [Move(run.pc, o)])
  {
    hide Route, StackOk, FirstBad, Succeeded, HasPc, Settled, Kept;
    var m, k, n := Move(run.pc, o), run.job.kind, Next(run, o);
    FirstBadSnoc(h, m);
    HasPcSnoc(h, m, SpawnMover);
    HasPcSnoc(h, m, PostHooks);
    PastSnoc(k, h, m);
    RouteStep(run, o, |h|);
    SpawnIsLast(k, |h|);
    if |h| + 1 < |Route(k)| {
      RouteIsBeforeMover(k, |h| + 1);
    }
    NextShape(run, o);
    KeptOnlyAwaiting(run, o);
    OkIsSuccess(m);
  }

  lemma OkIsSuccess(m: Move)
    ensures m.pc.SpawnMover? ==> (Succeeded(m) <==> m.o == Ok)
  {
  }

  /** A mover is kept by one step only. */
  lemma KeptOnlyAwaiting(run: Run, o: Outcome)
    requires Allowed(run, o) && MoverOk(run)
    ensures Next(run, o).mover.kept <==>
            run.mover.kept || (run.job.kind == Backup(false) && run.pc.AwaitMover? && o == Cancelled)
    ensures Next(run, o).mover.up ==> run.mover.up || run.pc.SpawnMover?
  {
    hide FullStack;
  }

  lemma NextAroundPast(run: Run, o: Outcome, h: seq<Move>)
    requires RunOk(run) && Allowed(run, o) && Climb(run, h) && Around(run, h) && !BeforeMover(run.pc)
    ensures Around(Next(run, o), h + [Move(run.pc, o)])
  {
    hide Route, StackOk, FirstBad, Succeeded, HasPc, Settled, Kept, MoverOk;
    var m, k := Move(run.pc, o), run.job.kind;
    FirstBadSnoc(h, m);
    HasPcSnoc(h, m, SpawnMover);
    HasPcSnoc(h, m, PostHooks);
    PastSnoc(k, h, m);
    NextShape(run, o);
    KeptOnlyAwaiting(run, o);
    PastStays(run, o);
    AfterTheMover(run, o);
  }

  /** Where the steps around the mover lead. */
  lemma AfterTheMover(run: Run, o: Outcome)
    requires RunOk(run) && Allowed(run, o) && !BeforeMover(run.pc)
    ensures var n, k := Next(run, o), run.job.kind;
            && (run.pc.AwaitMover? ==> n.pc.RemoveMover? || o == MoverDone || (k == Backup(false) && o == Cancelled))
            && (run.pc.AwaitMover? || run.pc.RemoveMover? ==> (Down(n.pc) <==> !n.pc.RemoveMover? && !k.Backup?))
            && (run.pc.PostHooks? ==> k.Backup? && Down(n.pc))
            && (n.pc.AwaitMover? ==> false)
            && (n.pc.RemoveMover? ==> run.pc.AwaitMover?)
            && (n.pc.PostHooks? ==> k.Backup?)
  {
    hide ChainOk, MoverOk;
  }

  // ------------------------------------------------------ what was acquired

  /** What a step acquires. */
  function Gain(m: Move): seq<Resource> {
    match m
    case Move(WantKey, _) => [RepoKey]
    case Move(WantSlot, Ok) => [Slot]
    case Move(InCold, Ok) => [ColdHold]
    case Move(StopDirect, Ok) => [DirectStop]
    case Move(TakeSnaps, Taken(_)) => [Snapshots]
    case _ => []
  }

  function Gained(h: seq<Move>): seq<Resource> {
    if h == [] then [] else Gained(h[..|h| - 1]) + Gain(h[|h| - 1])
  }

  lemma NextGain(run: Run, o: Outcome)
    ensures Next(run, o).stack.acquired == run.stack.acquired + Gain(Move(run.pc, o))
  {
  }

  lemma {:induction false} NothingMore(h: seq<Move>, i: nat)
    requires i <= |h| && forall j | i <= j < |h| :: Gain(h[j]) == []
    ensures Gained(h) == Gained(h[..i])
    decreases |h|
  {
    if i < |h| {
      NothingMore(h[..|h| - 1], i);
      assert h[..|h| - 1][..i] == h[..i];
    } else {
      assert h[..i] == h;
    }
  }

  // ------------------------------------------------------- every execution

  predicate Journey(run: Run, h: seq<Move>) {
    Climb(run, h) && Around(run, h) && run.stack.acquired == Gained(h)
  }

  lemma NextJourney(run: Run, o: Outcome, h: seq<Move>)
    requires RunOk(run) && Allowed(run, o) && Journey(run, h)
    ensures Journey(Next(run, o), h + [Move(run.pc, o)])
  {
    hide RunOk, Allowed, Next, Climb, Around, Gain;
    NextClimb(run, o, h);
    if BeforeMover(run.pc) {
      NextAroundClimbing(run, o, h);
    } else {
      NextAroundPast(run, o, h);
    }
    NextGain(run, o);
    assert (h + [Move(run.pc, o)])[..|h|] == h;
  }

  /** A mover that ends by itself is no step of the run. */
  lemma ExitJourney(run: Run, h: seq<Move>)
    requires Journey(run, h)
    ensures Journey(run.(mover := run.mover.(up := false)), h)
  {
    hide Route, FirstBad, HasPc, Settled, Kept, Gained;
  }

  lemma StepJourney(s: State, t: Step, r: nat, h: seq<Move>)
    requires RunsOk(s) && Enabled(s, t) && r < |s.runs| && Journey(s.runs[r], h)
    ensures r < |Apply(s, t).runs|
    ensures Journey(Apply(s, t).runs[r], h + if t.Go? && t.r == r then [Move(s.runs[r].pc, t.o)] else [])
  {
    hide RunOk, Journey, Allowed, Agrees, Guard, Next;
    assert h + [] == h;
    assert RunOk(s.runs[r]);
    if t.r == r {
      if t.Go? {
        NextJourney(s.runs[r], t.o, h);
      } else {
        ExitJourney(s.runs[r], h);
      }
    }
  }

  lemma {:induction false} Along(s: State, steps: seq<Step>, r: nat, h: seq<Move>)
    requires Inv(s) && Feasible(s, steps) && r < |s.runs| && Journey(s.runs[r], h)
    ensures r < |After(s, steps).runs| && Journey(After(s, steps).runs[r], h + Moves(s, steps, r))
    decreases |steps|
  {
    hide MutexInv, SlotInv, ColdInv, SnapInv, RunsOk, Enabled, Apply, Journey;
    if steps == [] {
      assert h + [] == h;
    } else {
      var t := steps[0];
      var one := if t.Go? && t.r == r then [Move(s.runs[r].pc, t.o)] else [];
      StepKeepsInv(s, t);
      StepJourney(s, t, r, h);
      Along(Apply(s, t), steps[1..], r, h + one);
      assert h + one + Moves(Apply(s, t), steps[1..], r) == h + (one + Moves(Apply(s, t), steps[1..], r));
    }
  }

  lemma JourneyStarts(job: Job)
    ensures Journey(NewRun(job), [])
  {
  }

  /** Where an execution starts: the configuration, the calls, and what is on the host. */
  datatype Setting = Setting(max: int, jobs: seq<Job>, stopped: set<Container>, base: set<Snap>)

  function Start(g: Setting): State {
    Init(g.max, g.jobs, g.stopped, g.base)
  }

  /** The r-th run after an execution. */
  ghost function RunOf(g: Setting, steps: seq<Step>, r: nat): Run
    requires Feasible(Start(g), steps) && r < |g.jobs|
  {
    InitInv(g.max, g.jobs, g.stopped, g.base);
    JobsKept(Start(g), steps);
    After(Start(g), steps).runs[r]
  }

  /** The run and its steps, after any execution. */
  lemma EveryJourney(g: Setting, steps: seq<Step>, r: nat)
    requires Feasible(Start(g), steps) && r < |g.jobs|
    ensures var s := Start(g);
            && RunOf(g, steps, r).job == g.jobs[r]
            && Journey(RunOf(g, steps, r), Moves(s, steps, r))
            && RunOk(RunOf(g, steps, r))
  {
    hide Inv, Feasible, After, Journey, RunOk, Moves;
    var s := Start(g);
    InitInv(g.max, g.jobs, g.stopped, g.base);
    JourneyStarts(g.jobs[r]);
    Along(s, steps, r, []);
    assert [] + Moves(s, steps, r) == Moves(s, steps, r);
    JobsKept(s, steps);
    InvAlways(s, steps);
    RunsAreOk(After(s, steps));
  }

  lemma RunsAreOk(s: State)
    requires Inv(s)
    ensures forall r: nat | r < |s.runs| :: RunOk(s.runs[r])
  {
  }

  lemma {:induction false} JobsKept(s: State, steps: seq<Step>)
    requires Inv(s) && Feasible(s, steps)
    ensures |After(s, steps).runs| == |s.runs|
    ensures forall r: nat | r < |s.runs| :: After(s, steps).runs[r].job == s.runs[r].job
    decreases |steps|
  {
    hide MutexInv, SlotInv, ColdInv, SnapInv, RunsOk, Enabled, Apply;
    if steps != [] {
      StepKeepsInv(s, steps[0]);
      OneJobKept(s, steps[0]);
      JobsKept(Apply(s, steps[0]), steps[1..]);
    }
  }

  lemma OneJobKept(s: State, t: Step)
    requires Inv(s) && Enabled(s, t)
    ensures |Apply(s, t).runs| == |s.runs|
    ensures forall r: nat | r < |s.runs| :: Apply(s, t).runs[r].job == s.runs[r].job
  {
    hide MutexInv, SlotInv, ColdInv, SnapInv, RunOk, Next;
    if t.Go? {
      StepRun(s, t.r, t.o);
    }
  }

  /** A call before the mover that reports an error. */
  predicate IsFailure(m: Move) {
    || (m.pc.WantSlot? && m.o == Cancelled)
    || ((m.pc.Prepare? || m.pc.InCache? || m.pc.PreHooks?) && m.o == Fail)
    || ((m.pc.InCold? || m.pc.StopDirect?) && m.o.StopFails?)
    || (m.pc.TakeSnaps? && m.o.TakeFails?)
  }

  lemma FailureIsFirstBad(run: Run, h: seq<Move>, i: nat)
    requires Climb(run, h) && i < |h| && IsFailure(h[i])
    ensures i == FirstBad(h) < |Route(run.job.kind)| - 1
  {
    hide Route, FirstBad;
    FirstBadIsFirst(h);
    assert BeforeMover(h[i].pc) && !Succeeded(h[i]);
    assert i == FirstBad(h) && i < |Route(run.job.kind)|;
    SpawnIsLast(run.job.kind, i);
  }

  lemma DownGainsNothing(m: Move)
    requires Down(m.pc) || IsFailure(m)
    ensures Gain(m) == []
  {
  }

  /** In every execution: once a run's call before its mover has failed, the run only gives
      back. It makes no other step, acquires nothing more, and its mover is never up. */
  lemma FailureEndsAscent(g: Setting, steps: seq<Step>, r: nat, i: nat)
    requires Feasible(Start(g), steps) && r < |g.jobs|
    requires i < |Moves(Start(g), steps, r)|
    requires IsFailure(Moves(Start(g), steps, r)[i])
    ensures var s, h := Start(g), Moves(Start(g), steps, r);
            var run := RunOf(g, steps, r);
            && Down(run.pc) && run.mover == Mover(false, false, false)
            && run.stack.acquired == Gained(h[..i])
            && forall j | i < j < |h| :: Down(h[j].pc)
  {
    hide Feasible, After, Moves, RunOk, Around, IsFailure, Gained, Gain, Down, FirstBad, Route, OnRoute;
    var s := Start(g);
    var h, run := Moves(s, steps, r), RunOf(g, steps, r);
    EveryJourney(g, steps, r);
    FailureIsFirstBad(run, h, i);
    forall j | i <= j < |h| ensures Gain(h[j]) == [] {
      DownGainsNothing(h[j]);
    }
    NothingMore(h, i);
  }

  /** In every execution: a run whose mover is up has passed its whole route, every call
      successfully and in order. */
  lemma MoverFollowsRoute(g: Setting, steps: seq<Step>, r: nat)
    requires Feasible(Start(g), steps) && r < |g.jobs|
    requires RunOf(g, steps, r).mover.up
    ensures var h, route := Moves(Start(g), steps, r), Route(g.jobs[r].kind);
            && |h| >= |route|
            && (forall i | 0 <= i < |route| :: h[i].pc == route[i])
            && forall i | 0 <= i < |route| - 1 :: Succeeded(h[i])
  {
    hide Feasible, After, Moves, RunOk, Route, Succeeded, Gained, Settled;
    var s := Start(g);
    var h := Moves(s, steps, r);
    EveryJourney(g, steps, r);
    FirstBadIsFirst(h);
  }

  predicate Passed(h: seq<Move>, pc: Pc) {
    exists i :: 0 <= i < |h| && h[i].pc == pc && (if pc.TakeSnaps? then h[i].o.Taken? else h[i].o == Ok)
  }

  /** Spelled out: the lock, the preparation and the cache for everyone, a slot for backups,
      checks and prunes, hooks and snapshots for backups, the app stopped where it should be. */
  lemma MoverNeedsEverything(g: Setting, steps: seq<Step>, r: nat)
    requires Feasible(Start(g), steps) && r < |g.jobs|
    requires RunOf(g, steps, r).mover.up
    ensures var h, k := Moves(Start(g), steps, r), g.jobs[r].kind;
            && Passed(h, WantKey) && Passed(h, Prepare) && Passed(h, InCache)
            && (k.Backup? || k.Check? || k.Prune? ==> Passed(h, WantSlot))
            && (k.Backup? ==> Passed(h, PreHooks) && Passed(h, TakeSnaps))
            && (k == Backup(true) ==> Passed(h, InCold))
            && (k == Restore(true) ==> Passed(h, StopDirect))
  {
    hide Feasible, After, Moves;
    MoverFollowsRoute(g, steps, r);
    RoutePasses(g.jobs[r].kind, Moves(Start(g), steps, r));
  }

  lemma PassedAt(h: seq<Move>, i: nat)
    requires i < |h| && Succeeded(h[i])
    ensures Passed(h, h[i].pc)
  {
  }

  lemma RoutePasses(k: Kind, h: seq<Move>)
    requires |h| >= |Route(k)| && (forall i | 0 <= i < |Route(k)| :: h[i].pc == Route(k)[i])
    requires forall i | 0 <= i < |Route(k)| - 1 :: Succeeded(h[i])
    ensures Passed(h, WantKey) && Passed(h, Prepare) && Passed(h, InCache)
    ensures k.Backup? || k.Check? || k.Prune? ==> Passed(h, WantSlot)
    ensures k.Backup? ==> Passed(h, PreHooks) && Passed(h, TakeSnaps)
    ensures k == Backup(true) ==> Passed(h, InCold)
    ensures k == Restore(true) ==> Passed(h, StopDirect)
  {
    hide Passed, Succeeded;
    forall i | 0 <= i < |Route(k)| - 1 ensures Passed(h, Route(k)[i]) {
      PassedAt(h, i);
    }
    var n := |Route(k)|;
    assert Route(k)[3] == WantKey && Passed(h, Route(k)[3]);
    if k.Backup? || k.Check? || k.Prune? {
      assert Passed(h, Route(k)[4]) && Passed(h, Route(k)[5]) && Passed(h, Route(k)[7]);
      if k.Backup? {
        assert Passed(h, Route(k)[8]) && Passed(h, Route(k)[n - 2]) && Passed(h, Route(k)[n - 3]);
      }
    } else {
      assert Passed(h, Route(k)[4]) && Passed(h, Route(k)[6]);
      if k == Restore(true) {
        assert Passed(h, Route(k)[7]);
      }
    }
  }

  /** In every execution: a mover is kept exactly if it was awaited by a hot backup when the
      process was told to stop. */
  lemma KeptExactly(g: Setting, steps: seq<Step>, r: nat)
    requires Feasible(Start(g), steps) && r < |g.jobs|
    ensures var s := Start(g);
            RunOf(g, steps, r).mover.kept <==>
            g.jobs[r].kind == Backup(false) && Move(AwaitMover, Cancelled) in Moves(s, steps, r)
  {
    hide Feasible, After, Moves, RunOk, Climb, Settled, HasPc, Gained;
    EveryJourney(g, steps, r);
  }

  /** In every execution: a run that got as far as its mover and is done has seen the mover
      end, kept it, tried to remove it, or never got it; and a backup has run its post-hooks,
      whatever became of the mover. */
  lemma FinishedWithMover(g: Setting, steps: seq<Step>, r: nat)
    requires Feasible(Start(g), steps) && r < |g.jobs|
    requires RunOf(g, steps, r).pc.Done?
    ensures var h, k := Moves(Start(g), steps, r), g.jobs[r].kind;
            && (HasPc(h, SpawnMover) ==>
                  || Move(AwaitMover, MoverDone) in h || HasPc(h, RemoveMover)
                  || (k == Backup(false) && Move(AwaitMover, Cancelled) in h)
                  || Move(SpawnMover, Fail) in h || Move(SpawnMover, Unnoticed) in h)
            && (HasPc(h, PostHooks) <==> k.Backup? && HasPc(h, SpawnMover))
  {
    hide Feasible, After, Moves, RunOk, Climb, HasPc, Gained, Route, FirstBad;
    EveryJourney(g, steps, r);
  }

  // ------------------------------------------------------------- the cache

  /** The run created the cache volume, or found it there. */
  ghost predicate MadeCache(s: State, steps: seq<Step>, q: int)
    requires Feasible(s, steps)
  {
    0 <= q < |s.runs| && Move(InCache, Ok) in Moves(s, steps, q)
  }

  lemma MadeCacheStep(s: State, steps: seq<Step>, q: int)
    requires Feasible(s, steps) && steps != []
    ensures var t := steps[0];
            MadeCache(s, steps, q) <==>
            (t.Go? && t.r == q && s.runs[q].pc.InCache? && t.o == Ok) || MadeCache(Apply(s, t), steps[1..], q)
  {
    hide Next, HeldAfter, RefsAfter, StoppedAfter, LiveAfter, SlotsAfter, ColdCalls;
  }

  lemma {:induction false} CacheExactly(s: State, steps: seq<Step>)
    requires Feasible(s, steps)
    ensures After(s, steps).cacheOK <==> s.cacheOK || exists q :: MadeCache(s, steps, q)
    decreases |steps|
  {
    hide MadeCache, Next, HeldAfter, RefsAfter, StoppedAfter, LiveAfter, SlotsAfter, ColdCalls;
    if steps == [] {
      NoCacheYet(s);
    } else {
      var t, rest := steps[0], Apply(s, steps[0]);
      CacheExactly(rest, steps[1..]);
      if q :| MadeCache(rest, steps[1..], q) {
        MadeCacheStep(s, steps, q);
      }
      MadeCacheStep(s, steps, t.r);
      if q :| MadeCache(s, steps, q) {
        MadeCacheStep(s, steps, q);
      }
    }
  }

  lemma NoCacheYet(s: State)
    ensures forall q :: !MadeCache(s, [], q)
  {
  }

  /** In every execution: a run can fail at the cache exactly until some run has got it. */
  lemma CacheIsMadeOnce(g: Setting, steps: seq<Step>, r: nat)
    requires Feasible(Start(g), steps) && r < |g.jobs| && RunOf(g, steps, r).pc.InCache?
    ensures Enabled(After(Start(g), steps), Go(r, Fail)) <==> !exists q :: MadeCache(Start(g), steps, q)
  {
    hide MadeCache, Feasible, After;
    InitInv(g.max, g.jobs, g.stopped, g.base);
    JobsKept(Start(g), steps);
    CacheExactly(Start(g), steps);
  }

  // -------------------------------------------------------- what may happen

  /** Every call may fail wherever the code handles it: both outcomes are possible, whatever
      happened before. */
  lemma EitherOutcome(s: State, r: nat, some: set<Snap>, b: bool)
    requires r < |s.runs| && some !! s.live
    ensures var run := s.runs[r];
            var c := run.job.container;
            && (run.pc.Prepare? || run.pc.PreHooks? || run.pc.PostHooks? || run.pc.RemoveMover? ==>
                  Enabled(s, Go(r, Ok)) && Enabled(s, Go(r, Fail)))
            && (run.pc.WantSlot? && s.max > 0 ==> Enabled(s, Go(r, Cancelled)))
            && (run.pc.InCache? ==> Enabled(s, Go(r, Ok)) && (!s.cacheOK ==> Enabled(s, Go(r, Fail))))
            && (run.pc.InCold? ==> Enabled(s, Go(r, Ok)) && (Refs(s, c) == 0 ==> Enabled(s, Go(r, StopFails(b)))))
            && (run.pc.StopDirect? ==> Enabled(s, Go(r, Ok)) && Enabled(s, Go(r, StopFails(b))))
            && (run.pc.TakeSnaps? ==> Enabled(s, Go(r, Taken(some))) && Enabled(s, Go(r, TakeFails(some))))
            && (run.pc.SpawnMover? ==> Enabled(s, Go(r, Ok)) && Enabled(s, Go(r, Fail)))
            && (run.pc.SpawnMover? ==> Enabled(s, Go(r, StartFails(b))) && Enabled(s, Go(r, Unnoticed)))
            && (run.pc.AwaitMover? ==> Enabled(s, Go(r, MoverDone)) && Enabled(s, Go(r, WaitLost)))
            && (run.pc.AwaitMover? ==> Enabled(s, Go(r, Deadline)) && Enabled(s, Go(r, Cancelled)))
            && (run.pc.InColdBack? ==> Enabled(s, Go(r, Ok)) && (Refs(s, c) == 1 ==> Enabled(s, Go(r, Fail))))
            && (run.pc.Unwind? && Top(run) == Some(DirectStop) ==> Enabled(s, Go(r, Ok)) && Enabled(s, Go(r, Fail)))
            && (run.pc.Unwind? && Top(run) == Some(Snapshots) && !run.mover.kept ==>
                  Enabled(s, Go(r, CleanUp(run.snaps.mounts))) && Enabled(s, Go(r, CleanUp({}))))
  {
    hide HeldAfter, RefsAfter, StoppedAfter, LiveAfter;
  }

  /** What a step does to the app. A stop that fails may have taken effect all the same; of the
      cold backups of a container only the first one stops it and the last one starts it. */
  lemma StepMovesApp(s: State, r: nat, o: Outcome)
    requires Enabled(s, Go(r, o))
    ensures var run, now := s.runs[r], Apply(s, Go(r, o)).stopped;
            var c := run.job.container;
            var down := (run.pc.StopDirect? && o == Ok) || (run.pc.InCold? && o == Ok && Refs(s, c) == 0) ||
                        o == StopFails(true);
            var up := (run.pc.InColdBack? && o == Ok && Refs(s, c) == 1) ||
                      (run.pc.Unwind? && Top(run) == Some(DirectStop) && o == Ok);
            now == if down then s.stopped + {c} else if up then s.stopped - {c} else s.stopped
  {
    hide HeldAfter, RefsAfter, LiveAfter, SlotsAfter, Next;
  }

  /** What a step does to the run's mover. A mover whose start was reported as failed may be up,
      and one that is up after its removal, or after a creation that seemed to fail, is orphaned. */
  lemma StepMovesMover(s: State, r: nat, o: Outcome)
    requires Enabled(s, Go(r, o))
    ensures var run, now := s.runs[r], Apply(s, Go(r, o)).runs[r].mover;
            match run.pc
            case SpawnMover =>
              && (o == Ok || o == StartFails(true) || o == Unnoticed ==> now.up)
              && (o == Fail ==> now == run.mover) && (o == StartFails(false) ==> !now.up)
              && (o == Unnoticed ==> now.orphaned) && (o == Ok || o.StartFails? ==> !now.orphaned)
            case AwaitMover => now.up == (run.mover.up && o != MoverDone)
            case RemoveMover => now.up == (run.mover.up && o == Fail) && now.orphaned == now.up
            case _ => now == run.mover
  {
    hide HeldAfter, RefsAfter, LiveAfter, SlotsAfter, StoppedAfter, ColdCalls;
  }
}
