/**
 The backup orchestrator as a transition system over any number of concurrent
 runs: the per-repository lock, the concurrency slot, the cache mutex, the
 cold-stop reference count, snapshots, the mover, and the deferred releases.

 Every blocking call and every external call is one step. External calls may
 succeed or fail; which one happened is the step's `Outcome`.
 */
module Orchestrator {
  import opened Lists

  type Key = string
  type Container = string
  type Snap = string

  /** What a run was called for: RunTarget, RunCheck, RunPrune, RunSnapshots, RunRestore. */
  datatype Kind = Backup(cold: bool) | Check | Prune | ListSnapshots | Restore(stop: bool)

  datatype Job = Job(kind: Kind, key: Key, container: Container)

  /** The mutexes a run may lock. They have no owner, only a locked bit. */
  datatype Mutex = TableMu | KeyMu(key: Key) | CacheMu | ColdsMu | ColdMu(container: Container)

  /** The deferred releases, in the order RunTarget and RunRestore push them. */
  datatype Resource = RepoKey | Slot | ColdHold | DirectStop | Snapshots

  datatype Pc =
    | Begin
    | WantTable | InTable | WantKey          // keyedMutex.lock
    | WantSlot                               // acquire
    | Prepare                                // timeout, resticEnv
    | WantCache | InCache                    // ensureCache
    | PreHooks
    | WantColds | InColds                    // coldStops.get
    | WantCold | InCold                      // coldStop.hold
    | StopDirect                             // RunRestore calls the quiescer itself
    | TakeSnaps                              // sourceMountsFor
    | SpawnMover | AwaitMover | RemoveMover  // Engine.RunMover
    | PostHooks
    | Unwind                                 // run the deferred functions, last first
    | WantColdBack | InColdBack              // coldStop.release
    | Done

  /** A Go defer stack, with the history of what was acquired and released. */
  datatype Stack = Stack(defers: seq<Resource>, acquired: seq<Resource>, released: seq<Resource>)

  datatype Mover = Mover(
    up: bool,             // the mover container is running
    kept: bool,           // RunMover reported the mover as left running
    orphaned: bool)       // it runs and nobody will remove it: the forced removal failed,
                          // or the call that started it reported an error

  datatype Snaps = Snaps(
    mounts: set<Snap>,    // snapshots taken for the mover to read
    leaked: set<Snap>)    // those whose destroy failed

  /** One call of an orchestrator entry point. */
  datatype Run = Run(job: Job, pc: Pc, stack: Stack, mover: Mover, snaps: Snaps)

  /** What the cold-stop coordinator did to a container. */
  datatype ColdEvent =
    | Stopped(container: Container)
    | StopFailed(container: Container)
    | Started(container: Container)
    | StartFailed(container: Container)

  datatype State = State(
    max: int,                      // SABON_MAX_PARALLEL; <= 0 means unlimited
    runs: seq<Run>,
    held: set<Mutex>,              // locked mutexes
    slots: nat,                    // length of the semaphore channel
    cacheOK: bool,
    refs: map<Container, int>,     // coldStop.refs
    stopped: set<Container>,       // containers that are down
    base: set<Snap>,               // snapshots that no run of this process took
    live: set<Snap>,               // snapshots that exist on the host
    log: seq<ColdEvent>)

  /** How an external call went. */
  datatype Outcome =
    | Ok
    | Fail
    | StopFails(nowStopped: bool)
    | Taken(snaps: set<Snap>)
    | TakeFails(stay: set<Snap>)       // snapshots of a failed call whose rollback failed too
    | StartFails(running: bool)
    | Unnoticed                        // a Swarm service was created, but the call failed
    | MoverDone | WaitLost | Deadline | Cancelled
    | CleanUp(left: set<Snap>)

  datatype Step = Go(r: nat, o: Outcome) | MoverExits(r: nat)

  // ---------------------------------------------------------------- the code

  predicate NeedsSlot(k: Kind) {
    k.Backup? || k.Check? || k.Prune?
  }

  /** `KeepOnShutdown: !job.Spec.Stop` for backups, unset for everything else. */
  predicate KeepOnShutdown(k: Kind) {
    k == Backup(false)
  }

  function AfterKey(k: Kind): Pc {
    if NeedsSlot(k) then WantSlot else Prepare
  }

  function AfterCache(k: Kind): Pc {
    match k
    case Backup(_) => PreHooks
    case Restore(stop) => if stop then StopDirect else SpawnMover
    case _ => SpawnMover
  }

  function AfterHooks(k: Kind): Pc {
    if k == Backup(true) then WantColds else TakeSnaps
  }

  function AfterMover(k: Kind): Pc {
    if k.Backup? then PostHooks else Unwind
  }

  function CountIn(refs: map<Container, int>, c: Container): int {
    if c in refs then refs[c] else 0
  }

  function Refs(s: State, c: Container): int {
    CountIn(s.refs, c)
  }

  predicate SlotFree(s: State) {
    s.max <= 0 || s.slots < s.max
  }

  /** The guard of a blocking call: a mutex is free, the semaphore has room or,
      when a slot is returned, is not empty. */
  predicate Guard(s: State, run: Run) {
    match run.pc
    case WantTable => TableMu !in s.held
    case WantKey => KeyMu(run.job.key) !in s.held
    case WantSlot => SlotFree(s)
    case WantCache => CacheMu !in s.held
    case WantColds => ColdsMu !in s.held
    case WantCold | WantColdBack => ColdMu(run.job.container) !in s.held
    case Unwind => Top(run) == Some(Slot) && s.max > 0 ==> s.slots > 0
    case _ => true
  }

  /** The outcomes a call can have by itself. */
  predicate Allowed(run: Run, o: Outcome) {
    match run.pc
    case WantSlot => o == Ok || o == Cancelled
    case Prepare | InCache | PreHooks | PostHooks | RemoveMover => o == Ok || o == Fail
    case InCold | StopDirect => o == Ok || o.StopFails?
    case TakeSnaps => o.Taken? || o.TakeFails?
    case SpawnMover => o == Ok || o == Fail || o.StartFails? || o == Unnoticed
    case AwaitMover => o == MoverDone || o == WaitLost || o == Deadline || o == Cancelled
    case Unwind =>
      (match Top(run)
       case Some(Snapshots) => o.CleanUp? && o.left <= run.snaps.mounts && (run.mover.kept ==> o.left == {})
       case Some(DirectStop) => o == Ok || o == Fail
       case _ => o == Ok)
    case InColdBack => o == Ok || o == Fail
    case Done => false
    case _ => o == Ok
  }

  /** What the shared state says about the outcome: no cancelled wait for a slot
      without a semaphore, no cache error once the cache exists, no failing stop
      or start when hold or release does not call them, and new snapshots are new. */
  predicate Agrees(s: State, run: Run, o: Outcome) {
    match run.pc
    case WantSlot => o == Cancelled ==> s.max > 0
    case InCache => o == Fail ==> !s.cacheOK
    case InCold => o.StopFails? ==> Refs(s, run.job.container) == 0
    case TakeSnaps => (o.Taken? ==> o.snaps !! s.live) && (o.TakeFails? ==> o.stay !! s.live)
    case InColdBack => o == Fail ==> Refs(s, run.job.container) == 1
    case _ => true
  }

  predicate Enabled(s: State, t: Step) {
    t.r < |s.runs| &&
    match t
    case Go(r, o) =>
      Allowed(s.runs[r], o) && Agrees(s, s.runs[r], o) &&
      (Guard(s, s.runs[r]) || (s.runs[r].pc.WantSlot? && o == Cancelled))
    case MoverExits(r) => s.runs[r].mover.up
  }

  /** The deferred function that runs next. */
  function Top(run: Run): Option<Resource> {
    var d := run.stack.defers;
    if d == [] then None else Some(d[|d| - 1])
  }

  /** `defer release` of a resource just acquired. */
  function Pushed(st: Stack, res: Resource): Stack {
    Stack(st.defers + [res], st.acquired + [res], st.released)
  }

  /** The deferred release at the top of the stack has run. */
  function Popped(st: Stack): Stack {
    if st.defers == [] then st
    else
      var n := |st.defers| - 1;
      Stack(st.defers[..n], st.acquired, st.released + [st.defers[n]])
  }

  function At(run: Run, pc: Pc): Run {
    run.(pc := pc)
  }

  function Push(run: Run, res: Resource, pc: Pc): Run {
    run.(pc := pc, stack := Pushed(run.stack, res))
  }

  function Pop(run: Run): Run {
    run.(pc := Unwind, stack := Popped(run.stack))
  }

  /** RunMover's outcomes, up to the deferred forced removal. */
  function SpawnNext(run: Run, o: Outcome): Run {
    match o
    case Ok => run.(mover := Mover(true, false, false), pc := AwaitMover)
    case StartFails(running) => run.(mover := Mover(running, false, false), pc := RemoveMover)
    case Unnoticed => run.(mover := Mover(true, false, true), pc := AfterMover(run.job.kind))
    case _ => At(run, AfterMover(run.job.kind))
  }

  function AwaitNext(run: Run, o: Outcome): Run {
    match o
    case MoverDone => run.(mover := Mover(false, false, false), pc := AfterMover(run.job.kind))
    case Cancelled =>
      if KeepOnShutdown(run.job.kind) then
        run.(mover := Mover(run.mover.up, true, false), pc := AfterMover(run.job.kind))
      else At(run, RemoveMover)
    case _ => At(run, RemoveMover)
  }

  /** One deferred function. The snapshot cleanup is skipped for a kept mover. */
  function UnwindNext(run: Run, o: Outcome): Run {
    match Top(run)
    case None => At(run, Done)
    case Some(ColdHold) => At(run, WantColdBack)
    case Some(Snapshots) =>
      if run.mover.kept || !o.CleanUp? then Pop(run) else Pop(run).(snaps := run.snaps.(leaked := o.left))
    case Some(_) => Pop(run)
  }

  /** What one step does to the run itself: its program point, defer stack and mover. */
  function Next(run: Run, o: Outcome): Run {
    var k := run.job.kind;
    match run.pc
    case Begin => At(run, WantTable)
    case WantTable => At(run, InTable)
    case InTable => At(run, WantKey)
    case WantKey => Push(run, RepoKey, AfterKey(k))
    case WantSlot => if o == Ok then Push(run, Slot, Prepare) else At(run, Unwind)
    case Prepare => At(run, if o == Ok then WantCache else Unwind)
    case WantCache => At(run, InCache)
    case InCache => At(run, if o == Ok then AfterCache(k) else Unwind)
    case PreHooks => At(run, if o == Ok then AfterHooks(k) else Unwind)
    case WantColds => At(run, InColds)
    case InColds => At(run, WantCold)
    case WantCold => At(run, InCold)
    case InCold => if o == Ok then Push(run, ColdHold, TakeSnaps) else At(run, Unwind)
    case StopDirect => if o == Ok then Push(run, DirectStop, SpawnMover) else At(run, Unwind)
    case TakeSnaps =>
      if o.Taken? then Push(run, Snapshots, SpawnMover).(snaps := Snaps(o.snaps, {}))
      else At(run, Unwind).(snaps := Snaps({}, if o.TakeFails? then o.stay else {}))
    case SpawnMover => SpawnNext(run, o)
    case AwaitMover => AwaitNext(run, o)
    case RemoveMover =>
      var left := run.mover.up && o == Fail;
      run.(mover := Mover(left, false, left), pc := AfterMover(k))
    case PostHooks => At(run, Unwind)
    case Unwind => UnwindNext(run, o)
    case WantColdBack => At(run, InColdBack)
    case InColdBack => Pop(run)
    case Done => run
  }

  /** Mutexes locked and unlocked. */
  function HeldAfter(s: State, run: Run): set<Mutex> {
    match run.pc
    case WantTable => s.held + {TableMu}
    case InTable => s.held - {TableMu}
    case WantKey => s.held + {KeyMu(run.job.key)}
    case WantCache => s.held + {CacheMu}
    case InCache => s.held - {CacheMu}
    case WantColds => s.held + {ColdsMu}
    case InColds => s.held - {ColdsMu}
    case WantCold | WantColdBack => s.held + {ColdMu(run.job.container)}
    case InCold | InColdBack => s.held - {ColdMu(run.job.container)}
    case Unwind => if Top(run) == Some(RepoKey) then s.held - {KeyMu(run.job.key)} else s.held
    case _ => s.held
  }

  /** acquire and release; both do nothing without a semaphore. */
  function SlotsAfter(s: State, run: Run, o: Outcome): nat {
    if s.max <= 0 then s.slots
    else if run.pc.WantSlot? && o == Ok then s.slots + 1
    else if run.pc.Unwind? && Top(run) == Some(Slot) && s.slots > 0 then s.slots - 1
    else s.slots
  }

  /** coldStop.hold counts a holder unless its stop failed; release drops one. */
  function RefsAfter(s: State, run: Run, o: Outcome): map<Container, int> {
    var c := run.job.container;
    if run.pc.InCold? && o == Ok then s.refs[c := Refs(s, c) + 1]
    else if run.pc.InColdBack? then s.refs[c := Refs(s, c) - 1]
    else s.refs
  }

  /** The stop and start calls of the cold-stop coordinator: the first holder stops,
      the last one starts. */
  function ColdCalls(s: State, run: Run, o: Outcome): seq<ColdEvent> {
    var c := run.job.container;
    if run.pc.InCold? && Refs(s, c) == 0 then [if o == Ok then Stopped(c) else StopFailed(c)]
    else if run.pc.InColdBack? && Refs(s, c) == 1 then [if o == Ok then Started(c) else StartFailed(c)]
    else []
  }

  /** Containers that are down. A failing stop may or may not have taken effect. */
  function StoppedAfter(s: State, run: Run, o: Outcome): set<Container> {
    var c := run.job.container;
    if o.StopFails? then (if o.nowStopped then s.stopped + {c} else s.stopped)
    else if run.pc.StopDirect? || ColdCalls(s, run, o) == [Stopped(c)] then s.stopped + {c}
    else if ColdCalls(s, run, o) == [Started(c)] then s.stopped - {c}
    else if run.pc.Unwind? && Top(run) == Some(DirectStop) && o == Ok then s.stopped - {c}
    else s.stopped
  }

  function LiveAfter(s: State, run: Run, o: Outcome): set<Snap> {
    if o.Taken? then s.live + o.snaps
    else if o.TakeFails? then s.live + o.stay
    else if o.CleanUp? && !run.mover.kept then s.live - (run.snaps.mounts - o.left)
    else s.live
  }

  function Apply(s: State, t: Step): State
    requires Enabled(s, t)
  {
    var run := s.runs[t.r];
    match t
    case MoverExits(r) => s.(runs := s.runs[r := run.(mover := run.mover.(up := false))])
    case Go(r, o) =>
      s.(runs := s.runs[r := Next(run, o)],
         held := HeldAfter(s, run),
         slots := SlotsAfter(s, run, o),
         cacheOK := s.cacheOK || (run.pc.InCache? && o == Ok),
         refs := RefsAfter(s, run, o),
         stopped := StoppedAfter(s, run, o),
         live := LiveAfter(s, run, o),
         log := s.log + ColdCalls(s, run, o))
  }

  function NewRun(job: Job): Run {
    Run(job, Begin, Stack([], [], []), Mover(false, false, false), Snaps({}, {}))
  }

  function Init(max: int, jobs: seq<Job>, stopped: set<Container>, base: set<Snap>): State {
    State(max, seq(|jobs|, i requires 0 <= i < |jobs| => NewRun(jobs[i])),
          {}, 0, false, map[], stopped, base, base, [])
  }

  predicate Feasible(s: State, steps: seq<Step>)
    decreases |steps|
  {
    steps == [] || (Enabled(s, steps[0]) && Feasible(Apply(s, steps[0]), steps[1..]))
  }

  function After(s: State, steps: seq<Step>): State
    requires Feasible(s, steps)
    decreases |steps|
  {
    if steps == [] then s else After(Apply(s, steps[0]), steps[1..])
  }
}
