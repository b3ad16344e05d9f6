/**
 The inductive invariant of the orchestrator, and that every step keeps it.
 Each part of the invariant is moved along by one general lemma about replacing
 a single run; the steps only have to show what they change.
 */
module OrchestratorInvariant {
  import opened Lists
  import opened Orchestrator

  // ------------------------------------------------------------ what is held

  /** The mutexes a run has locked, read off its program point and defer stack:
      a defer stack that is not empty has the repository unlock at its bottom. */
  function Holds(run: Run): set<Mutex> {
    (if run.stack.defers != [] then {KeyMu(run.job.key)} else {}) + PcHolds(run)
  }

  function PcHolds(run: Run): set<Mutex> {
    match run.pc
    case InTable => {TableMu}
    case InCache => {CacheMu}
    case InColds => {ColdsMu}
    case InCold | InColdBack => {ColdMu(run.job.container)}
    case _ => {}
  }

  function SlotHolders(runs: seq<Run>): set<nat> {
    set r: nat | r < |runs| && Slot in runs[r].stack.defers
  }

  function ColdHolders(runs: seq<Run>, c: Container): set<nat> {
    set r: nat | r < |runs| && ColdHold in runs[r].stack.defers && runs[r].job.container == c
  }

  /** The snapshots a run still answers for: all it took until its cleanup has run
      or when its mover was kept, afterwards those whose destroy failed. */
  function Owns(run: Run): set<Snap> {
    if Snapshots in run.stack.defers || run.mover.kept then run.snaps.mounts else run.snaps.leaked
  }

  // ------------------------------------------------------- one run by itself

  /** The whole defer stack of a run that failed nowhere. */
  function FullStack(k: Kind): seq<Resource> {
    match k
    case Backup(cold) => if cold then [RepoKey, Slot, ColdHold, Snapshots] else [RepoKey, Slot, Snapshots]
    case Check | Prune => [RepoKey, Slot]
    case ListSnapshots => [RepoKey]
    case Restore(stop) => if stop then [RepoKey, DirectStop] else [RepoKey]
  }

  function StackSize(k: Kind): nat {
    match k
    case Backup(cold) => if cold then 4 else 3
    case Check | Prune => 2
    case ListSnapshots => 1
    case Restore(stop) => if stop then 2 else 1
  }

  predicate Ascending(pc: Pc) {
    !pc.Unwind? && !pc.WantColdBack? && !pc.InColdBack? && !pc.Done?
  }

  /** How much of the full stack is pushed at a program point before unwinding. */
  function Depth(k: Kind, pc: Pc): nat {
    match pc
    case Begin | WantTable | InTable | WantKey => 0
    case WantSlot => 1
    case Prepare | WantCache | InCache | PreHooks | WantColds | InColds | WantCold | InCold | StopDirect =>
      if NeedsSlot(k) then 2 else 1
    case TakeSnaps => if k == Backup(true) then 3 else 2
    case _ => StackSize(k)
  }

  /** Which program points a kind of run can be at. */
  predicate PcFits(k: Kind, pc: Pc) {
    match pc
    case WantSlot => NeedsSlot(k)
    case PreHooks | TakeSnaps | PostHooks => k.Backup?
    case WantColds | InColds | WantCold | InCold | WantColdBack | InColdBack => k == Backup(true)
    case StopDirect => k == Restore(true)
    case _ => true
  }

  function Reverse<T>(s: seq<T>): seq<T> {
    if s == [] then [] else [s[|s| - 1]] + Reverse(s[..|s| - 1])
  }

  /** What is left on the defer stack and what was released make up what was acquired. */
  predicate ChainOk(k: Kind, st: Stack) {
    && st.acquired <= FullStack(k)
    && st.acquired == st.defers + Reverse(st.released)
  }

  predicate PlaceOk(run: Run) {
    && PcFits(run.job.kind, run.pc)
    && (Ascending(run.pc) ==>
          run.stack.released == [] && |run.stack.defers| == Depth(run.job.kind, run.pc))
    && (run.pc.WantColdBack? || run.pc.InColdBack? ==> |run.stack.defers| == 3)
    && (run.pc.Done? ==> run.stack.defers == [])
  }

  predicate StackOk(run: Run) {
    ChainOk(run.job.kind, run.stack) && PlaceOk(run)
  }

  /** The mover has not been spawned yet. */
  predicate BeforeMover(pc: Pc) {
    Ascending(pc) && !pc.AwaitMover? && !pc.RemoveMover? && !pc.PostHooks?
  }

  predicate MoverOk(run: Run) {
    && (BeforeMover(run.pc) ==> !run.mover.up && !run.mover.kept && !run.mover.orphaned && run.snaps.leaked == {})
    && (run.pc.AwaitMover? || run.pc.RemoveMover? ==> !run.mover.kept && !run.mover.orphaned)
    && (Ascending(run.pc) ==> run.snaps.leaked == {})
    && (run.mover.kept ==> KeepOnShutdown(run.job.kind) && !run.mover.orphaned)
    && (run.mover.up ==> run.pc.AwaitMover? || run.pc.RemoveMover? || run.mover.kept || run.mover.orphaned)
    && (Snapshots !in run.stack.acquired ==> run.snaps.mounts == {})
    && (Snapshots in run.stack.acquired ==> run.snaps.leaked <= run.snaps.mounts)
    && (run.mover.up || run.mover.kept ==> run.stack.acquired == FullStack(run.job.kind))
  }

  predicate RunOk(run: Run) {
    StackOk(run) && MoverOk(run)
  }

  // ------------------------------------------------------------ all together

  ghost predicate MutexInv(s: State) {
    && (forall r: nat | r < |s.runs| :: Holds(s.runs[r]) <= s.held)
    && (forall q: nat, r: nat | q < |s.runs| && r < |s.runs| && q != r ::
          Holds(s.runs[q]) !! Holds(s.runs[r]))
    && (forall m | m in s.held :: exists r: nat :: r < |s.runs| && m in Holds(s.runs[r]))
  }

  ghost predicate SlotInv(s: State) {
    s.slots == (if s.max > 0 then |SlotHolders(s.runs)| else 0) && (s.max > 0 ==> s.slots <= s.max)
  }

  ghost predicate ColdInv(s: State) {
    forall c :: Refs(s, c) == |ColdHolders(s.runs, c)|
  }

  ghost predicate SnapInv(s: State) {
    && s.base <= s.live
    && (forall r: nat | r < |s.runs| :: Owns(s.runs[r]) <= s.live && Owns(s.runs[r]) !! s.base)
    && (forall q: nat, r: nat | q < |s.runs| && r < |s.runs| && q != r ::
          Owns(s.runs[q]) !! Owns(s.runs[r]))
    && (forall x | x in s.live && x !in s.base :: exists r: nat :: r < |s.runs| && x in Owns(s.runs[r]))
  }

  ghost predicate RunsOk(s: State) {
    forall r: nat | r < |s.runs| :: RunOk(s.runs[r])
  }

  ghost predicate Inv(s: State) {
    RunsOk(s) && MutexInv(s) && SlotInv(s) && ColdInv(s) && SnapInv(s)
  }

  // -------------------------------------------------- replacing a single run

  /** s2 is s with run r replaced. */
  predicate OneRun(s: State, s2: State, r: nat) {
    r < |s.runs| && |s2.runs| == |s.runs| && s2.runs == s.runs[r := s2.runs[r]]
  }

  lemma MutexMoves(s: State, s2: State, r: nat)
    requires MutexInv(s) && OneRun(s, s2, r)
    requires var H, H2 := Holds(s.runs[r]), Holds(s2.runs[r]);
             s2.held == s.held - H + H2 && (H2 - H) !! s.held
    ensures MutexInv(s2)
  {
    forall m | m in s2.held
      ensures exists q: nat :: q < |s2.runs| && m in Holds(s2.runs[q])
    {
      if m in Holds(s2.runs[r]) {
      } else {
        var q: nat :| q < |s.runs| && m in Holds(s.runs[q]);
        assert m in Holds(s2.runs[q]);
      }
    }
  }

  /** Two sets that agree everywhere but at r. */
  lemma CountMoves(A: set<nat>, B: set<nat>, r: nat)
    requires A - {r} == B - {r}
    ensures |B| == |A| + (if r in B then 1 else 0) - (if r in A then 1 else 0)
  {
    var C := A - {r};
    assert A == if r in A then C + {r} else C;
    assert B == if r in B then C + {r} else C;
  }

  lemma SlotMoves(s: State, s2: State, r: nat)
    requires OneRun(s, s2, r)
    ensures var had, has := Slot in s.runs[r].stack.defers, Slot in s2.runs[r].stack.defers;
            |SlotHolders(s2.runs)| ==
              |SlotHolders(s.runs)| + (if has then 1 else 0) - (if had then 1 else 0)
  {
    CountMoves(SlotHolders(s.runs), SlotHolders(s2.runs), r);
  }

  lemma ColdMoves(s: State, s2: State, r: nat, c: Container)
    requires OneRun(s, s2, r) && s2.runs[r].job == s.runs[r].job
    ensures var at := s.runs[r].job.container == c;
            var had, has := at && ColdHold in s.runs[r].stack.defers, at && ColdHold in s2.runs[r].stack.defers;
            |ColdHolders(s2.runs, c)| ==
              |ColdHolders(s.runs, c)| + (if has then 1 else 0) - (if had then 1 else 0)
  {
    CountMoves(ColdHolders(s.runs, c), ColdHolders(s2.runs, c), r);
  }

  lemma SnapMoves(s: State, s2: State, r: nat)
    requires SnapInv(s) && OneRun(s, s2, r) && s2.base == s.base
    requires var O, O2 := Owns(s.runs[r]), Owns(s2.runs[r]);
             s2.live == s.live - O + O2 && (O2 - O) !! s.live
    ensures SnapInv(s2)
  {
    forall x | x in s2.live && x !in s2.base
      ensures exists q: nat :: q < |s2.runs| && x in Owns(s2.runs[q])
    {
      if x in Owns(s2.runs[r]) {
      } else {
        var q: nat :| q < |s.runs| && x in Owns(s.runs[q]);
        assert x in Owns(s2.runs[q]);
      }
    }
  }

  // --------------------------------------------------------- the steps of it

  lemma ReverseSnoc<T>(s: seq<T>, x: T)
    ensures Reverse(s + [x]) == [x] + Reverse(s)
  {
    assert (s + [x])[..|s|] == s;
  }

  lemma PopChain(k: Kind, st: Stack)
    requires st.defers != [] && ChainOk(k, st)
    ensures ChainOk(k, Popped(st))
    ensures st.defers[|st.defers| - 1] == FullStack(k)[|st.defers| - 1]
  {
    hide FullStack, Reverse;
    var n := |st.defers| - 1;
    var x, rest := st.defers[n], Reverse(st.released);
    ReverseSnoc(st.released, x);
    assert st.defers + rest == st.defers[..n] + ([x] + rest);
    assert x == st.acquired[n];
  }

  /** The resource pushed by a successful step at this program point. */
  function Pushes(pc: Pc): Option<Resource> {
    match pc
    case WantKey => Some(RepoKey)
    case WantSlot => Some(Slot)
    case InCold => Some(ColdHold)
    case StopDirect => Some(DirectStop)
    case TakeSnaps => Some(Snapshots)
    case _ => None
  }

  lemma PushPlace(k: Kind, pc: Pc)
    requires PcFits(k, pc) && Pushes(pc).Some?
    ensures Depth(k, pc) < |FullStack(k)| && FullStack(k)[Depth(k, pc)] == Pushes(pc).value
  {
  }

  /** The three things a step can do to the defer stack. */
  lemma NextShape(run: Run, o: Outcome)
    ensures Next(run, o).job == run.job
    ensures var n := Next(run, o).stack;
            || n == run.stack
            || (Pushes(run.pc).Some? && n == Pushed(run.stack, Pushes(run.pc).value))
            || (!Ascending(run.pc) && n == Popped(run.stack))
  {
  }

  lemma NextChain(run: Run, o: Outcome)
    requires StackOk(run)
    ensures ChainOk(run.job.kind, Next(run, o).stack)
  {
    hide Next, FullStack, Depth;
    var k := run.job.kind;
    NextShape(run, o);
    if Pushes(run.pc).Some? {
      PushPlace(k, run.pc);
    } else if run.stack.defers != [] {
      PopChain(k, run.stack);
    }
  }

  /** Program points up to the cache, common to every kind of run. */
  predicate Early(pc: Pc) {
    || pc.Begin? || pc.WantTable? || pc.InTable? || pc.WantKey? || pc.WantSlot?
    || pc.Prepare? || pc.WantCache? || pc.InCache?
  }

  lemma NextPlaceEarly(run: Run, o: Outcome)
    requires PlaceOk(run) && Allowed(run, o) && Early(run.pc)
    ensures PlaceOk(Next(run, o))
  {
  }

  predicate AtMover(pc: Pc) {
    pc.SpawnMover? || pc.AwaitMover? || pc.RemoveMover? || pc.PostHooks?
  }

  lemma NextPlaceMiddle(run: Run, o: Outcome)
    requires PlaceOk(run) && Allowed(run, o) && Ascending(run.pc) && !Early(run.pc) && !AtMover(run.pc)
    ensures PlaceOk(Next(run, o))
  {
  }

  lemma NextPlaceMover(run: Run, o: Outcome)
    requires PlaceOk(run) && Allowed(run, o) && AtMover(run.pc)
    ensures PlaceOk(Next(run, o))
  {
  }

  lemma NextPlaceDown(run: Run, o: Outcome)
    requires PlaceOk(run) && Allowed(run, o) && !Ascending(run.pc)
    requires Top(run) == Some(ColdHold) ==> run.job.kind == Backup(true) && |run.stack.defers| == 3
    ensures PlaceOk(Next(run, o))
  {
  }

  lemma NextMoverBefore(run: Run, o: Outcome)
    requires PlaceOk(run) && MoverOk(run) && Allowed(run, o) && Ascending(run.pc) && !AtMover(run.pc)
    requires run.pc.TakeSnaps? ==> Snapshots !in run.stack.acquired
    ensures MoverOk(Next(run, o))
  {
  }

  lemma NotSnappedYet(run: Run)
    requires StackOk(run) && run.pc.TakeSnaps?
    ensures Snapshots !in run.stack.acquired
  {
    DefersHave(run.job.kind, run.stack);
    assert run.stack.acquired == run.stack.defers + [];
  }

  lemma NextMoverAt(run: Run, o: Outcome)
    requires StackOk(run) && MoverOk(run) && Allowed(run, o) && AtMover(run.pc)
    ensures MoverOk(Next(run, o))
  {
    hide KeepOnShutdown;
  }

  lemma NextMoverDown(run: Run, o: Outcome)
    requires PlaceOk(run) && MoverOk(run) && Allowed(run, o) && !Ascending(run.pc)
    ensures MoverOk(Next(run, o))
  {
    hide PcFits, Depth;
  }

  lemma ColdOnTop(k: Kind, run: Run)
    requires ChainOk(k, run.stack)
    ensures Top(run) == Some(ColdHold) ==> k == Backup(true) && |run.stack.defers| == 3
  {
    if run.stack.defers != [] {
      PopChain(k, run.stack);
    }
  }

  lemma NextRunOk(run: Run, o: Outcome)
    requires RunOk(run) && Allowed(run, o)
    ensures RunOk(Next(run, o)) && Next(run, o).job == run.job
  {
    hide Next, MoverOk, PlaceOk, ChainOk, Allowed, Top;
    NextChain(run, o);
    NextShape(run, o);
    if AtMover(run.pc) {
      NextPlaceMover(run, o);
      NextMoverAt(run, o);
    } else if !Ascending(run.pc) {
      ColdOnTop(run.job.kind, run);
      NextPlaceDown(run, o);
      NextMoverDown(run, o);
    } else {
      if run.pc.TakeSnaps? {
        NotSnappedYet(run);
      }
      NextMoverBefore(run, o);
      if Early(run.pc) {
        NextPlaceEarly(run, o);
      } else {
        NextPlaceMiddle(run, o);
      }
    }
  }

  // ------------------------------------------------------ shared state moves

  predicate SnapsByDepth(k: Kind, st: Stack) {
    Snapshots in st.defers <==> k.Backup? && |st.defers| >= StackSize(k)
  }

  /** Which resources a prefix of the full stack contains, by its length. */
  lemma DefersHave(k: Kind, st: Stack)
    requires ChainOk(k, st)
    ensures RepoKey in st.defers <==> |st.defers| >= 1
    ensures Slot in st.defers <==> NeedsSlot(k) && |st.defers| >= 2
    ensures ColdHold in st.defers <==> k == Backup(true) && |st.defers| >= 3
    ensures SnapsByDepth(k, st)
    ensures |st.defers| <= StackSize(k)
  {
    var d, f := st.defers, FullStack(k);
    assert forall i | 0 <= i < |d| :: d[i] == st.acquired[i] == f[i];
    if |d| >= 1 { assert d[0] == f[0]; }
    if |d| >= 2 { assert d[1] == f[1]; }
    if |d| >= 3 { assert d[2] == f[2]; }
    if |d| >= 4 { assert d[3] == f[3]; }
  }

  lemma NextHeld(s: State, run: Run, o: Outcome)
    requires PlaceOk(run) && Allowed(run, o) && (Guard(s, run) || run.pc.WantSlot?)
    requires Holds(run) <= s.held
    requires Top(run) == Some(RepoKey) <==> |run.stack.defers| == 1
    ensures HeldAfter(s, run) == s.held - Holds(run) + Holds(Next(run, o))
    ensures (Holds(Next(run, o)) - Holds(run)) !! s.held
  {
    hide PlaceOk, Allowed, Guard, Holds, Next, HeldAfter, Top;
    if Early(run.pc) {
      NextHeldEarly(s, run, o);
    } else if Ascending(run.pc) {
      NextHeldMiddle(s, run, o);
    } else {
      NextHeldDown(s, run, o);
    }
  }

  lemma NextHeldEarly(s: State, run: Run, o: Outcome)
    requires PlaceOk(run) && Allowed(run, o) && (Guard(s, run) || run.pc.WantSlot?) && Early(run.pc)
    requires Holds(run) <= s.held
    ensures HeldAfter(s, run) == s.held - Holds(run) + Holds(Next(run, o))
    ensures (Holds(Next(run, o)) - Holds(run)) !! s.held
  {
  }

  lemma NextHeldMiddle(s: State, run: Run, o: Outcome)
    requires PlaceOk(run) && Allowed(run, o) && Guard(s, run) && Ascending(run.pc) && !Early(run.pc)
    requires Holds(run) <= s.held
    ensures HeldAfter(s, run) == s.held - Holds(run) + Holds(Next(run, o))
    ensures (Holds(Next(run, o)) - Holds(run)) !! s.held
  {
  }

  lemma NextHeldDown(s: State, run: Run, o: Outcome)
    requires PlaceOk(run) && Allowed(run, o) && Guard(s, run) && !Ascending(run.pc)
    requires Holds(run) <= s.held
    requires Top(run) == Some(RepoKey) <==> |run.stack.defers| == 1
    ensures HeldAfter(s, run) == s.held - Holds(run) + Holds(Next(run, o))
    ensures (Holds(Next(run, o)) - Holds(run)) !! s.held
  {
  }

  function One(b: bool): nat {
    if b then 1 else 0
  }

  lemma NextSlots(s: State, run: Run, o: Outcome)
    requires PlaceOk(run) && Allowed(run, o) && s.max > 0
    requires Guard(s, run) || (run.pc.WantSlot? && o == Cancelled)
    requires Top(run) == Some(Slot) <==> NeedsSlot(run.job.kind) && |run.stack.defers| == 2
    ensures var k := run.job.kind;
            SlotsAfter(s, run, o) == s.slots
              + One(NeedsSlot(k) && |Next(run, o).stack.defers| >= 2)
              - One(NeedsSlot(k) && |run.stack.defers| >= 2)
  {
  }

  lemma NextRefs(s: State, run: Run, o: Outcome, c: Container)
    requires PlaceOk(run) && Allowed(run, o)
    requires Top(run) == Some(ColdHold) <==> run.job.kind == Backup(true) && |run.stack.defers| == 3
    ensures var cold := run.job.kind == Backup(true) && run.job.container == c;
            CountIn(RefsAfter(s, run, o), c) == Refs(s, c)
              + One(cold && |Next(run, o).stack.defers| >= 3)
              - One(cold && |run.stack.defers| >= 3)
  {
  }

  lemma NextLive(s: State, run: Run, o: Outcome)
    requires PlaceOk(run) && MoverOk(run) && Allowed(run, o) && Agrees(s, run, o)
    requires Owns(run) <= s.live
    requires SnapsByDepth(run.job.kind, run.stack) && SnapsByDepth(run.job.kind, Next(run, o).stack)
    requires Top(run) == Some(Snapshots) <==> run.job.kind.Backup? && |run.stack.defers| == StackSize(run.job.kind)
    ensures LiveAfter(s, run, o) == s.live - Owns(run) + Owns(Next(run, o))
    ensures (Owns(Next(run, o)) - Owns(run)) !! s.live
  {
    hide PlaceOk, MoverOk, Allowed, Agrees, Next, Owns, LiveAfter, Top, SnapsByDepth;
    if run.pc.TakeSnaps? {
      NextLiveTaking(s, run, o);
    } else if run.pc.Unwind? {
      NextLiveDown(s, run, o);
    } else {
      NextLiveElse(s, run, o);
    }
  }

  lemma NextLiveTaking(s: State, run: Run, o: Outcome)
    requires PlaceOk(run) && MoverOk(run) && Allowed(run, o) && Agrees(s, run, o) && run.pc.TakeSnaps?
    requires Owns(run) <= s.live
    requires SnapsByDepth(run.job.kind, run.stack) && SnapsByDepth(run.job.kind, Next(run, o).stack)
    ensures LiveAfter(s, run, o) == s.live - Owns(run) + Owns(Next(run, o))
    ensures (Owns(Next(run, o)) - Owns(run)) !! s.live
  {
  }

  lemma NextLiveElse(s: State, run: Run, o: Outcome)
    requires PlaceOk(run) && MoverOk(run) && Allowed(run, o) && !run.pc.TakeSnaps? && !run.pc.Unwind?
    requires Owns(run) <= s.live
    requires SnapsByDepth(run.job.kind, run.stack) && SnapsByDepth(run.job.kind, Next(run, o).stack)
    ensures LiveAfter(s, run, o) == s.live - Owns(run) + Owns(Next(run, o))
    ensures (Owns(Next(run, o)) - Owns(run)) !! s.live
  {
  }

  lemma NextLiveDown(s: State, run: Run, o: Outcome)
    requires PlaceOk(run) && MoverOk(run) && Allowed(run, o) && run.pc.Unwind?
    requires Owns(run) <= s.live
    requires SnapsByDepth(run.job.kind, run.stack) && SnapsByDepth(run.job.kind, Next(run, o).stack)
    requires Top(run) == Some(Snapshots) <==> run.job.kind.Backup? && |run.stack.defers| == StackSize(run.job.kind)
    ensures LiveAfter(s, run, o) == s.live - Owns(run) + Owns(Next(run, o))
    ensures (Owns(Next(run, o)) - Owns(run)) !! s.live
  {
  }

  lemma TopIs(run: Run)
    requires ChainOk(run.job.kind, run.stack)
    ensures var k, n := run.job.kind, |run.stack.defers|;
            && (Top(run) == Some(RepoKey) <==> n == 1)
            && (Top(run) == Some(Slot) <==> NeedsSlot(k) && n == 2)
            && (Top(run) == Some(ColdHold) <==> k == Backup(true) && n == 3)
            && (Top(run) == Some(Snapshots) <==> k.Backup? && n == StackSize(k))
  {
    hide ChainOk;
    DefersHave(run.job.kind, run.stack);
    if run.stack.defers != [] {
      PopChain(run.job.kind, run.stack);
    }
  }

  lemma StepRun(s: State, r: nat, o: Outcome)
    requires RunsOk(s) && Enabled(s, Go(r, o))
    ensures var s2 := Apply(s, Go(r, o));
            && OneRun(s, s2, r) && RunsOk(s2)
            && s2.runs[r] == Next(s.runs[r], o) && s2.runs[r].job == s.runs[r].job
  {
    hide Next, RunOk;
    assert RunOk(s.runs[r]);
    NextRunOk(s.runs[r], o);
  }

  lemma StepMutex(s: State, r: nat, o: Outcome)
    requires RunsOk(s) && MutexInv(s) && Enabled(s, Go(r, o))
    ensures MutexInv(Apply(s, Go(r, o)))
  {
    hide Next, Holds, HeldAfter, PlaceOk, MoverOk, Guard, Agrees, Allowed;
    var run := s.runs[r];
    assert RunOk(run);
    StepRun(s, r, o);
    TopIs(run);
    NextHeld(s, run, o);
    MutexMoves(s, Apply(s, Go(r, o)), r);
  }

  lemma StepSlot(s: State, r: nat, o: Outcome)
    requires RunsOk(s) && SlotInv(s) && Enabled(s, Go(r, o))
    ensures SlotInv(Apply(s, Go(r, o)))
  {
    hide Next, SlotHolders, HeldAfter, PlaceOk, MoverOk, Agrees, Allowed;
    var run, s2 := s.runs[r], Apply(s, Go(r, o));
    assert RunOk(run);
    StepRun(s, r, o);
    if s.max > 0 {
      TopIs(run);
      NextSlots(s, run, o);
      DefersHave(run.job.kind, run.stack);
      assert RunOk(s2.runs[r]);
      DefersHave(run.job.kind, s2.runs[r].stack);
      SlotMoves(s, s2, r);
    }
  }

  lemma StepCold(s: State, r: nat, o: Outcome)
    requires RunsOk(s) && ColdInv(s) && Enabled(s, Go(r, o))
    ensures ColdInv(Apply(s, Go(r, o)))
  {
    hide Next, ColdHolders, HeldAfter, PlaceOk, MoverOk, Agrees, Allowed, Guard, RefsAfter;
    var run, s2 := s.runs[r], Apply(s, Go(r, o));
    assert RunOk(run);
    StepRun(s, r, o);
    TopIs(run);
    DefersHave(run.job.kind, run.stack);
    assert RunOk(s2.runs[r]);
    DefersHave(run.job.kind, s2.runs[r].stack);
    forall c ensures Refs(s2, c) == |ColdHolders(s2.runs, c)| {
      NextRefs(s, run, o, c);
      ColdMoves(s, s2, r, c);
    }
  }

  lemma StepSnap(s: State, r: nat, o: Outcome)
    requires RunsOk(s) && SnapInv(s) && Enabled(s, Go(r, o))
    ensures SnapInv(Apply(s, Go(r, o)))
  {
    hide Next, Owns, HeldAfter, PlaceOk, MoverOk, Agrees, Allowed, Guard, LiveAfter;
    var run, s2 := s.runs[r], Apply(s, Go(r, o));
    assert RunOk(run);
    StepRun(s, r, o);
    TopIs(run);
    DefersHave(run.job.kind, run.stack);
    assert RunOk(s2.runs[r]);
    DefersHave(run.job.kind, s2.runs[r].stack);
    NextLive(s, run, o);
    SnapMoves(s, s2, r);
  }

  lemma ExitRun(run: Run)
    requires RunOk(run)
    ensures var n := run.(mover := run.mover.(up := false));
            RunOk(n) && Holds(n) == Holds(run) && Owns(n) == Owns(run)
  {
  }

  /** A mover that ends by itself changes nothing but its own flag. */
  lemma ExitKeepsInv(s: State, r: nat)
    requires Inv(s) && Enabled(s, MoverExits(r))
    ensures Inv(Apply(s, MoverExits(r)))
  {
    hide RunOk, Holds, Owns, ColdHolders, SlotHolders;
    var s2 := Apply(s, MoverExits(r));
    assert RunOk(s.runs[r]);
    ExitRun(s.runs[r]);
    MutexMoves(s, s2, r);
    SnapMoves(s, s2, r);
    SlotMoves(s, s2, r);
    forall c ensures |ColdHolders(s2.runs, c)| == |ColdHolders(s.runs, c)| {
      ColdMoves(s, s2, r, c);
    }
  }

  lemma StepKeepsInv(s: State, t: Step)
    requires Inv(s) && Enabled(s, t)
    ensures Inv(Apply(s, t))
  {
    hide RunsOk, MutexInv, SlotInv, ColdInv, SnapInv, Enabled, Apply;
    match t
    case MoverExits(r) => ExitKeepsInv(s, r);
    case Go(r, o) =>
      StepRun(s, r, o);
      StepMutex(s, r, o);
      StepSlot(s, r, o);
      StepCold(s, r, o);
      StepSnap(s, r, o);
  }

  lemma InitInv(max: int, jobs: seq<Job>, stopped: set<Container>, base: set<Snap>)
    ensures Inv(Init(max, jobs, stopped, base))
  {
    var s := Init(max, jobs, stopped, base);
    assert SlotHolders(s.runs) == {};
    forall c ensures ColdHolders(s.runs, c) == {} {
    }
  }

  /** Every state of every execution, of any number of runs, satisfies the invariant. */
  lemma {:induction false} InvAlways(s: State, steps: seq<Step>)
    requires Inv(s) && Feasible(s, steps)
    ensures Inv(After(s, steps))
    decreases |steps|
  {
    hide Inv, Enabled, Apply;
    if steps != [] {
      StepKeepsInv(s, steps[0]);
      InvAlways(Apply(s, steps[0]), steps[1..]);
    }
  }
}
