/**
 What a run gives back on every way out, in which order, and what its mover can
 still read afterwards.
 */
module OrchestratorRelease {
  import opened Orchestrator
  import opened OrchestratorInvariant
  import opened OrchestratorTheorems

  lemma {:induction false} ReverseAppend<T>(s: seq<T>, x: T)
    ensures Reverse([x] + s) == Reverse(s) + [x]
    decreases |s|
  {
    if s != [] {
      var n := |s| - 1;
      assert ([x] + s)[..n + 1] == [x] + s[..n];
      ReverseAppend(s[..n], x);
    }
  }

  lemma {:induction false} ReverseTwice<T>(s: seq<T>)
    ensures Reverse(Reverse(s)) == s
    decreases |s|
  {
    if s != [] {
      var n := |s| - 1;
      ReverseTwice(s[..n]);
      ReverseAppend(Reverse(s[..n]), s[n]);
      assert s == s[..n] + [s[n]];
    }
  }

  /** The place of a resource in the order of acquisition. */
  function Level(res: Resource): nat {
    match res
    case RepoKey => 0
    case Slot => 1
    case ColdHold | DirectStop => 2
    case Snapshots => 3
  }

  /** A finished run has returned exactly what it acquired, each thing once and in the
      opposite order, whichever step it failed at: the snapshot cleanup comes before the
      app restart, that before the slot, and the repository key comes last. */
  lemma ReleasesAreLifo(s: State, r: nat)
    requires Reachable(s) && r < |s.runs| && s.runs[r].pc.Done?
    ensures var st := s.runs[r].stack;
            && st.defers == []
            && st.acquired <= FullStack(s.runs[r].job.kind)
            && st.released == Reverse(st.acquired)
            && forall i, j | 0 <= i < j < |st.released| :: Level(st.released[i]) > Level(st.released[j])
  {
    hide Reachable, MutexInv, SlotInv, ColdInv, SnapInv, MoverOk, FullStack, Reverse, Level;
    ReachableInv(s);
    var st := s.runs[r].stack;
    assert RunOk(s.runs[r]);
    ReverseTwice(st.released);
    assert st.acquired == Reverse(st.released);
    PrefixAscends(s.runs[r].job.kind, st.acquired);
    ReverseDescends(st.acquired);
  }

  lemma PrefixAscends(k: Kind, a: seq<Resource>)
    requires a <= FullStack(k)
    ensures forall i, j | 0 <= i < j < |a| :: Level(a[i]) < Level(a[j])
  {
    forall i, j | 0 <= i < j < |a| ensures Level(a[i]) < Level(a[j]) {
      assert a[i] == FullStack(k)[i] && a[j] == FullStack(k)[j];
    }
  }

  lemma {:induction false} ReverseDescends(a: seq<Resource>)
    requires forall i, j | 0 <= i < j < |a| :: Level(a[i]) < Level(a[j])
    ensures |Reverse(a)| == |a|
    ensures forall x | x in Reverse(a) :: x in a
    ensures forall i, j | 0 <= i < j < |a| :: Level(Reverse(a)[i]) > Level(Reverse(a)[j])
    decreases |a|
  {
    hide Level, Reverse;
    if a == [] {
      NothingReversed();
    } else {
      var n := |a| - 1;
      var b := Reverse(a[..n]);
      ReverseDescends(a[..n]);
      ReverseSnoc(a[..n], a[n]);
      assert a == a[..n] + [a[n]] && Reverse(a) == [a[n]] + b;
      forall i, j | 0 <= i < j < |a| ensures Level(Reverse(a)[i]) > Level(Reverse(a)[j]) {
        assert Reverse(a)[j] == b[j - 1] && b[j - 1] in a[..n];
        assert i > 0 ==> Reverse(a)[i] == b[i - 1];
      }
    }
  }

  lemma NothingReversed()
    ensures Reverse<Resource>([]) == []
  {
  }

  // ------------------------------------------------------------------ movers

  /** A running mover reads only snapshots that still exist, on every path and in every
      interleaving, unless it is orphaned. */
  lemma RunningMoverHasItsSnapshots(s: State, r: nat)
    requires Reachable(s) && r < |s.runs|
    requires s.runs[r].mover.up && !s.runs[r].mover.orphaned
    ensures s.runs[r].snaps.mounts <= s.live
  {
    hide MutexInv, SlotInv, ColdInv;
    ReachableInv(s);
    var run := s.runs[r];
    assert RunOk(run);
    DefersHave(run.job.kind, run.stack);
    assert Owns(run) <= s.live;
  }

  /** Exactly when a mover loses a snapshot under it: it was orphaned before the cleanup
      destroyed one of its snapshots. */
  lemma CleanupHurtsOnlyOrphans(s: State, r: nat, left: set<Snap>)
    requires Reachable(s) && Enabled(s, Go(r, CleanUp(left)))
    ensures var run, s2 := s.runs[r], Apply(s, Go(r, CleanUp(left)));
            && s2.runs[r].mover == run.mover
            && (run.mover.up && !(run.snaps.mounts <= s2.live) <==>
                  run.mover.up && run.mover.orphaned && !(run.snaps.mounts <= left))
  {
    hide Reachable, MutexInv, SlotInv, ColdInv, MoverOk, StackOk, Enabled, Apply;
    ReachableInv(s);
    CleanUpDoes(s, r, left);
    var run := s.runs[r];
    assert RunOk(run);
    assert Owns(run) <= s.live;
    KeptIsNoOrphan(run);
  }

  lemma KeptIsNoOrphan(run: Run)
    requires RunOk(run) && run.pc.Unwind?
    ensures run.mover.kept ==> !run.mover.orphaned
    ensures run.mover.up ==> run.mover.kept || run.mover.orphaned
  {
    hide StackOk;
  }

  lemma CleanUpDoes(s: State, r: nat, left: set<Snap>)
    requires Enabled(s, Go(r, CleanUp(left)))
    ensures r < |s.runs|
    ensures var run, s2 := s.runs[r], Apply(s, Go(r, CleanUp(left)));
            && run.pc.Unwind? && Snapshots in run.stack.defers && left <= run.snaps.mounts
            && s2.runs[r].mover == run.mover
            && s2.live == if run.mover.kept then s.live else s.live - (run.snaps.mounts - left)
  {
  }

  /** A run that stops its app never leaves its mover running when it restarts the app:
      while the mover is up the cold hold has not been returned. */
  lemma ColdMoverKeepsItsHold(s: State, r: nat)
    requires Reachable(s) && r < |s.runs| && s.runs[r].job.kind == Backup(true)
    requires s.runs[r].mover.up && !s.runs[r].mover.orphaned
    ensures ColdHold in s.runs[r].stack.defers && !s.runs[r].mover.kept
  {
    hide MutexInv, SlotInv, ColdInv, SnapInv;
    ReachableInv(s);
    assert RunOk(s.runs[r]);
    DefersHave(s.runs[r].job.kind, s.runs[r].stack);
  }

  /** A finished run's mover is running only if RunMover reported it as kept, which it
      does for a hot backup only, or if it is orphaned. The snapshots of a kept
      mover outlive the run; otherwise the run left those whose destroy failed. */
  lemma FinishedRun(s: State, r: nat)
    requires Reachable(s) && r < |s.runs| && s.runs[r].pc.Done?
    ensures var run := s.runs[r];
            && (run.mover.up ==> run.mover.kept || run.mover.orphaned)
            && (run.mover.kept ==> run.job.kind == Backup(false) && run.snaps.mounts <= s.live)
            && (!run.mover.kept ==> run.snaps.leaked <= s.live)
  {
    hide MutexInv, SlotInv, ColdInv;
    ReachableInv(s);
    assert RunOk(s.runs[r]);
    assert Owns(s.runs[r]) <= s.live;
  }
}
