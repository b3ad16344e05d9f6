/**
 The daemon's event loop: container events signal a one-slot channel without
 blocking, a signal (re)arms the debounce timer, and the timer or the resync
 ticker starts a reconcile. Events may arrive at any moment, also while a
 reconcile is under way.

 A run of the daemon is the list of its steps; which ready case `select` picks,
 and when a timer fires, is arbitrary.
 */
module Daemon {

  datatype Step =
    | Event      // discovery.Signal
    | Take       // case <-changes
    | Fire       // case <-debounce: a reconcile begins
    | Tick       // case <-ticker.C: a reconcile begins
    | Finish     // the reconcile returns, with or without an error
    | Shutdown   // case <-ctx.Done()

  datatype State = State(full: bool, armed: bool, busy: bool, down: bool)

  const INIT := State(false, false, false, false)

  predicate Enabled(s: State, t: Step) {
    match t
    case Event => true
    case Take => !s.busy && !s.down && s.full
    case Fire => !s.busy && !s.down && s.armed
    case Tick => !s.busy && !s.down
    case Finish => s.busy
    case Shutdown => !s.busy && !s.down
  }

  function Next(s: State, t: Step): State {
    match t
    case Event => s.(full := true)
    case Take => s.(full := false, armed := true)
    case Fire => s.(armed := false, busy := true)
    case Tick => s.(busy := true)
    case Finish => s.(busy := false)
    case Shutdown => s.(down := true)
  }

  function After(steps: seq<Step>): State {
    if steps == [] then INIT else Next(After(steps[..|steps| - 1]), steps[|steps| - 1])
  }

  ghost predicate Feasible(steps: seq<Step>) {
    forall i | 0 <= i < |steps| :: Enabled(After(steps[..i]), steps[i])
  }

  predicate Starts(t: Step) {
    t.Fire? || t.Tick?
  }

  /** The event at i was signalled before some reconcile began. */
  ghost predicate Seen(steps: seq<Step>, i: nat) {
    exists j :: i < j < |steps| && Starts(steps[j])
  }

  /** Some event has been signalled since the last reconcile began. */
  ghost predicate Dirty(steps: seq<Step>) {
    exists i :: 0 <= i < |steps| && steps[i].Event? && !Seen(steps, i)
  }

  lemma FeasiblePrefix(steps: seq<Step>, t: Step)
    requires Feasible(steps + [t])
    ensures Feasible(steps) && Enabled(After(steps), t) && After(steps + [t]) == Next(After(steps), t)
  {
    var all := steps + [t];
    assert all[..|steps|] == steps && all[|steps|] == t;
    forall i | 0 <= i < |steps| ensures Enabled(After(steps[..i]), steps[i]) {
      assert all[..i] == steps[..i] && all[i] == steps[i];
    }
  }

  lemma DirtySnoc(steps: seq<Step>, t: Step)
    ensures Dirty(steps + [t]) <==> t.Event? || (Dirty(steps) && !Starts(t))
  {
    var all := steps + [t];
    var n := |steps|;
    assert all[n] == t && !Seen(all, n);
    forall i | 0 <= i < n ensures all[i] == steps[i] && (Seen(all, i) <==> Seen(steps, i) || Starts(t)) {
      assert Starts(t) ==> i < n < |all| && Starts(all[n]);
      assert forall j | i < j < n :: all[j] == steps[j];
    }
  }

  /** In every reachable state: an event not yet followed by a reconcile is still on its
      way, in the channel or behind the timer. */
  lemma {:induction false} NoLostWakeup(steps: seq<Step>)
    requires Feasible(steps)
    ensures Dirty(steps) ==> After(steps).full || After(steps).armed
    decreases |steps|
  {
    if steps != [] {
      var init, t := steps[..|steps| - 1], steps[|steps| - 1];
      assert steps == init + [t];
      FeasiblePrefix(init, t);
      NoLostWakeup(init);
      DirtySnoc(init, t);
    }
  }

  // ------------------------------------------------------------- settling

  /** Steps the loop makes by itself on account of earlier events. */
  predicate Own(t: Step) {
    t.Take? || t.Fire? || t.Finish?
  }

  function Work(s: State): nat {
    (if s.full then 3 else 0) + (if s.armed then 2 else 0) + (if s.busy then 1 else 0)
  }

  lemma {:induction false} OwnStepsLower(steps: seq<Step>, rest: seq<Step>)
    requires Feasible(steps + rest) && forall i | 0 <= i < |rest| :: Own(rest[i])
    ensures |rest| + Work(After(steps + rest)) <= Work(After(steps))
    decreases |rest|
  {
    if rest == [] {
      assert steps + rest == steps;
    } else {
      var init, t := rest[..|rest| - 1], rest[|rest| - 1];
      assert steps + rest == (steps + init) + [t];
      FeasiblePrefix(steps + init, t);
      OwnStepsLower(steps, init);
    }
  }

  /** Left without new events, the loop makes at most as many steps as Work says, whatever
      select picks; once it has none left, every event was followed by a reconcile. */
  lemma Settles(steps: seq<Step>, rest: seq<Step>)
    requires Feasible(steps + rest) && forall i | 0 <= i < |rest| :: Own(rest[i])
    ensures |rest| <= Work(After(steps)) <= 6
    ensures (forall t | Own(t) :: !Enabled(After(steps + rest), t)) && !After(steps + rest).down ==>
              forall i | 0 <= i < |steps| && steps[i].Event? :: Seen(steps + rest, i)
  {
    OwnStepsLower(steps, rest);
    var all := steps + rest;
    NoLostWakeup(all);
    if (forall t | Own(t) :: !Enabled(After(all), t)) && !After(all).down {
      assert Own(Take) && Own(Fire) && Own(Finish);
      forall i | 0 <= i < |steps| && steps[i].Event? ensures Seen(all, i) {
        assert all[i] == steps[i];
      }
    }
  }

  function Count(steps: seq<Step>, t: Step): nat {
    if steps == [] then 0
    else Count(steps[..|steps| - 1], t) + (if steps[|steps| - 1] == t then 1 else 0)
  }

  /** Events are coalesced and never multiplied: the timer starts at most one reconcile per
      event, counting the ones still on their way. */
  lemma {:induction false} Coalesced(steps: seq<Step>)
    requires Feasible(steps)
    ensures var s := After(steps);
            Count(steps, Fire) + (if s.armed then 1 else 0) + (if s.full then 1 else 0) <= Count(steps, Event)
    decreases |steps|
  {
    if steps != [] {
      var init, t := steps[..|steps| - 1], steps[|steps| - 1];
      assert steps == init + [t];
      FeasiblePrefix(init, t);
      Coalesced(init);
    }
  }

  /** A burst of events leaves the loop where one event would. */
  lemma {:induction false} QuietBurst(steps: seq<Step>, k: nat)
    ensures After(steps + Events(k)) == if k == 0 then After(steps) else After(steps).(full := true)
    decreases k
  {
    if k == 0 {
      assert steps + Events(0) == steps;
    } else {
      QuietBurst(steps, k - 1);
      assert steps + Events(k) == (steps + Events(k - 1)) + [Event];
      assert (steps + Events(k))[..|steps + Events(k - 1)|] == steps + Events(k - 1);
    }
  }

  function Events(k: nat): seq<Step> {
    seq(k, i => Event)
  }

  // --------------------------------------------------------------- the loop

  class Loop {
    var changes: bool     // the channel's one slot
    var debounce: bool    // armed, or nil
    var busy: bool
    var down: bool
    ghost var trace: seq<Step>

    ghost predicate Valid()
      reads this
    {
      Feasible(trace) && After(trace) == State(changes, debounce, busy, down)
    }

    ghost predicate Waiting()
      reads this
    {
      !busy && !down
    }

    constructor ()
      ensures Valid() && trace == []
      ensures !changes && !debounce && !busy && !down
    {
      changes, debounce, busy, down, trace := false, false, false, false, [];
    }

    ghost method Record(t: Step)
      requires Feasible(trace) && Enabled(After(trace), t)
      requires Next(After(trace), t) == State(changes, debounce, busy, down)
      modifies this`trace
      ensures Valid() && trace == old(trace) + [t]
    {
      var all := trace + [t];
      forall i | 0 <= i < |all| ensures Enabled(After(all[..i]), all[i]) {
        if i < |trace| {
          assert all[..i] == trace[..i] && all[i] == trace[i];
        } else {
          assert all[..i] == trace;
        }
      }
      assert all[..|trace|] == trace;
      trace := all;
    }

    /** discovery.Signal: a full slot is left as it is. */
    method Signal()
      requires Valid()
      modifies this
      ensures Valid() && trace == old(trace) + [Event]
      ensures changes && debounce == old(debounce) && busy == old(busy) && down == old(down)
    {
      if !changes {
        changes := true;
      }
      Record(Event);
    }

    method OnChange()
      requires Valid() && Waiting() && changes
      modifies this
      ensures Valid() && trace == old(trace) + [Take]
      ensures !changes && debounce && !busy && !down
    {
      changes := false;
      debounce := true;
      Record(Take);
    }

    method OnDebounce()
      requires Valid() && Waiting() && debounce
      modifies this
      ensures Valid() && trace == old(trace) + [Fire] && !Dirty(trace)
      ensures !debounce && busy && changes == old(changes) && !down
    {
      debounce := false;
      busy := true;
      Record(Fire);
      DirtySnoc(old(trace), Fire);
    }

    method OnTick()
      requires Valid() && Waiting()
      modifies this
      ensures Valid() && trace == old(trace) + [Tick] && !Dirty(trace)
      ensures busy && changes == old(changes) && debounce == old(debounce) && !down
    {
      busy := true;
      Record(Tick);
      DirtySnoc(old(trace), Tick);
    }

    method Reconciled()
      requires Valid() && busy
      modifies this
      ensures Valid() && trace == old(trace) + [Finish]
      ensures !busy && changes == old(changes) && debounce == old(debounce) && down == old(down)
      ensures Dirty(trace) ==> changes || debounce
    {
      busy := false;
      Record(Finish);
      NoLostWakeup(trace);
    }
  }
}
