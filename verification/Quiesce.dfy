/**
 The swarm quiescer: a cold backup scales a service to zero and back, and keeps
 the count it has to come back to as a label on the service itself.

 The store is the swarm's. It accepts an update only against the current version
 of a service and only within the same mode, and stamps every write with a new
 index. Between a read and the update that follows from it anything may happen.
 */
module Quiesce {
  import opened Lists
  import opened Decimal

  const REPLICAS_LABEL := "sabon.quiesce.replicas"
  const INSTANCE_LABEL := "sabon.quiesce.instance"

  /** `Replicated(None)` is a replicated service whose count is unset. */
  datatype Mode = Replicated(replicas: Option<U64>) | OtherMode

  /** A service specification: labels, mode, and everything sabon does not look at. */
  datatype Spec = Spec(labels: map<string, string>, mode: Mode, other: string)

  datatype Service = Service(version: nat, spec: Spec)

  // --------------------------------------------------------- what it edits

  function CurrentCount(mode: Mode): U64
    requires mode.Replicated?
  {
    match mode.replicas case Some(n) => n case None => 1
  }

  /** The count a quiesced service goes back to; a corrupt label brings the app back up. */
  function RecordedCount(spec: Spec): U64
    requires REPLICAS_LABEL in spec.labels
  {
    match ParseUint(spec.labels[REPLICAS_LABEL]) case Some(n) => n case None => 1
  }

  /** Stop: record the count unless one is recorded already, then scale to zero. */
  function StopSpec(spec: Spec, instance: string): Spec
    requires spec.mode.Replicated?
  {
    var labels :=
      if REPLICAS_LABEL in spec.labels then spec.labels
      else
        var l := spec.labels[REPLICAS_LABEL := Format(CurrentCount(spec.mode))];
        if instance != "" then l[INSTANCE_LABEL := instance] else l;
    Spec(labels, Replicated(Some(0)), spec.other)
  }

  /** restore: drop both labels and scale to the recorded count. */
  function RestoreSpec(spec: Spec): Spec
    requires REPLICAS_LABEL in spec.labels
  {
    Spec(spec.labels - {REPLICAS_LABEL, INSTANCE_LABEL}, Replicated(Some(RecordedCount(spec))), spec.other)
  }

  /** The services RecoverQuiesced lists. */
  predicate Owned(spec: Spec, instance: string) {
    && REPLICAS_LABEL in spec.labels
    && (instance != "" ==> INSTANCE_LABEL in spec.labels && spec.labels[INSTANCE_LABEL] == instance)
  }

  // ------------------------------------------------------- what it preserves

  /** What a service is meant to be, whether or not it is quiesced right now: the count
      it runs at or will come back to, its own labels, and the rest of it. */
  datatype Meaning = Meaning(count: Option<U64>, labels: map<string, string>, other: string)

  function MeaningOf(spec: Spec): Meaning {
    Meaning(
      if !spec.mode.Replicated? then None
      else if REPLICAS_LABEL in spec.labels then Some(RecordedCount(spec))
      else Some(CurrentCount(spec.mode)),
      spec.labels - {REPLICAS_LABEL, INSTANCE_LABEL},
      spec.other)
  }

  lemma StopKeepsMeaning(spec: Spec, instance: string)
    requires spec.mode.Replicated?
    ensures MeaningOf(StopSpec(spec, instance)) == MeaningOf(spec)
    ensures StopSpec(spec, instance).mode == Replicated(Some(0))
  {
    ParseFormat(CurrentCount(spec.mode));
  }

  lemma RestoreKeepsMeaning(spec: Spec)
    requires spec.mode.Replicated? && REPLICAS_LABEL in spec.labels
    ensures MeaningOf(RestoreSpec(spec)) == MeaningOf(spec)
    ensures REPLICAS_LABEL !in RestoreSpec(spec).labels && INSTANCE_LABEL !in RestoreSpec(spec).labels
    ensures RestoreSpec(spec).mode == Replicated(MeaningOf(spec).count)
  {
  }

  /** A stop followed by a start is the identity, up to spelling out an unset count; a
      parked service stays parked. */
  lemma StopThenRestore(spec: Spec, instance: string)
    requires spec.mode.Replicated?
    requires REPLICAS_LABEL !in spec.labels && INSTANCE_LABEL !in spec.labels
    ensures RestoreSpec(StopSpec(spec, instance)) == spec.(mode := Replicated(Some(CurrentCount(spec.mode))))
  {
    ParseFormat(CurrentCount(spec.mode));
    var back := RestoreSpec(StopSpec(spec, instance));
    assert back.labels == spec.labels;
  }

  /** What Stop writes, field by field: nothing but the two labels and the count. A service
      that carries the label already keeps its labels. */
  lemma StopFields(spec: Spec, instance: string)
    requires spec.mode.Replicated?
    ensures var now := StopSpec(spec, instance);
            && now.mode == Replicated(Some(0)) && now.other == spec.other
            && ("sabon.quiesce.replicas" in spec.labels ==> now.labels == spec.labels)
            && ("sabon.quiesce.replicas" !in spec.labels ==>
                  && "sabon.quiesce.replicas" in now.labels
                  && ParseUint(now.labels["sabon.quiesce.replicas"]) ==
                       (if spec.mode.replicas == None then Some(1) else spec.mode.replicas)
                  && (instance != "" ==> "sabon.quiesce.instance" in now.labels &&
                                         now.labels["sabon.quiesce.instance"] == instance))
            && (forall k | k != "sabon.quiesce.replicas" && (instance == "" || k != "sabon.quiesce.instance") ::
                  (k in now.labels <==> k in spec.labels) && (k in spec.labels ==> now.labels[k] == spec.labels[k]))
  {
    ParseFormat(CurrentCount(spec.mode));
  }

  /** What restore writes: the recorded count, or one if the record cannot be read, and no
      label of sabon's. */
  lemma RestoreFields(spec: Spec)
    requires "sabon.quiesce.replicas" in spec.labels
    ensures var now, count := RestoreSpec(spec), ParseUint(spec.labels["sabon.quiesce.replicas"]);
            && now.mode == Replicated(if count.None? then Some(1) else count) && now.other == spec.other
            && (forall k :: k in now.labels <==>
                  k in spec.labels && k != "sabon.quiesce.replicas" && k != "sabon.quiesce.instance")
            && forall k | k in now.labels :: now.labels[k] == spec.labels[k]
  {
  }

  /** The meaning of a service, field by field. */
  lemma MeaningFields(spec: Spec)
    ensures var m := MeaningOf(spec);
            && m.other == spec.other
            && (forall k :: k in m.labels <==>
                  k in spec.labels && k != "sabon.quiesce.replicas" && k != "sabon.quiesce.instance")
            && (forall k | k in m.labels :: m.labels[k] == spec.labels[k])
            && (spec.mode.OtherMode? ==> m.count == None)
            && (spec.mode.Replicated? && "sabon.quiesce.replicas" !in spec.labels ==>
                  m.count == if spec.mode.replicas == None then Some(1) else spec.mode.replicas)
            && (spec.mode.Replicated? && "sabon.quiesce.replicas" in spec.labels ==>
                  var count := ParseUint(spec.labels["sabon.quiesce.replicas"]);
                  m.count == if count.None? then Some(1) else count)
  {
  }

  /** A service stopped by a named instance is that instance's to recover, and no other's. */
  lemma StopperOwns(spec: Spec, instance: string, other: string)
    requires spec.mode.Replicated? && REPLICAS_LABEL !in spec.labels
    ensures Owned(StopSpec(spec, instance), instance)
    ensures instance != "" && other != "" ==> (Owned(StopSpec(spec, instance), other) <==> other == instance)
  {
    hide StopSpec;
    StopFields(spec, instance);
  }

  // ---------------------------------------------------- any interleaving of it

  /** An operation that has read a service and computed what to write back; a stop says for
      which instance. */
  datatype Op = Op(ref: string, version: nat, spec: Spec, stopBy: Option<string>)

  /** `clock` is the swarm's write index; `want` is what each service was last meant to
      be by someone other than sabon. */
  datatype State = State(store: map<string, Service>, clock: nat, ops: seq<Op>, want: map<string, Meaning>)

  datatype Step =
    | InspectStop(instance: string, ref: string)
    | InspectRestore(ref: string)        // Start, or one service of RecoverQuiesced's list
    | Commit(i: nat, ok: bool)           // the update; it may fail for any reason
    | Crash                              // sabon dies: every operation in flight is lost
    | Edit(ref: string, spec: Spec)      // an operator creates or changes a service
    | Remove(ref: string)

  predicate Enabled(s: State, t: Step) {
    match t
    case InspectStop(_, ref) => ref in s.store && s.store[ref].spec.mode.Replicated?
    case InspectRestore(ref) => ref in s.store && REPLICAS_LABEL in s.store[ref].spec.labels
    case Commit(i, _) => i < |s.ops|
    case Remove(ref) => ref in s.store
    case _ => true
  }

  /** ServiceUpdate: only against the current version, and never into another mode. */
  predicate Accepts(store: map<string, Service>, op: Op) {
    && op.ref in store && store[op.ref].version == op.version
    && store[op.ref].spec.mode.Replicated? == op.spec.mode.Replicated?
  }

  function Write(s: State, ref: string, spec: Spec): State {
    s.(store := s.store[ref := Service(s.clock + 1, spec)], clock := s.clock + 1)
  }

  function Apply(s: State, t: Step): State
    requires Enabled(s, t)
  {
    match t
    case InspectStop(instance, ref) =>
      s.(ops := s.ops + [Op(ref, s.store[ref].version, StopSpec(s.store[ref].spec, instance), Some(instance))])
    case InspectRestore(ref) =>
      s.(ops := s.ops + [Op(ref, s.store[ref].version, RestoreSpec(s.store[ref].spec), None)])
    case Commit(i, ok) =>
      var s1 := s.(ops := s.ops[..i] + s.ops[i + 1..]);
      if ok && Accepts(s.store, s.ops[i]) then Write(s1, s.ops[i].ref, s.ops[i].spec) else s1
    case Crash => s.(ops := [])
    case Edit(ref, spec) => Write(s, ref, spec).(want := s.want[ref := MeaningOf(spec)])
    case Remove(ref) => s.(store := s.store - {ref}, want := s.want - {ref})
  }

  /** A stop whose update would be accepted writes what a stop of the service as it is now does. */
  predicate OpWrites(s: State, op: Op)
    requires op.ref in s.store
  {
    op.stopBy.Some? ==>
      s.store[op.ref].spec.mode.Replicated? && op.spec == StopSpec(s.store[op.ref].spec, op.stopBy.value)
  }

  /** An operation in flight whose update would be accepted means the same as the store. */
  predicate OpOk(s: State, op: Op) {
    && op.version <= s.clock
    && (Accepts(s.store, op) ==> MeaningOf(op.spec) == MeaningOf(s.store[op.ref].spec) && OpWrites(s, op))
  }

  ghost predicate Inv(s: State) {
    && (forall ref | ref in s.store :: s.store[ref].version <= s.clock)
    && (forall op | op in s.ops :: OpOk(s, op))
    && s.store.Keys == s.want.Keys
    && (forall ref | ref in s.store :: MeaningOf(s.store[ref].spec) == s.want[ref])
  }

  lemma InspectIsOk(s: State, t: Step)
    requires Inv(s) && Enabled(s, t) && (t.InspectStop? || t.InspectRestore?)
    ensures Inv(Apply(s, t))
  {
    hide MeaningOf, StopSpec, RestoreSpec;
    var svc := s.store[t.ref];
    if t.InspectStop? {
      StopKeepsMeaning(svc.spec, t.instance);
    } else if svc.spec.mode.Replicated? {
      RestoreKeepsMeaning(svc.spec);
    } else {
      RestoreReplicates(svc.spec);
    }
  }

  lemma RestoreReplicates(spec: Spec)
    requires REPLICAS_LABEL in spec.labels
    ensures RestoreSpec(spec).mode.Replicated?
  {
  }

  lemma CommitIsOk(s: State, i: nat, ok: bool)
    requires Inv(s) && i < |s.ops|
    ensures Inv(Apply(s, Commit(i, ok)))
  {
    hide MeaningOf;
    var op, s2 := s.ops[i], Apply(s, Commit(i, ok));
    assert OpOk(s, op);
    forall o | o in s2.ops ensures OpOk(s2, o) {
      assert o in s.ops;
    }
  }

  lemma StepKeepsInv(s: State, t: Step)
    requires Inv(s) && Enabled(s, t)
    ensures Inv(Apply(s, t))
  {
    hide MeaningOf, StopSpec, RestoreSpec;
    if t.InspectStop? || t.InspectRestore? {
      InspectIsOk(s, t);
    } else if t.Commit? {
      CommitIsOk(s, t.i, t.ok);
    }
  }

  function Init(): State {
    State(map[], 0, [], map[])
  }

  predicate Feasible(s: State, steps: seq<Step>)
    decreases |steps|
  {
    steps == [] || (Enabled(s, steps[0]) && Feasible(Apply(s, steps[0]), steps[1..]))
  }

  function After(s: State, steps: seq<Step>): State
    requires Feasible(s, steps)
    decreases |steps|
  {
    if steps == [] then s else After(Apply(s, steps[0]), steps[1..])
  }

  lemma {:induction false} InvAlways(s: State, steps: seq<Step>)
    requires Inv(s) && Feasible(s, steps)
    ensures Inv(After(s, steps))
    decreases |steps|
  {
    hide Inv, Enabled, Apply;
    if steps != [] {
      StepKeepsInv(s, steps[0]);
      InvAlways(Apply(s, steps[0]), steps[1..]);
    }
  }

  /** However stops, starts, recoveries, failed updates, retries, crashes and operators
      interleave, every service means what its operator last said it should. */
  lemma MeaningAlwaysKept(steps: seq<Step>, ref: string)
    requires Feasible(Init(), steps)
    ensures var s := After(Init(), steps);
            && (ref in s.store <==> ref in s.want)
            && (ref in s.store ==> MeaningOf(s.store[ref].spec) == s.want[ref])
  {
    hide Feasible, After;
    assert Inv(Init());
    InvAlways(Init(), steps);
  }

  // ------------------------------------------------------- the quiescer itself

  /** sabon's calls against the store, with nobody else writing in between. */
  class Quiescer {
    const instance: string
    var store: map<string, Service>
    var clock: nat

    constructor (instance: string, store: map<string, Service>, clock: nat)
      ensures this.instance == instance && this.store == store && this.clock == clock
    {
      this.instance, this.store, this.clock := instance, store, clock;
    }

    /** scale's ServiceUpdate, which `answers` lets through or not. */
    method Scale(ref: string, version: nat, spec: Spec, answers: bool) returns (ok: bool)
      modifies this
      ensures ok <==> answers && old(Accepts(store, Op(ref, version, spec, None)))
      ensures if ok then clock == old(clock) + 1 && store == old(store)[ref := Service(clock, spec)]
              else clock == old(clock) && store == old(store)
    {
      ok := answers && Accepts(store, Op(ref, version, spec, None));
      if ok {
        clock := clock + 1;
        store := store[ref := Service(clock, spec)];
      }
    }

    /** Fails, changing nothing, for a service that is missing or not replicated. */
    method Stop(ref: string, answers: bool) returns (ok: bool)
      modifies this
      ensures ok <==> answers && ref in old(store) && old(store)[ref].spec.mode.Replicated?
      ensures if ok then store == old(store)[ref := Service(clock, StopSpec(old(store)[ref].spec, instance))]
              else store == old(store)
    {
      if ref !in store || !store[ref].spec.mode.Replicated? {
        return false;
      }
      ok := Scale(ref, store[ref].version, StopSpec(store[ref].spec, instance), answers);
    }

    /** restore: a service without the label is left alone, and that is not an error. */
    method Restore(ref: string, answers: bool) returns (ok: bool)
      requires ref in store
      modifies this
      ensures ok <==> REPLICAS_LABEL !in old(store)[ref].spec.labels ||
                      (answers && old(store)[ref].spec.mode.Replicated?)
      ensures if ok && REPLICAS_LABEL in old(store)[ref].spec.labels
              then store == old(store)[ref := Service(clock, RestoreSpec(old(store)[ref].spec))]
              else store == old(store)
    {
      if REPLICAS_LABEL !in store[ref].spec.labels {
        return true;
      }
      ok := Scale(ref, store[ref].version, RestoreSpec(store[ref].spec), answers);
    }

    method Start(ref: string, answers: bool) returns (ok: bool)
      modifies this
      ensures ok ==> ref in old(store)
      ensures ok <==> ref in old(store) &&
                      (REPLICAS_LABEL !in old(store)[ref].spec.labels ||
                       (answers && old(store)[ref].spec.mode.Replicated?))
      ensures if ok && REPLICAS_LABEL in old(store)[ref].spec.labels
              then store == old(store)[ref := Service(clock, RestoreSpec(old(store)[ref].spec))]
              else store == old(store)
    {
      if ref !in store {
        return false;
      }
      ok := Restore(ref, answers);
    }

    /** Restores every service this instance quiesced, in any order; those for which the
        update fails stay as they were, labels and all, for the next attempt. Without a list
        (`listed` is false) nothing happens. */
    method RecoverQuiesced(listed: bool, failing: set<string>) returns (ok: bool, n: nat)
      modifies this
      ensures ok <==> listed
      ensures !ok ==> n == 0 && store == old(store)
      ensures ok ==> n == |Restorable(old(store), instance) - failing|
      ensures ok ==> Recovered(old(store), store, instance, failing)
    {
      hide Progress, Restorable, RestoreSpec;
      if !listed {
        return false, 0;
      }
      var todo := set ref | ref in store && Owned(store[ref].spec, instance);
      ghost var was := store;
      ProgressStarts(was, instance, failing, todo);
      n := 0;
      while todo != {}
        invariant todo <= was.Keys
        invariant forall ref | ref in todo :: Owned(was[ref].spec, instance)
        invariant n == |Restorable(was, instance) - failing - todo|
        invariant Progress(was, store, instance, failing, todo)
        decreases todo
      {
        var ref :| ref in todo;
        var restored := RecoverOne(ref, ref !in failing, was, failing, todo);
        todo := todo - {ref};
        if restored {
          n := n + 1;
        }
      }
      ProgressEnds(was, store, instance, failing);
      assert Restorable(was, instance) - failing - {} == Restorable(was, instance) - failing;
      ok := true;
    }

    /** One service of the list; an error is skipped. */
    method RecoverOne(ref: string, answers: bool, ghost was: map<string, Service>, ghost failing: set<string>,
                      ghost todo: set<string>) returns (ok: bool)
      requires Progress(was, store, instance, failing, todo)
      requires ref in todo && ref in was && Owned(was[ref].spec, instance) && (answers <==> ref !in failing)
      modifies this
      ensures Progress(was, store, instance, failing, todo - {ref})
      ensures |Restorable(was, instance) - failing - (todo - {ref})| ==
              |Restorable(was, instance) - failing - todo| + (if ok then 1 else 0)
    {
      hide Progress, RestoreSpec, Restorable;
      ghost var now := store;
      ProgressAt(was, store, instance, failing, todo, ref);
      ok := Restore(ref, answers);
      ProgressStep(was, now, store, instance, failing, todo, ref, ok);
      Removed(Restorable(was, instance) - failing, todo, ref);
    }
  }

  /** Recovery with `todo` still to be visited. */
  ghost predicate Progress(was: map<string, Service>, now: map<string, Service>, instance: string,
                           failing: set<string>, todo: set<string>)
  {
    && now.Keys == was.Keys
    && forall ref | ref in was ::
         if ref in Restorable(was, instance) - failing - todo
         then now[ref].spec == RestoreSpec(was[ref].spec)
         else now[ref] == was[ref]
  }

  lemma ProgressStarts(was: map<string, Service>, instance: string, failing: set<string>, todo: set<string>)
    requires todo == set ref | ref in was && Owned(was[ref].spec, instance)
    ensures Progress(was, was, instance, failing, todo)
    ensures |Restorable(was, instance) - failing - todo| == 0
  {
    assert Restorable(was, instance) - failing - todo == {};
  }

  lemma ProgressAt(was: map<string, Service>, now: map<string, Service>, instance: string, failing: set<string>,
                   todo: set<string>, ref: string)
    requires Progress(was, now, instance, failing, todo) && ref in todo && ref in was
    ensures ref in now && now[ref] == was[ref]
  {
  }

  lemma ProgressStep(was: map<string, Service>, now: map<string, Service>, next: map<string, Service>,
                     instance: string, failing: set<string>, todo: set<string>, ref: string, ok: bool)
    requires Progress(was, now, instance, failing, todo) && ref in todo && ref in was
    requires Owned(was[ref].spec, instance)
    requires ok <==> ref !in failing && was[ref].spec.mode.Replicated?
    requires next.Keys == now.Keys && forall r | r in now && r != ref :: next[r] == now[r]
    requires if ok then next[ref].spec == RestoreSpec(was[ref].spec) else next[ref] == was[ref]
    ensures Progress(was, next, instance, failing, todo - {ref})
    ensures ok <==> ref in Restorable(was, instance) - failing
  {
    hide RestoreSpec;
  }

  lemma ProgressEnds(was: map<string, Service>, now: map<string, Service>, instance: string, failing: set<string>)
    requires Progress(was, now, instance, failing, {})
    ensures Recovered(was, now, instance, failing)
  {
    hide RestoreSpec;
  }

  lemma Removed(goal: set<string>, todo: set<string>, ref: string)
    requires ref in todo
    ensures goal - (todo - {ref}) == (if ref in goal then (goal - todo) + {ref} else goal - todo)
    ensures |goal - (todo - {ref})| == |goal - todo| + (if ref in goal then 1 else 0)
  {
    assert goal - (todo - {ref}) == (if ref in goal then (goal - todo) + {ref} else goal - todo);
  }

  /** The owned services whose update the store accepts. */
  function Restorable(store: map<string, Service>, instance: string): set<string> {
    set ref | ref in store && Owned(store[ref].spec, instance) && store[ref].spec.mode.Replicated?
  }

  ghost predicate Recovered(before: map<string, Service>, after: map<string, Service>, instance: string,
                            failing: set<string>)
  {
    && after.Keys == before.Keys
    && forall ref | ref in before ::
         if ref in Restorable(before, instance) - failing
         then after[ref].spec == RestoreSpec(before[ref].spec)
         else after[ref] == before[ref]
  }

  /** A crash at any point of any execution, then a recovery whose updates all succeed:
      every replicated service this instance had quiesced is unlabelled and runs at the
      count its operator last set, zero included; no other service changes. */
  lemma CrashThenRecover(steps: seq<Step>, instance: string, after: map<string, Service>, ref: string)
    requires Feasible(Init(), steps + [Crash])
    requires Recovered(After(Init(), steps + [Crash]).store, after, instance, {})
    requires ref in After(Init(), steps + [Crash]).store
    ensures var s := After(Init(), steps + [Crash]);
            && ref in after && ref in s.want
            && MeaningOf(after[ref].spec) == s.want[ref]
            && (Owned(s.store[ref].spec, instance) && s.store[ref].spec.mode.Replicated? ==>
                  && REPLICAS_LABEL !in after[ref].spec.labels && INSTANCE_LABEL !in after[ref].spec.labels
                  && after[ref].spec.mode == Replicated(s.want[ref].count))
            && (!Owned(s.store[ref].spec, instance) ==> after[ref] == s.store[ref])
  {
    hide Feasible, After, MeaningOf, RestoreSpec;
    var s := After(Init(), steps + [Crash]);
    MeaningAlwaysKept(steps + [Crash], ref);
    if Owned(s.store[ref].spec, instance) && s.store[ref].spec.mode.Replicated? {
      RestoreKeepsMeaning(s.store[ref].spec);
    }
  }

  /** One instance never revives a service another named instance has quiesced. */
  lemma RecoveryIsScoped(before: map<string, Service>, after: map<string, Service>, mine: string, ref: string)
    requires Recovered(before, after, mine, {}) && ref in before && mine != ""
    requires INSTANCE_LABEL in before[ref].spec.labels ==> before[ref].spec.labels[INSTANCE_LABEL] != mine
    ensures after[ref] == before[ref]
  {
    assert ref !in Restorable(before, mine);
  }

  /** In any execution: an accepted stop of a running service by an instance, a crash right
      behind it, and a recovery by the same instance whose updates all succeed. The service is
      back at the count its operator last set, without labels. */
  lemma StopCrashRecover(steps: seq<Step>, i: nat, instance: string, after: map<string, Service>)
    requires Feasible(Init(), steps) && i < |After(Init(), steps).ops|
    requires var s := After(Init(), steps);
             var op := s.ops[i];
             && op.stopBy == Some(instance) && Accepts(s.store, op)
             && "sabon.quiesce.replicas" !in s.store[op.ref].spec.labels
             && Recovered(Apply(Apply(s, Commit(i, true)), Crash).store, after, instance, {})
    ensures var s := After(Init(), steps);
            var ref := s.ops[i].ref;
            && ref in after && ref in s.want
            && "sabon.quiesce.replicas" !in after[ref].spec.labels
            && "sabon.quiesce.instance" !in after[ref].spec.labels
            && after[ref].spec.mode == Replicated(s.want[ref].count)
            && MeaningOf(after[ref].spec) == s.want[ref]
  {
    hide Feasible, After, MeaningOf, StopSpec, RestoreSpec, Owned;
    var s := After(Init(), steps);
    InitInv();
    InvAlways(Init(), steps);
    var op := s.ops[i];
    assert OpOk(s, op);
    var spec := s.store[op.ref].spec;
    StopperOwns(spec, instance, instance);
    StopKeepsMeaning(spec, instance);
    StopFields(spec, instance);
    RestoreKeepsMeaning(StopSpec(spec, instance));
  }

  lemma InitInv()
    ensures Inv(Init())
  {
  }
}
