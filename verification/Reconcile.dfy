/**
 From discovered jobs to the desired list: every job is paired with its targets,
 the first plan of an "<app>|<target>" key gets a backup entry, and checks and
 prunes get entries of their own. The keys of all entries share one name space;
 when that is safe is stated exactly.
 */
module Reconcile {
  import opened Lists
  import opened Specs
  import opened Keys
  import opened Collisions
  import Scheduling

  datatype Target = Target(name: string, schedule: string, check: string, prune: string)

  datatype Plan = Plan(job: Job, target: Target, schedule: string)

  /** What a scheduled closure does. */
  datatype Work =
    | DoBackup(job: Job, target: Target)
    | DoCheck(app: string, target: Target)
    | DoPrune(app: string, target: Target)

  type Entry = Scheduling.Job<Work>

  /** jobFingerprint, an arbitrary function of the job and the target. */
  type Fingerprint = (Job, Target) -> string

  // ------------------------------------------------------------------ plans

  function Find(cfg: seq<Target>, name: string): Option<Target> {
    if cfg == [] then None else if cfg[0].name == name then Some(cfg[0]) else Find(cfg[1..], name)
  }

  ghost predicate DistinctNames(cfg: seq<Target>) {
    forall i, j | 0 <= i < j < |cfg| :: cfg[i].name != cfg[j].name
  }

  lemma {:induction false} FindExactly(cfg: seq<Target>, name: string)
    requires DistinctNames(cfg)
    ensures forall t :: Find(cfg, name) == Some(t) <==> t in cfg && t.name == name
    decreases |cfg|
  {
    if cfg != [] {
      FindExactly(cfg[1..], name);
      assert cfg == [cfg[0]] + cfg[1..];
      assert forall t | t in cfg[1..] :: t.name != cfg[0].name;
    }
  }

  /** The configured targets a list of overrides names, unknown names left out. */
  function Selected(os: seq<TargetSpec>, cfg: seq<Target>): seq<Target> {
    if os == [] then []
    else
      var n := |os| - 1;
      var t := Find(cfg, os[n].name);
      Selected(os[..n], cfg) + (if t.Some? then [t.value] else [])
  }

  function TargetsOf(job: Job, cfg: seq<Target>): seq<Target> {
    if job.overrides == [] then cfg else Selected(job.overrides, cfg)
  }

  ghost predicate Mentions(os: seq<TargetSpec>, name: string) {
    exists i :: 0 <= i < |os| && os[i].name == name
  }

  lemma {:induction false} SelectedExactly(os: seq<TargetSpec>, cfg: seq<Target>, t: Target)
    requires DistinctNames(cfg)
    ensures t in Selected(os, cfg) <==> t in cfg && Mentions(os, t.name)
    decreases |os|
  {
    hide DistinctNames, Find;
    if os != [] {
      var n := |os| - 1;
      SelectedExactly(os[..n], cfg, t);
      FindExactly(cfg, os[n].name);
      assert Mentions(os, t.name) <==> Mentions(os[..n], t.name) || os[n].name == t.name by {
        assert forall i | 0 <= i < n :: os[..n][i] == os[i];
      }
    }
  }

  /** targetsFor. */
  method TargetsFor(job: Job, cfg: seq<Target>) returns (ts: seq<Target>)
    ensures ts == TargetsOf(job, cfg)
    ensures DistinctNames(cfg) ==>
              forall t :: t in ts <==> t in cfg && (job.overrides == [] || Mentions(job.overrides, t.name))
  {
    hide DistinctNames, Find;
    var os := job.overrides;
    if os == [] {
      return cfg;
    }
    ts := [];
    for i := 0 to |os|
      invariant ts == Selected(os[..i], cfg)
    {
      assert os[..i + 1][..i] == os[..i];
      var t := Find(cfg, os[i].name);
      if t.Some? {
        ts := ts + [t.value];
      }
    }
    assert os[..|os|] == os;
    if DistinctNames(cfg) {
      forall t ensures t in ts <==> t in cfg && Mentions(os, t.name) {
        SelectedExactly(os, cfg, t);
      }
    }
  }

  /** The target's schedule, unless the job overrides it. */
  function ScheduleOf(job: Job, t: Target): string {
    var o := Override(job.overrides, t.name);
    if o.Some? && o.value.schedule != "" then o.value.schedule else t.schedule
  }

  function PlansOfJob(job: Job, ts: seq<Target>): seq<Plan> {
    seq(|ts|, i requires 0 <= i < |ts| => Plan(job, ts[i], ScheduleOf(job, ts[i])))
  }

  function PlansOf(jobs: seq<Job>, cfg: seq<Target>): seq<Plan> {
    if jobs == [] then []
    else
      var n := |jobs| - 1;
      PlansOf(jobs[..n], cfg) + PlansOfJob(jobs[n], TargetsOf(jobs[n], cfg))
  }

  lemma {:induction false} PlansExactly(jobs: seq<Job>, cfg: seq<Target>, p: Plan)
    ensures p in PlansOf(jobs, cfg) <==>
            p.job in jobs && p.target in TargetsOf(p.job, cfg) && p.schedule == ScheduleOf(p.job, p.target)
    decreases |jobs|
  {
    hide TargetsOf, ScheduleOf;
    if jobs != [] {
      var n := |jobs| - 1;
      PlansExactly(jobs[..n], cfg, p);
      assert jobs == jobs[..n] + [jobs[n]];
      JobPlansExactly(jobs[n], TargetsOf(jobs[n], cfg), p);
    }
  }

  /** The schedule of a plan: that of the first override of the target's name, if it sets
      one, else the target's own. */
  lemma ScheduleSpelled(job: Job, t: Target, i: nat)
    ensures FirstNamed(job.overrides, t.name, i) && job.overrides[i].schedule != "" ==>
              ScheduleOf(job, t) == job.overrides[i].schedule
    ensures FirstNamed(job.overrides, t.name, i) && job.overrides[i].schedule == "" ==> ScheduleOf(job, t) == t.schedule
    ensures !Mentions(job.overrides, t.name) ==> ScheduleOf(job, t) == t.schedule
  {
    hide Override;
    OverrideIsFirst(job.overrides, t.name);
  }

  /** Plans follow the order of the jobs, and for one job that of its overrides or, without
      any, of the configuration. */
  lemma {:induction false} PlansInOrder(a: seq<Job>, b: seq<Job>, cfg: seq<Target>)
    ensures PlansOf(a + b, cfg) == PlansOf(a, cfg) + PlansOf(b, cfg)
    decreases |b|
  {
    hide PlansOf, PlansOfJob, TargetsOf;
    if b == [] {
      assert a + b == a;
      NoPlans(cfg);
    } else {
      var init, x := b[..|b| - 1], b[|b| - 1];
      PlansInOrder(a, init, cfg);
      assert a + b == (a + init) + [x] && b == init + [x];
      PlansSnoc(a + init, x, cfg);
      PlansSnoc(init, x, cfg);
    }
  }

  lemma NoPlans(cfg: seq<Target>)
    ensures PlansOf([], cfg) == []
  {
  }

  lemma PlansSnoc(jobs: seq<Job>, job: Job, cfg: seq<Target>)
    ensures PlansOf(jobs + [job], cfg) == PlansOf(jobs, cfg) + PlansOfJob(job, TargetsOf(job, cfg))
  {
    hide PlansOfJob, TargetsOf;
    assert (jobs + [job])[..|jobs|] == jobs;
  }

  lemma PlansOfOne(job: Job, cfg: seq<Target>)
    ensures job.overrides == [] ==> |PlansOf([job], cfg)| == |cfg|
    ensures job.overrides == [] ==> forall i | 0 <= i < |cfg| :: PlansOf([job], cfg)[i].target == cfg[i]
  {
    assert [job][..0] == [];
    assert PlansOf([job], cfg) == PlansOfJob(job, TargetsOf(job, cfg));
  }

  lemma {:induction false} SelectedInOrder(a: seq<TargetSpec>, b: seq<TargetSpec>, cfg: seq<Target>)
    ensures Selected(a + b, cfg) == Selected(a, cfg) + Selected(b, cfg)
    decreases |b|
  {
    hide Find;
    if b == [] {
      assert a + b == a;
    } else {
      var n := |b| - 1;
      SelectedInOrder(a, b[..n], cfg);
      assert (a + b)[..|a| + n] == a + b[..n] && (a + b)[|a| + n] == b[n];
    }
  }

  lemma JobPlansExactly(job: Job, ts: seq<Target>, p: Plan)
    ensures p in PlansOfJob(job, ts) <==> p.job == job && p.target in ts && p.schedule == ScheduleOf(job, p.target)
  {
    hide ScheduleOf;
    if p.job == job && p.target in ts && p.schedule == ScheduleOf(job, p.target) {
      var i :| 0 <= i < |ts| && ts[i] == p.target;
      assert PlansOfJob(job, ts)[i] == p;
    }
  }

  /** plans. */
  method Plans(jobs: seq<Job>, cfg: seq<Target>) returns (plans: seq<Plan>)
    ensures plans == PlansOf(jobs, cfg)
  {
    hide TargetsOf, ScheduleOf, DistinctNames;
    plans := [];
    for k := 0 to |jobs|
      invariant plans == PlansOf(jobs[..k], cfg)
    {
      var job := jobs[k];
      var ts := TargetsFor(job, cfg);
      ghost var before := plans;
      for i := 0 to |ts|
        invariant plans == before + PlansOfJob(job, ts[..i])
      {
        var sched := ts[i].schedule;
        var o := TargetOverride(job.overrides, ts[i].name);
        if o.Some? && o.value.schedule != "" {
          sched := o.value.schedule;
        }
        ScheduleIs(job, ts[i], sched, o);
        assert PlansOfJob(job, ts[..i + 1]) == PlansOfJob(job, ts[..i]) + [Plan(job, ts[i], sched)];
        plans := plans + [Plan(job, ts[i], sched)];
      }
      assert ts[..|ts|] == ts && jobs[..k + 1][..k] == jobs[..k];
    }
    assert jobs[..|jobs|] == jobs;
  }

  lemma ScheduleIs(job: Job, t: Target, sched: string, o: Option<TargetSpec>)
    requires o == Override(job.overrides, t.name)
    requires sched == if o.Some? && o.value.schedule != "" then o.value.schedule else t.schedule
    ensures sched == ScheduleOf(job, t)
  {
  }

  // ------------------------------------------------------- the desired list

  datatype Kind = Backup | Check | Prune

  function Suffix(k: Kind): string {
    match k
    case Backup => ""
    case Check => "|check"
    case Prune => "|prune"
  }

  function EntryKey(app: string, target: string, k: Kind): string {
    Key(app, target + Suffix(k))
  }

  function PlanKey(p: Plan): string {
    Key(p.job.app, p.target.name)
  }

  function EntryOf(p: Plan, k: Kind, fp: Fingerprint): Entry {
    var key := EntryKey(p.job.app, p.target.name, k);
    match k
    case Backup => Scheduling.Job(key, p.schedule, fp(p.job, p.target), DoBackup(p.job, p.target))
    case Check => Scheduling.Job(key, p.target.check, "", DoCheck(p.job.app, p.target))
    case Prune => Scheduling.Job(key, p.target.prune, "", DoPrune(p.job.app, p.target))
  }

  /** The first plan of its key that has a schedule. */
  ghost predicate First(plans: seq<Plan>, j: nat)
    requires j < |plans|
  {
    && plans[j].schedule != ""
    && forall i | 0 <= i < j && plans[i].schedule != "" :: PlanKey(plans[i]) != PlanKey(plans[j])
  }

  ghost predicate Wanted(plans: seq<Plan>, j: nat, k: Kind)
    requires j < |plans|
  {
    match k
    case Backup => First(plans, j)
    case Check => plans[j].target.check != ""
    case Prune => plans[j].target.prune != ""
  }

  ghost function EntryIf(plans: seq<Plan>, j: nat, k: Kind, fp: Fingerprint): seq<Entry>
    requires j < |plans|
  {
    if Wanted(plans, j, k) then [EntryOf(plans[j], k, fp)] else []
  }

  ghost function EntriesAt(plans: seq<Plan>, j: nat, fp: Fingerprint): seq<Entry>
    requires j < |plans|
  {
    EntryIf(plans, j, Backup, fp) + EntryIf(plans, j, Check, fp) + EntryIf(plans, j, Prune, fp)
  }

  /** The entries of the first n plans. */
  ghost function Desired(plans: seq<Plan>, n: nat, fp: Fingerprint): seq<Entry>
    requires n <= |plans|
  {
    if n == 0 then [] else Desired(plans, n - 1, fp) + EntriesAt(plans, n - 1, fp)
  }

  lemma KeySpelling(app: string, target: string)
    ensures Key(app, target) == EntryKey(app, target, Backup)
    ensures app + "|" + target + "|check" == EntryKey(app, target, Check)
    ensures app + "|" + target + "|prune" == EntryKey(app, target, Prune)
  {
    assert target + "" == target;
    assert app + "|" + target + "|check" == app + "|" + (target + "|check");
    assert app + "|" + target + "|prune" == app + "|" + (target + "|prune");
  }

  /** The entries of one plan; `isNew` says that no earlier plan has taken its key. */
  method EntriesFor(ghost plans: seq<Plan>, ghost j: nat, p: Plan, isNew: bool, fp: Fingerprint)
    returns (es: seq<Entry>)
    requires j < |plans| && p == plans[j] && (First(plans, j) <==> p.schedule != "" && isNew)
    ensures es == EntriesAt(plans, j, fp)
  {
    hide Key, Suffix, First;
    var app, target := p.job.app, p.target;
    KeySpelling(app, target.name);
    es := [];
    if p.schedule != "" && isNew {
      es := es + [Scheduling.Job(Key(app, target.name), p.schedule, fp(p.job, target), DoBackup(p.job, target))];
    }
    if target.check != "" {
      es := es + [Scheduling.Job(app + "|" + target.name + "|check", target.check, "", DoCheck(app, target))];
    }
    if target.prune != "" {
      es := es + [Scheduling.Job(app + "|" + target.name + "|prune", target.prune, "", DoPrune(app, target))];
    }
  }

  /** An earlier plan with a schedule has the key. */
  ghost predicate Taken(plans: seq<Plan>, n: nat, key: string)
    requires n <= |plans|
  {
    exists i :: 0 <= i < n && plans[i].schedule != "" && PlanKey(plans[i]) == key
  }

  /** The loop of Reconcile that builds the desired list. */
  method DesiredList(plans: seq<Plan>, fp: Fingerprint) returns (desired: seq<Entry>)
    ensures desired == Desired(plans, |plans|, fp)
  {
    hide Key, EntriesAt;
    desired := [];
    var seen: set<string> := {};
    for j := 0 to |plans|
      invariant desired == Desired(plans, j, fp)
      invariant forall key :: key in seen <==> Taken(plans, j, key)
    {
      var p := plans[j];
      var key := Key(p.job.app, p.target.name);
      var es := EntriesFor(plans, j, p, key !in seen, fp);
      if p.schedule != "" {
        seen := seen + {key};
      }
      desired := desired + es;
    }
  }

  /** An entry is in the list exactly if some plan wants it. */
  ghost predicate FromPlan(plans: seq<Plan>, n: nat, fp: Fingerprint, e: Entry, j: int, k: Kind)
    requires n <= |plans|
  {
    0 <= j < n && Wanted(plans, j, k) && e == EntryOf(plans[j], k, fp)
  }

  lemma EntriesAtExactly(plans: seq<Plan>, j: nat, fp: Fingerprint, e: Entry)
    requires j < |plans|
    ensures e in EntriesAt(plans, j, fp) <==> exists k :: Wanted(plans, j, k) && e == EntryOf(plans[j], k, fp)
  {
    hide Wanted, EntryOf;
    if k :| Wanted(plans, j, k) && e == EntryOf(plans[j], k, fp) {
      assert e in EntryIf(plans, j, k, fp);
      assert k == Backup || k == Check || k == Prune;
    }
  }

  lemma {:induction false} DesiredExactly(plans: seq<Plan>, n: nat, fp: Fingerprint, e: Entry)
    requires n <= |plans|
    ensures e in Desired(plans, n, fp) <==> exists j, k :: FromPlan(plans, n, fp, e, j, k)
  {
    hide Wanted, EntryOf, EntriesAt;
    if n > 0 {
      var m := n - 1;
      DesiredExactly(plans, m, fp, e);
      EntriesAtExactly(plans, m, fp, e);
      if j, k :| FromPlan(plans, m, fp, e, j, k) {
        assert FromPlan(plans, n, fp, e, j, k);
      }
      if k :| Wanted(plans, m, k) && e == EntryOf(plans[m], k, fp) {
        assert FromPlan(plans, n, fp, e, m, k);
      }
      if j, k :| FromPlan(plans, n, fp, e, j, k) {
        assert j == m || FromPlan(plans, m, fp, e, j, k);
      }
    }
  }

  /** The entry is the backup of the j-th plan, the first one with a schedule under its key. */
  ghost predicate BackupFor(plans: seq<Plan>, j: int, fp: Fingerprint, e: Entry) {
    && 0 <= j < |plans| && plans[j].schedule != ""
    && e.key == plans[j].job.app + "|" + plans[j].target.name
    && (forall i | 0 <= i < j && plans[i].schedule != "" :: plans[i].job.app + "|" + plans[i].target.name != e.key)
    && e.schedule == plans[j].schedule
    && e.fingerprint == fp(plans[j].job, plans[j].target)
    && e.run == DoBackup(plans[j].job, plans[j].target)
  }

  /** The entry is the check of the j-th plan's target, for its app. */
  ghost predicate CheckFor(plans: seq<Plan>, j: int, e: Entry) {
    && 0 <= j < |plans| && e.schedule != ""
    && e.key == plans[j].job.app + "|" + plans[j].target.name + "|check"
    && e.schedule == plans[j].target.check && e.fingerprint == ""
    && e.run == DoCheck(plans[j].job.app, plans[j].target)
  }

  ghost predicate PruneFor(plans: seq<Plan>, j: int, e: Entry) {
    && 0 <= j < |plans| && e.schedule != ""
    && e.key == plans[j].job.app + "|" + plans[j].target.name + "|prune"
    && e.schedule == plans[j].target.prune && e.fingerprint == ""
    && e.run == DoPrune(plans[j].job.app, plans[j].target)
  }

  lemma WantedSpelled(plans: seq<Plan>, j: nat, fp: Fingerprint, e: Entry)
    requires j < |plans|
    ensures Wanted(plans, j, Backup) && e == EntryOf(plans[j], Backup, fp) <==> BackupFor(plans, j, fp, e)
    ensures Wanted(plans, j, Check) && e == EntryOf(plans[j], Check, fp) <==> CheckFor(plans, j, e)
    ensures Wanted(plans, j, Prune) && e == EntryOf(plans[j], Prune, fp) <==> PruneFor(plans, j, e)
  {
    hide EntryKey;
    KeySpelling(plans[j].job.app, plans[j].target.name);
  }

  /** The desired list holds exactly the backups, checks and prunes of the plans, each with
      its own key, schedule, fingerprint and work. */
  lemma DesiredSpelled(plans: seq<Plan>, fp: Fingerprint, e: Entry)
    ensures e in Desired(plans, |plans|, fp) <==>
            exists j :: BackupFor(plans, j, fp, e) || CheckFor(plans, j, e) || PruneFor(plans, j, e)
  {
    hide Wanted, EntryOf, Desired, BackupFor, CheckFor, PruneFor;
    DesiredExactly(plans, |plans|, fp, e);
    if j, k :| FromPlan(plans, |plans|, fp, e, j, k) {
      WantedSpelled(plans, j, fp, e);
      assert k == Backup || k == Check || k == Prune;
    }
    if j :| BackupFor(plans, j, fp, e) || CheckFor(plans, j, e) || PruneFor(plans, j, e) {
      InPlans(plans, j, fp, e);
      WantedSpelled(plans, j, fp, e);
      assert FromPlan(plans, |plans|, fp, e, j, Backup) || FromPlan(plans, |plans|, fp, e, j, Check)
          || FromPlan(plans, |plans|, fp, e, j, Prune);
    }
  }

  lemma InPlans(plans: seq<Plan>, j: int, fp: Fingerprint, e: Entry)
    requires BackupFor(plans, j, fp, e) || CheckFor(plans, j, e) || PruneFor(plans, j, e)
    ensures 0 <= j < |plans|
  {
  }

  ghost predicate OneEach(es: seq<Entry>) {
    forall i, j | 0 <= i < j < |es| && es[i].run.DoBackup? && es[j].run.DoBackup? :: es[i].key != es[j].key
  }

  /** At most one backup entry is ever appended under a key. */
  lemma {:induction false} OneBackupEach(plans: seq<Plan>, n: nat, fp: Fingerprint)
    requires n <= |plans|
    ensures OneEach(Desired(plans, n, fp))
  {
    hide EntriesAt, PlanKey, First, OneEach;
    if n == 0 {
      NoEntries();
    } else {
      var m := n - 1;
      OneBackupEach(plans, m, fp);
      BackupIsFirst(plans, m, fp);
      var before := Desired(plans, m, fp);
      forall e | e in before && e.run.DoBackup? ensures First(plans, m) ==> e.key != PlanKey(plans[m]) {
        BackupKeyOf(plans, m, fp, e);
      }
      OneMoreBackup(before, EntriesAt(plans, m, fp), PlanKey(plans[m]), First(plans, m));
    }
  }

  lemma NoEntries()
    ensures OneEach([])
  {
  }

  /** Of the entries of one plan only the first can be a backup. */
  lemma BackupIsFirst(plans: seq<Plan>, j: nat, fp: Fingerprint)
    requires j < |plans|
    ensures var es := EntriesAt(plans, j, fp);
            forall i | 0 <= i < |es| && es[i].run.DoBackup? ::
              i == 0 && First(plans, j) && es[i].key == PlanKey(plans[j])
  {
    hide First, Key;
    KeySpelling(plans[j].job.app, plans[j].target.name);
  }

  lemma OneMoreBackup(before: seq<Entry>, more: seq<Entry>, key: string, isNew: bool)
    requires OneEach(before)
    requires forall e | e in before && e.run.DoBackup? :: isNew ==> e.key != key
    requires forall i | 0 <= i < |more| && more[i].run.DoBackup? :: i == 0 && isNew && more[i].key == key
    ensures OneEach(before + more)
  {
    var all := before + more;
    forall i, j | 0 <= i < j < |all| && all[i].run.DoBackup? && all[j].run.DoBackup? ensures all[i].key != all[j].key {
      if i < |before| {
        assert all[i] in before;
      }
    }
  }

  lemma BackupKeyOf(plans: seq<Plan>, n: nat, fp: Fingerprint, e: Entry)
    requires n < |plans| && e in Desired(plans, n, fp) && e.run.DoBackup?
    ensures First(plans, n) ==> e.key != PlanKey(plans[n])
  {
    hide Desired;
    DesiredExactly(plans, n, fp, e);
    var j, k :| FromPlan(plans, n, fp, e, j, k);
    KeySpelling(plans[j].job.app, plans[j].target.name);
    assert k == Backup && e.key == PlanKey(plans[j]);
  }

  // -------------------------------------------------- one name space of keys

  /** The names, bare and with the suffixes of checks and prunes. */
  function Extended(names: set<string>): set<string> {
    set t, k | t in names && k in {Backup, Check, Prune} :: t + Suffix(k)
  }

  /** Different work never has the same key, whatever the apps. */
  ghost predicate Distinguishes(names: set<string>) {
    forall a, b, t, u, k, l | t in names && u in names && ValidApp(a) && ValidApp(b) &&
                              EntryKey(a, t, k) == EntryKey(b, u, l) ::
      a == b && t == u && k == l
  }

  /** No target is named like another one's check or prune, and no name, bare or suffixed,
      ends with a bar and another. */
  predicate NoClash(names: set<string>) {
    && NoEndings(Extended(names))
    && forall t, u | t in names && u in names :: u != t + Suffix(Check) && u != t + Suffix(Prune)
  }

  lemma SuffixTells(t: string, u: string, k: Kind, l: Kind)
    requires t + Suffix(k) == u + Suffix(l) && k != Backup && l != Backup
    ensures t == u && k == l
  {
    var s := t + Suffix(k);
    assert |Suffix(k)| == |Suffix(l)| == 6;
    assert t == s[..|t|] && u == s[..|u|];
    assert s[|s| - 1] == Suffix(k)[5] && s[|s| - 1] == Suffix(l)[5];
  }

  lemma SameWork(t: string, u: string, k: Kind, l: Kind, names: set<string>)
    requires NoClash(names) && t in names && u in names && t + Suffix(k) == u + Suffix(l)
    ensures t == u && k == l
  {
    assert t + "" == t && u + "" == u;
    if k != Backup && l != Backup {
      SuffixTells(t, u, k, l);
    }
  }

  lemma InExtended(t: string, k: Kind, names: set<string>)
    requires t in names
    ensures t + Suffix(k) in Extended(names)
  {
    assert k in {Backup, Check, Prune};
  }

  /** The schedule's keys tell all work apart exactly for configurations without a clash. */
  lemma DistinguishesExactly(names: set<string>)
    ensures Distinguishes(names) <==> NoClash(names)
  {
    UnambiguousExactly(Extended(names));
    if NoClash(names) {
      ClashFree(names);
    }
    if Distinguishes(names) {
      ExtendedUnambiguous(names);
      NamesApart(names);
    }
  }

  lemma ClashFree(names: set<string>)
    requires NoClash(names) && Unambiguous(Extended(names))
    ensures Distinguishes(names)
  {
    hide ValidApp, Key, Suffix, NoClash, Extended;
    forall a, b, t, u, k, l | t in names && u in names && ValidApp(a) && ValidApp(b) &&
                              EntryKey(a, t, k) == EntryKey(b, u, l)
      ensures a == b && t == u && k == l
    {
      InExtended(t, k, names);
      InExtended(u, l, names);
      SameWork(t, u, k, l, names);
    }
  }

  lemma ExtendedUnambiguous(names: set<string>)
    requires Distinguishes(names)
    ensures Unambiguous(Extended(names))
  {
    hide ValidApp, Key, Suffix;
    forall a, b, x, y | x in Extended(names) && y in Extended(names) && ValidApp(a) && ValidApp(b) &&
                        Key(a, x) == Key(b, y)
      ensures a == b && x == y
    {
      var t, k :| t in names && k in {Backup, Check, Prune} && x == t + Suffix(k);
      var u, l :| u in names && l in {Backup, Check, Prune} && y == u + Suffix(l);
      assert EntryKey(a, t, k) == EntryKey(b, u, l);
    }
  }

  lemma NamesApart(names: set<string>)
    requires Distinguishes(names)
    ensures forall t, u | t in names && u in names :: u != t + Suffix(Check) && u != t + Suffix(Prune)
  {
    forall t, u, k | t in names && u in names && (k == Check || k == Prune) ensures u != t + Suffix(k) {
      assert ValidApp("x");
      assert (t + Suffix(k)) + Suffix(Backup) == t + Suffix(k);
      assert EntryKey("x", t, k) == EntryKey("x", t + Suffix(k), Backup);
    }
  }

  // ----------------------------------------------- what ends up being scheduled

  /** Plans over valid apps and configured targets. */
  ghost predicate WellNamed(plans: seq<Plan>, cfg: seq<Target>) {
    && DistinctNames(cfg)
    && forall i | 0 <= i < |plans| :: ValidApp(plans[i].job.app) && plans[i].target in cfg
  }

  function Names(cfg: seq<Target>): set<string> {
    set i | 0 <= i < |cfg| :: cfg[i].name
  }

  lemma SameName(plans: seq<Plan>, cfg: seq<Target>, i: nat, j: nat)
    requires WellNamed(plans, cfg) && i < |plans| && j < |plans|
    ensures plans[i].target.name in Names(cfg)
    ensures plans[i].target.name == plans[j].target.name ==> plans[i].target == plans[j].target
  {
    assert plans[i].target in cfg && plans[j].target in cfg;
    var a :| 0 <= a < |cfg| && cfg[a] == plans[i].target;
    var b :| 0 <= b < |cfg| && cfg[b] == plans[j].target;
  }

  lemma InLast(es: seq<Entry>, e: Entry)
    requires e in es
    ensures e.key in Scheduling.Last(es) && Scheduling.Last(es)[e.key] in es && Scheduling.Last(es)[e.key].key == e.key
  {
    hide Scheduling.Last;
    var i :| 0 <= i < |es| && es[i] == e;
    LastIndex(es, e.key, i);
    Scheduling.LastPerKey(es, e.key);
    var j :| Scheduling.LastAt(es, e.key, j) && es[j] == Scheduling.Last(es)[e.key];
  }

  lemma {:induction false} LastIndex(es: seq<Entry>, key: string, i: nat)
    requires i < |es| && es[i].key == key
    ensures exists j :: Scheduling.LastAt(es, key, j)
    decreases |es| - i
  {
    if j :| i < j < |es| && es[j].key == key {
      LastIndex(es, key, j);
    } else {
      assert Scheduling.LastAt(es, key, i);
    }
  }

  lemma SameKeySameEntry(plans: seq<Plan>, cfg: seq<Target>, fp: Fingerprint, i: nat, k: Kind, j: nat, l: Kind)
    requires WellNamed(plans, cfg) && NoClash(Names(cfg)) && i < |plans| && j < |plans|
    requires Wanted(plans, i, k) && Wanted(plans, j, l)
    requires EntryOf(plans[i], k, fp).key == EntryOf(plans[j], l, fp).key
    ensures EntryOf(plans[i], k, fp) == EntryOf(plans[j], l, fp)
  {
    hide NoClash, ValidApp, EntryKey, DistinctNames;
    SameName(plans, cfg, i, j);
    SameName(plans, cfg, j, i);
    DistinguishesExactly(Names(cfg));
    assert k == l && plans[i].job.app == plans[j].job.app && plans[i].target == plans[j].target;
    assert PlanKey(plans[i]) == PlanKey(plans[j]);
    assert k == Backup ==> i == j;
  }

  /** Without a clash every wanted backup, check and prune is scheduled under its own key:
      the backup of the first plan, the check and the prune of the target itself. */
  lemma {:induction false} EverythingIsScheduled(plans: seq<Plan>, cfg: seq<Target>, fp: Fingerprint, i: nat, k: Kind)
    requires WellNamed(plans, cfg) && NoClash(Names(cfg)) && i < |plans| && Wanted(plans, i, k)
    ensures var e, want := EntryOf(plans[i], k, fp), Scheduling.Last(Desired(plans, |plans|, fp));
            e.key in want && want[e.key] == e
  {
    hide NoClash, WellNamed, EntryOf, Desired, Scheduling.Last, Wanted;
    var e, es := EntryOf(plans[i], k, fp), Desired(plans, |plans|, fp);
    assert FromPlan(plans, |plans|, fp, e, i, k);
    DesiredExactly(plans, |plans|, fp, e);
    InLast(es, e);
    var f := Scheduling.Last(es)[e.key];
    DesiredExactly(plans, |plans|, fp, f);
    var j, l :| FromPlan(plans, |plans|, fp, f, j, l);
    SameKeySameEntry(plans, cfg, fp, i, k, j, l);
  }

  /** The entry's key is scheduled with the entry's schedule and fingerprint. */
  ghost predicate IsScheduled(e: Entry, t: Scheduling.Table<Work>) {
    e.key in t && t[e.key].job.schedule == e.schedule && t[e.key].job.fingerprint == e.fingerprint
  }

  ghost predicate Gives(e: Entry, key: string, accepts: string -> bool) {
    e.key == key && accepts(e.schedule)
  }

  /** All wanted work with a valid schedule is scheduled, as it is wanted now, and nothing else. */
  ghost predicate Follows(plans: seq<Plan>, fp: Fingerprint, accepts: string -> bool, t: Scheduling.Table<Work>) {
    && (forall i, k | 0 <= i < |plans| && Wanted(plans, i, k) && accepts(EntryOf(plans[i], k, fp).schedule) ::
          IsScheduled(EntryOf(plans[i], k, fp), t))
    && (forall key | key in t :: exists i, k ::
          0 <= i < |plans| && Wanted(plans, i, k) && Gives(EntryOf(plans[i], k, fp), key, accepts))
  }

  /** After Reconcile, whatever was scheduled before: all wanted work with a valid schedule
      is scheduled, with the current schedule and fingerprint, and nothing else is. */
  lemma {:induction false} ReconciledSchedule(plans: seq<Plan>, cfg: seq<Target>, fp: Fingerprint,
                                              accepts: string -> bool, t: Scheduling.Table<Work>,
                                              t': Scheduling.Table<Work>, n: nat)
    requires WellNamed(plans, cfg) && NoClash(Names(cfg))
    requires Scheduling.Synced(accepts, t, Scheduling.Last(Desired(plans, |plans|, fp)), t', n)
    ensures Follows(plans, fp, accepts, t')
  {
    hide NoClash, WellNamed, EntryOf, Desired, Scheduling.Last, Wanted;
    forall i, k | 0 <= i < |plans| && Wanted(plans, i, k) && accepts(EntryOf(plans[i], k, fp).schedule)
      ensures IsScheduled(EntryOf(plans[i], k, fp), t')
    {
      EverythingIsScheduled(plans, cfg, fp, i, k);
    }
    var es := Desired(plans, |plans|, fp);
    forall key | key in t'
      ensures exists i, k ::
                0 <= i < |plans| && Wanted(plans, i, k) && Gives(EntryOf(plans[i], k, fp), key, accepts)
    {
      Scheduling.LastPerKey(es, key);
      var x :| Scheduling.LastAt(es, key, x) && es[x] == Scheduling.Last(es)[key];
      DesiredExactly(plans, |plans|, fp, es[x]);
      var i, k :| FromPlan(plans, |plans|, fp, es[x], i, k);
    }
  }

  /** Discovered jobs have valid app names; plans only ever name configured targets. */
  lemma PlansAreWellNamed(jobs: seq<Job>, cfg: seq<Target>)
    requires DistinctNames(cfg) && forall j | j in jobs :: ValidApp(j.app)
    ensures WellNamed(PlansOf(jobs, cfg), cfg)
  {
    hide PlansOf, ValidApp, DistinctNames;
    var plans := PlansOf(jobs, cfg);
    forall i | 0 <= i < |plans| ensures ValidApp(plans[i].job.app) && plans[i].target in cfg {
      PlansExactly(jobs, cfg, plans[i]);
      SelectedExactly(plans[i].job.overrides, cfg, plans[i].target);
    }
  }

  /** Reconcile: a failed listing changes nothing; otherwise the schedule follows the jobs. */
  method Reconcile(sched: Scheduling.Scheduler<Work>, listed: Option<seq<Job>>, cfg: seq<Target>, fp: Fingerprint)
    returns (ok: bool)
    requires sched.Valid()
    modifies sched
    ensures sched.Valid() && (ok <==> listed.Some?)
    ensures !ok ==> sched.live == old(sched.live) && sched.cron == old(sched.cron)
    ensures ok && DistinctNames(cfg) && (forall j | j in listed.value :: ValidApp(j.app)) && NoClash(Names(cfg)) ==>
              Follows(PlansOf(listed.value, cfg), fp, sched.accepts, sched.live)
  {
    hide Follows, PlansOf, NoClash, ValidApp, DistinctNames, Desired, Scheduling.Last, Scheduling.Synced,
         Scheduling.Agree;
    if listed.None? {
      return false;
    }
    var plans := Plans(listed.value, cfg);
    var desired := DesiredList(plans, fp);
    ghost var before, n := sched.live, sched.nextId;
    sched.Sync(desired);
    if DistinctNames(cfg) && (forall j | j in listed.value :: ValidApp(j.app)) && NoClash(Names(cfg)) {
      PlansAreWellNamed(listed.value, cfg);
      ReconciledSchedule(plans, cfg, fp, sched.accepts, before, sched.live, n);
    }
    ok := true;
  }

  /** A named backup that survived the collision check is the only source of its repository:
      every backup entry of its app runs its own job. */
  lemma NamedBackupsRunTheirOwn(raw: seq<Job>, cfg: seq<Target>, i: nat, j: nat)
    requires var plans := PlansOf(Kept(raw, raw), cfg);
             i < |plans| && j < |plans| && plans[i].job.app == plans[j].job.app && plans[i].job.backup != ""
    ensures var plans := PlansOf(Kept(raw, raw), cfg);
            plans[j].job == plans[i].job
  {
    hide Kept, PlansOf, TargetsOf;
    var jobs := Kept(raw, raw);
    var plans := PlansOf(jobs, cfg);
    PlansExactly(jobs, cfg, plans[i]);
    PlansExactly(jobs, cfg, plans[j]);
    var a :| 0 <= a < |jobs| && jobs[a] == plans[i].job;
    var b :| 0 <= b < |jobs| && jobs[b] == plans[j].job;
    NamedIsAlone(raw, a, b);
  }

  /** A target called "a|check" beside a target "a" with a check: the backup to the former
      takes the key of the latter's check, which is then never scheduled. */
  lemma BackupTakesCheckKey(job: Job, fp: Fingerprint)
    requires job.app == "x"
    ensures var a, b := Target("a", "", "daily", ""), Target("a|check", "hourly", "", "");
            var plans := [Plan(job, a, ""), Plan(job, b, "hourly")];
            var es := Desired(plans, 2, fp);
            && Wanted(plans, 0, Check)
            && "x|a|check" in Scheduling.Last(es) && Scheduling.Last(es)["x|a|check"].run == DoBackup(job, b)
            && forall key | key in Scheduling.Last(es) :: !Scheduling.Last(es)[key].run.DoCheck?
  {
    var a, b := Target("a", "", "daily", ""), Target("a|check", "hourly", "", "");
    var plans := [Plan(job, a, ""), Plan(job, b, "hourly")];
    var e, f := EntryOf(plans[0], Check, fp), EntryOf(plans[1], Backup, fp);
    ClashingKeys();
    DesiredSnoc(plans, 0, fp);
    DesiredSnoc(plans, 1, fp);
    assert Desired(plans, 2, fp) == [e, f] by {
      hide EntryOf, EntriesAt;
      assert Desired(plans, 2, fp) == [] + [e] + [f];
    }
    LastOfTwo(e, f);
  }

  lemma ClashingKeys()
    ensures EntryKey("x", "a", Check) == "x|a|check" == EntryKey("x", "a|check", Backup)
  {
    assert "a" + "|check" == "a|check" && "a|check" + "" == "a|check";
  }

  lemma DesiredSnoc(plans: seq<Plan>, n: nat, fp: Fingerprint)
    requires n < |plans|
    ensures Desired(plans, 0, fp) == [] && Desired(plans, n + 1, fp) == Desired(plans, n, fp) + EntriesAt(plans, n, fp)
  {
  }

  lemma LastOfTwo(e: Entry, f: Entry)
    requires e.key == f.key
    ensures Scheduling.Last([e, f]) == map[e.key := f]
  {
    assert [e, f][..1] == [e] && [e][..0] == [];
    assert Scheduling.Last<Work>([]) == map[];
    assert Scheduling.Last([e]) == map[e.key := e];
  }
}
