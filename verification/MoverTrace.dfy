/**
 The mover's restic commands. A run is the list of commands it issued, each with
 its outcome; the outcome is an arbitrary function of the command and of what
 was run before it.
 */
module MoverTrace {
  import opened Lists
  import opened Decimal
  import opened Specs

  datatype Command =
    | CatConfig
    | Init
    | Unlock
    | Backup(host: string, tags: seq<string>, excludes: seq<string>, sources: seq<string>)
    | Forget(fhost: string, tag: string, keeps: seq<string>)
    | Snapshots
    | Check
    | Prune
    | Restore(snapshot: string, into: string, only: seq<string>)

  /** One run of restic: the global flags, the command behind them, and how it went. */
  datatype Call = Call(flags: seq<string>, command: Command, ok: bool)

  type Answers = (seq<Call>, seq<string>, Command) -> bool

  /** mover.Spec; `extra` are the global flags. */
  datatype Spec = Spec(
    app: string, host: string, sources: seq<string>, excludes: seq<string>, tags: seq<string>,
    retention: Retention, action: string, snapshotID: string, restoreTarget: string, only: seq<string>,
    extra: seq<string>)

  function HostOf(spec: Spec): string {
    if spec.host == "" then spec.app else spec.host
  }

  /** One restic invocation. */
  function Run(answers: Answers, spec: Spec, trace: seq<Call>, c: Command): seq<Call> {
    trace + [Call(spec.extra, c, answers(trace, spec.extra, c))]
  }

  predicate LastOk(trace: seq<Call>) {
    trace != [] && trace[|trace| - 1].ok
  }

  /** Every outcome is the one restic gave. */
  ghost predicate Answered(answers: Answers, trace: seq<Call>) {
    forall i | 0 <= i < |trace| :: trace[i].ok == answers(trace[..i], trace[i].flags, trace[i].command)
  }

  predicate IsCall(call: Call, c: Command, ok: bool) {
    call.command == c && call.ok == ok
  }

  ghost predicate Flagged(trace: seq<Call>, spec: Spec) {
    forall i | 0 <= i < |trace| :: trace[i].flags == spec.extra
  }

  predicate IsForget(call: Call) {
    call.command.Forget?
  }

  predicate IsBackup(call: Call) {
    call.command.Backup?
  }

  function BackupOf(spec: Spec): Command {
    Backup(HostOf(spec), [spec.app] + spec.tags, spec.excludes, spec.sources)
  }

  /** A forget that cannot delete more than the policy says: it names this host and this
      app's tag, and its flags are the policy's rules, at least one. */
  ghost predicate Scoped(c: Command, spec: Spec) {
    && c.Forget? && c.fhost == HostOf(spec) && c.tag == spec.app
    && c.keeps == Render(Keeps(spec.retention)) && Keeps(spec.retention) != []
    && forall k | k in Keeps(spec.retention) :: k.Count? ==> k.n > 0
  }

  /** A forget is the last command, right behind a backup that worked, of the same host
      and with the same tag. */
  ghost predicate ForgetOk(trace: seq<Call>, spec: Spec, i: nat)
    requires i < |trace|
  {
    && i == |trace| - 1 && i > 0
    && Scoped(trace[i].command, spec)
    && IsBackup(trace[i - 1]) && trace[i - 1].ok
    && trace[i - 1].command.host == HostOf(spec) && trace[i - 1].command.tags == [spec.app] + spec.tags
  }

  /** A stale lock is cleared before every command that locks the repository itself. */
  predicate NeedsUnlock(c: Command) {
    c.Backup? || c.Snapshots? || c.Check? || c.Prune? || c.Restore?
  }

  /** What holds of every run of the mover. */
  ghost predicate SafeRun(trace: seq<Call>, spec: Spec) {
    && Flagged(trace, spec)
    && (forall i | 0 <= i < |trace| && IsForget(trace[i]) :: ForgetOk(trace, spec, i))
    && (forall i | 0 <= i < |trace| && NeedsUnlock(trace[i].command) :: i > 0 && trace[i - 1].command == Unlock)
    && (forall i | 0 <= i < |trace| && trace[i].command == Init :: i == 1 && IsCall(trace[0], CatConfig, false))
    && (forall i | 0 <= i < |trace| && IsBackup(trace[i]) ::
          i >= 2 && trace[0].command == CatConfig && trace[0].ok == (trace[1].command != Init) &&
          (trace[1].command == Init ==> trace[1].ok) && spec.sources != [] && IsBackupOf(trace[i].command, spec))
  }

  /** The backup names the spec's host, or the app as one, and tags the snapshot with the app
      and the spec's tags; it leaves out the excludes and reads the sources. */
  predicate IsBackupOf(c: Command, spec: Spec) {
    && c.Backup? && c.host == (if spec.host != "" then spec.host else spec.app)
    && c.tags == [spec.app] + spec.tags && c.excludes == spec.excludes && c.sources == spec.sources
  }

  /** A backup run probes the repository, makes it if there is none, clears a stale lock,
      backs up, and does nothing else but forget; without sources it does nothing. */
  ghost predicate Course(trace: seq<Call>, spec: Spec) {
    if spec.sources == [] then trace == []
    else
      && |trace| >= 2 && trace[0].command == CatConfig
      && if trace[0].ok then BackupAt(trace, 2)
         else trace[1].command == Init && if trace[1].ok then BackupAt(trace, 3) else |trace| == 2
  }

  /** The backup is the n-th command, behind an unlock, and the last one but for a forget. */
  ghost predicate BackupAt(trace: seq<Call>, n: nat)
    requires n > 0
  {
    && n < |trace| <= n + 2 && trace[n - 1].command == Unlock && IsBackup(trace[n])
    && (|trace| == n + 2 ==> IsForget(trace[n + 1]))
  }

  ghost predicate HasForget(trace: seq<Call>) {
    exists i :: 0 <= i < |trace| && IsForget(trace[i])
  }

  ghost predicate BackedUp(trace: seq<Call>) {
    exists i :: 0 <= i < |trace| && IsBackup(trace[i]) && trace[i].ok
  }

  predicate IsBackupAction(spec: Spec) {
    spec.action == "" || spec.action == "backup"
  }

  lemma OneMoreAnswer(answers: Answers, spec: Spec, trace: seq<Call>, c: Command)
    requires Answered(answers, trace)
    ensures Answered(answers, Run(answers, spec, trace, c))
  {
    var all := Run(answers, spec, trace, c);
    forall i | 0 <= i < |all| ensures all[i].ok == answers(all[..i], all[i].flags, all[i].command) {
      if i < |trace| {
        assert all[..i] == trace[..i];
      } else {
        assert all[..i] == trace;
      }
    }
  }

  /** The repository exists, or was made just now, and a stale lock is gone. */
  predicate Ready(trace: seq<Call>) {
    || (|trace| == 2 && IsCall(trace[0], CatConfig, true) && trace[1].command == Unlock)
    || (|trace| == 3 && IsCall(trace[0], CatConfig, false) && IsCall(trace[1], Init, true) &&
        trace[2].command == Unlock)
  }

  /** The probe, the initialisation if needed, and the unlock. */
  method Prepare(spec: Spec, answers: Answers) returns (ready: bool, trace: seq<Call>)
    ensures Answered(answers, trace)
    ensures ready ==> Ready(trace) && Flagged(trace, spec)
    ensures !ready ==> SafeRun(trace, spec) && !HasForget(trace) && !BackedUp(trace) && !LastOk(trace)
    ensures !ready ==> |trace| == 2 && IsCall(trace[0], CatConfig, false) && IsCall(trace[1], Init, false)
  {
    hide Answered;
    NoCommands(answers);
    trace := Run(answers, spec, [], CatConfig);
    OneMoreAnswer(answers, spec, [], CatConfig);
    if !LastOk(trace) {
      OneMoreAnswer(answers, spec, trace, Init);
      trace := Run(answers, spec, trace, Init);
      if !LastOk(trace) {
        return false, trace;
      }
    }
    OneMoreAnswer(answers, spec, trace, Unlock);
    trace := Run(answers, spec, trace, Unlock);
    ready := true;
  }

  lemma BackupIsSafe(pre: seq<Call>, spec: Spec, ok: bool)
    requires Ready(pre) && Flagged(pre, spec) && spec.sources != []
    ensures var trace := pre + [Call(spec.extra, BackupOf(spec), ok)];
            SafeRun(trace, spec) && !HasForget(trace) && (BackedUp(trace) <==> ok) && Course(trace, spec)
  {
    var trace := pre + [Call(spec.extra, BackupOf(spec), ok)];
    assert IsBackup(trace[|pre|]);
  }

  function BackupThenForget(spec: Spec, keeps: seq<string>, ok: bool): seq<Call> {
    [Call(spec.extra, BackupOf(spec), true), Call(spec.extra, Forget(HostOf(spec), spec.app, keeps), ok)]
  }

  lemma ForgetIsSafe(pre: seq<Call>, spec: Spec, keeps: seq<string>, ok: bool)
    requires Ready(pre) && Flagged(pre, spec) && spec.sources != []
    requires keeps == Render(Keeps(spec.retention)) && keeps != []
    ensures var trace := pre + BackupThenForget(spec, keeps, ok);
            SafeRun(trace, spec) && HasForget(trace) && BackedUp(trace) && Course(trace, spec)
  {
    hide Keeps, Render;
    var n := |pre|;
    var trace := pre + BackupThenForget(spec, keeps, ok);
    KeepsExactly(spec.retention);
    RenderEmpty(Keeps(spec.retention));
    assert IsForget(trace[n + 1]) && IsBackup(trace[n]) && Scoped(trace[n + 1].command, spec);
    assert forall i | 0 <= i < n :: trace[i] == pre[i];
  }

  method RunBackup(spec: Spec, answers: Answers) returns (ok: bool, trace: seq<Call>)
    ensures Answered(answers, trace) && SafeRun(trace, spec) && Course(trace, spec)
    ensures HasForget(trace) <==> BackedUp(trace) && Keeps(spec.retention) != []
    ensures ok <==> LastOk(trace)
    ensures ok ==> BackedUp(trace)
  {
    hide Keeps, Render, Answered, SafeRun, HasForget, BackedUp, Ready;
    NoCommands(answers);
    NothingRun(spec);
    if spec.sources == [] {
      return false, [];
    }
    var ready, pre := Prepare(spec, answers);
    if !ready {
      return false, pre;
    }
    var backup := BackupOf(spec);
    trace := Run(answers, spec, pre, backup);
    OneMoreAnswer(answers, spec, pre, backup);
    BackupIsSafe(pre, spec, answers(pre, spec.extra, backup));
    if !LastOk(trace) {
      return false, trace;
    }
    var keeps := ForgetArgs(spec.retention);
    RenderEmpty(Keeps(spec.retention));
    if |keeps| > 0 {
      var forget := Forget(HostOf(spec), spec.app, keeps);
      OneMoreAnswer(answers, spec, trace, forget);
      ForgetIsSafe(pre, spec, keeps, answers(trace, spec.extra, forget));
      trace := Run(answers, spec, trace, forget);
      assert trace == pre + BackupThenForget(spec, keeps, trace[|pre| + 1].ok);
      return LastOk(trace), trace;
    }
    return true, trace;
  }

  /** unlockStale and one command. */
  method Unlocked(c: Command, spec: Spec, answers: Answers) returns (ok: bool, trace: seq<Call>)
    requires c.Snapshots? || c.Check? || c.Prune? || c.Restore?
    ensures Answered(answers, trace) && SafeRun(trace, spec)
    ensures |trace| == 2 && trace[0].command == Unlock && trace[1].command == c
    ensures ok <==> LastOk(trace)
    ensures !HasForget(trace) && !BackedUp(trace)
  {
    trace := Run(answers, spec, [], Unlock);
    trace := Run(answers, spec, trace, c);
    ok := LastOk(trace);
  }

  /** Execute, on the decoded spec (None when the variable is empty or malformed). Whatever
      restic answers, forget runs at most once, last, only behind a successful backup, scoped
      and with a keep flag, and exactly if the policy has one; the run succeeds exactly if its
      last command does. */
  method Execute(decoded: Option<Spec>, answers: Answers) returns (ok: bool, trace: seq<Call>)
    ensures Answered(answers, trace)
    ensures decoded.None? ==> !ok && trace == []
    ensures decoded.Some? ==> SafeRun(trace, decoded.value)
    ensures decoded.Some? ==> (HasForget(trace) <==> BackedUp(trace) && Keeps(decoded.value.retention) != [])
    ensures decoded.Some? && BackedUp(trace) ==> IsBackupAction(decoded.value)
    ensures decoded.Some? && IsBackupAction(decoded.value) && ok ==> BackedUp(trace)
    ensures ok <==> LastOk(trace)
    ensures decoded.Some? && decoded.value.action in {"", "backup"} ==> Course(trace, decoded.value)
    ensures decoded.Some? && decoded.value.action == "snapshots" ==> IsUnlocked(trace, Snapshots)
    ensures decoded.Some? && decoded.value.action == "check" ==> IsUnlocked(trace, Check)
    ensures decoded.Some? && decoded.value.action == "prune" ==> IsUnlocked(trace, Prune)
    ensures decoded.Some? && decoded.value.action == "restore" ==> IsRestore(trace, decoded.value)
    ensures decoded.Some? && decoded.value.action !in {"", "backup", "snapshots", "check", "prune", "restore"} ==>
              trace == []
  {
    hide Keeps, Render, Answered, SafeRun, HasForget, BackedUp;
    trace, ok := [], false;
    NoCommands(answers);
    if decoded.None? {
      return;
    }
    var spec := decoded.value;
    NothingRun(spec);
    if spec.action == "" || spec.action == "backup" {
      ok, trace := RunBackup(spec, answers);
    } else if spec.action == "snapshots" {
      ok, trace := Unlocked(Snapshots, spec, answers);
    } else if spec.action == "check" {
      ok, trace := Unlocked(Check, spec, answers);
    } else if spec.action == "prune" {
      ok, trace := Unlocked(Prune, spec, answers);
    } else if spec.action == "restore" && spec.restoreTarget != "" {
      var snap := if spec.snapshotID == "" then "latest" else spec.snapshotID;
      ok, trace := Unlocked(Restore(snap, spec.restoreTarget, spec.only), spec, answers);
    }
  }

  /** The run is an unlock and the one command. */
  predicate IsUnlocked(trace: seq<Call>, c: Command) {
    |trace| == 2 && trace[0].command == Unlock && trace[1].command == c
  }

  /** A restore needs a place to write to, and takes the newest snapshot unless told which. */
  predicate IsRestore(trace: seq<Call>, spec: Spec) {
    if spec.restoreTarget == "" then trace == []
    else IsUnlocked(trace, Restore(if spec.snapshotID != "" then spec.snapshotID else "latest", spec.restoreTarget,
                                   spec.only))
  }

  lemma NoCommands(answers: Answers)
    ensures Answered(answers, [])
  {
  }

  lemma NothingRun(spec: Spec)
    ensures SafeRun([], spec) && !HasForget([]) && !BackedUp([])
  {
  }

  // -------------------------------------------------- from label to command

  /** moverSpec: the job's sources and tags with the policy that applies to the target. */
  function MoverSpec(app: string, sources: seq<string>, tags: seq<string>, excludes: seq<string>,
                     overrides: seq<TargetSpec>, target: string, default: Retention, resticArgs: seq<string>): Spec
  {
    Spec(app, app, sources, Specs.Excludes(overrides, target, excludes), tags, Policy(overrides, target, default),
         "", "", "", [], resticArgs)
  }

  /** At most one forget in a run, and nothing behind it. */
  lemma ForgetIsLast(trace: seq<Call>, spec: Spec, i: nat, j: nat)
    requires SafeRun(trace, spec) && i < |trace| && IsForget(trace[i]) && j < |trace|
    ensures j <= i && (IsForget(trace[j]) ==> j == i)
  {
    assert ForgetOk(trace, spec, i);
    assert IsForget(trace[j]) ==> ForgetOk(trace, spec, j);
  }

  /** For every label, override and default policy: what restic reads from the flags of a
      forget are rules of the policy that applies, each a positive count or a span, at
      least one; and the forget touches only snapshots of this app. */
  lemma ForgetFollowsPolicy(app: string, sources: seq<string>, tags: seq<string>, excludes: seq<string>,
                            overrides: seq<TargetSpec>, target: string, default: Retention,
                            resticArgs: seq<string>, trace: seq<Call>, i: nat)
    requires var spec := MoverSpec(app, sources, tags, excludes, overrides, target, default, resticArgs);
             SafeRun(trace, spec) && i < |trace| && IsForget(trace[i])
    requires forall u :: Field(Policy(overrides, target, default), u) < TWO_64
    ensures var f := trace[i].command;
            && f.fhost == app && f.tag == app
            && Read(f.keeps) == Some(Keeps(Policy(overrides, target, default)))
            && Read(f.keeps).value != []
            && forall k | k in Read(f.keeps).value :: Stands(Policy(overrides, target, default), k)
  {
    hide Keeps, Render, Read, Field, Policy;
    var r := Policy(overrides, target, default);
    assert ForgetOk(trace, MoverSpec(app, sources, tags, excludes, overrides, target, default, resticArgs), i);
    KeepsExactly(r);
    ReadRender(Keeps(r));
  }

  /** Likewise the backup: this app's sources and tags under this app's name, without what
      the job or the first override of the target excludes, and with the global flags. */
  lemma BackupFollowsJob(app: string, sources: seq<string>, tags: seq<string>, excludes: seq<string>,
                         overrides: seq<TargetSpec>, target: string, default: Retention,
                         resticArgs: seq<string>, trace: seq<Call>, i: nat)
    requires var spec := MoverSpec(app, sources, tags, excludes, overrides, target, default, resticArgs);
             SafeRun(trace, spec) && i < |trace| && IsBackup(trace[i])
    ensures trace[i].flags == resticArgs
    ensures var c := trace[i].command; c.host == app && c.tags == [app] + tags && c.sources == sources
    ensures forall k | FirstNamed(overrides, target, k) ::
              trace[i].command.excludes == excludes + overrides[k].exclude
    ensures (forall k | 0 <= k < |overrides| :: overrides[k].name != target) ==>
              trace[i].command.excludes == excludes
  {
    hide Policy, Specs.Excludes;
    if forall k | 0 <= k < |overrides| :: overrides[k].name != target {
      NoOverride(overrides, target, default, excludes);
    }
    forall k | FirstNamed(overrides, target, k)
      ensures trace[i].command.excludes == excludes + overrides[k].exclude
    {
      OverrideSpelled(overrides, target, default, excludes, k);
    }
  }
}
