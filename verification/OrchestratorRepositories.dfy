/**
 The repository lock protects repositories exactly as far as its keys tell them
 apart: a mover clears every restic lock it finds, which is safe only if no other
 mover works on the same repository.
 */
module OrchestratorRepositories {
  import opened Orchestrator
  import opened OrchestratorTheorems
  import opened OrchestratorWitness
  import Keys
  import Repositories

  /** The configured targets: their names, and where they keep repositories. */
  datatype Config = Config(names: seq<string>, places: seq<Repositories.Place>)

  /** Target names are distinct, as validation demands, and hold no bar; settings mention the
      app at most once. */
  ghost predicate WellFormed(cfg: Config) {
    && |cfg.names| == |cfg.places|
    && (forall i | 0 <= i < |cfg.places| :: Repositories.Usable(cfg.places[i]))
    && (forall i | 0 <= i < |cfg.names| :: '|' !in cfg.names[i])
    && forall i, j | 0 <= i < j < |cfg.names| :: cfg.names[i] != cfg.names[j]
  }

  /** The key the orchestrator locks: target, bar, app. */
  function LockKey(cfg: Config, i: nat, app: string): Key
    requires i < |cfg.names|
  {
    cfg.names[i] + "|" + app
  }

  /** The run works for an app on the i-th target. */
  ghost predicate WorksOn(run: Run, cfg: Config, i: int, app: string) {
    0 <= i < |cfg.names| && Keys.ValidApp(app) && run.job.key == LockKey(cfg, i, app)
  }

  /** A mover under the control of a run of this process. */
  predicate Controlled(run: Run) {
    run.mover.up && !run.mover.kept && !run.mover.orphaned
  }

  ghost predicate ApartIn(s: State, cfg: Config)
    requires |cfg.names| == |cfg.places|
  {
    forall q: nat, r: nat, i, j, a, b |
      q < |s.runs| && r < |s.runs| && q != r && Controlled(s.runs[q]) && Controlled(s.runs[r]) &&
      WorksOn(s.runs[q], cfg, i, a) && WorksOn(s.runs[r], cfg, j, b) ::
      Repositories.RepositoryOf(cfg.places[i], a) != Repositories.RepositoryOf(cfg.places[j], b)
  }

  /** In every state of every execution controlled movers work on different repositories. */
  ghost predicate AlwaysApart(cfg: Config)
    requires |cfg.names| == |cfg.places|
  {
    forall s | Reachable(s) :: ApartIn(s, cfg)
  }

  lemma KeyTells(cfg: Config, i: nat, a: string, j: nat, b: string)
    requires WellFormed(cfg) && i < |cfg.names| && j < |cfg.names| && LockKey(cfg, i, a) == LockKey(cfg, j, b)
    ensures i == j && a == b
  {
    var n, m, key := cfg.names[i], cfg.names[j], LockKey(cfg, i, a);
    SameBar(n, a, m, b);
    assert a == key[|n| + 1..] && b == key[|m| + 1..];
  }

  lemma SameBar(n: string, a: string, m: string, b: string)
    requires '|' !in n && '|' !in m && n + "|" + a == m + "|" + b
    ensures n == m
  {
    var key := n + "|" + a;
    assert key[|n|] == '|' && key[|m|] == '|';
    assert forall i | 0 <= i < |n| :: key[i] == n[i] && n[i] in n;
    assert forall i | 0 <= i < |m| :: key[i] == m[i] && m[i] in m;
    assert n == key[..|n|] && m == key[..|m|];
  }

  /** Whoever shares a repository shares its lock key. */
  ghost predicate KeysCover(cfg: Config)
    requires |cfg.names| == |cfg.places|
  {
    forall i, j, a, b | 0 <= i < |cfg.names| && 0 <= j < |cfg.names| && Keys.ValidApp(a) && Keys.ValidApp(b) &&
                        Repositories.RepositoryOf(cfg.places[i], a) == Repositories.RepositoryOf(cfg.places[j], b) ::
      LockKey(cfg, i, a) == LockKey(cfg, j, b)
  }

  lemma ApartIfCovered(cfg: Config, s: State)
    requires |cfg.names| == |cfg.places| && KeysCover(cfg) && Reachable(s)
    ensures ApartIn(s, cfg)
  {
    hide Reachable, Repositories.RepositoryOf, Keys.ValidApp, LockKey;
    forall q: nat, r: nat, i, j, a, b |
      q < |s.runs| && r < |s.runs| && q != r && Controlled(s.runs[q]) && Controlled(s.runs[r]) &&
      WorksOn(s.runs[q], cfg, i, a) && WorksOn(s.runs[r], cfg, j, b)
      ensures Repositories.RepositoryOf(cfg.places[i], a) != Repositories.RepositoryOf(cfg.places[j], b)
    {
      MoversAreExclusive(s, q, r);
    }
  }

  /** Two runs on one repository under different keys: their movers run at once. */
  lemma PairMeets(cfg: Config, i: nat, a: string, j: nat, b: string)
    requires |cfg.names| == |cfg.places| && i < |cfg.names| && j < |cfg.names|
    requires Keys.ValidApp(a) && Keys.ValidApp(b) && LockKey(cfg, i, a) != LockKey(cfg, j, b)
    requires Repositories.RepositoryOf(cfg.places[i], a) == Repositories.RepositoryOf(cfg.places[j], b)
    ensures !AlwaysApart(cfg)
  {
    hide Reachable, Repositories.RepositoryOf, Keys.ValidApp, LockKey, Feasible, After;
    var jobs, steps := TwoMovers(LockKey(cfg, i, a), LockKey(cfg, j, b));
    var s := After(Init(0, jobs, {}, {}), steps);
    IsReachable(jobs, steps);
    assert WorksOn(s.runs[0], cfg, i, a) && WorksOn(s.runs[1], cfg, j, b);
    assert Controlled(s.runs[0]) && Controlled(s.runs[1]);
    assert !ApartIn(s, cfg);
  }

  /** For all targets, whatever they are called and however their settings mention the app:
      controlled movers always work on different repositories exactly when whoever shares a
      repository shares its lock key. */
  lemma KeysCoverExactly(cfg: Config)
    requires |cfg.names| == |cfg.places|
    ensures AlwaysApart(cfg) <==> KeysCover(cfg)
  {
    hide Reachable, ApartIn, Repositories.RepositoryOf, Keys.ValidApp, LockKey;
    if KeysCover(cfg) {
      forall s | Reachable(s) ensures ApartIn(s, cfg) {
        ApartIfCovered(cfg, s);
      }
    } else {
      var i, j, a, b :| 0 <= i < |cfg.names| && 0 <= j < |cfg.names| && Keys.ValidApp(a) && Keys.ValidApp(b) &&
        Repositories.RepositoryOf(cfg.places[i], a) == Repositories.RepositoryOf(cfg.places[j], b) &&
        LockKey(cfg, i, a) != LockKey(cfg, j, b);
      PairMeets(cfg, i, a, j, b);
    }
  }

  lemma IsReachable(jobs: seq<Job>, steps: seq<Step>)
    requires Feasible(Init(0, jobs, {}, {}), steps)
    ensures Reachable(After(Init(0, jobs, {}, {}), steps))
  {
    hide Feasible, After;
  }

  lemma OwnersMeanKeys(cfg: Config)
    requires WellFormed(cfg)
    ensures KeysCover(cfg) <==> Repositories.OneOwnerEach(cfg.places)
  {
    hide Repositories.RepositoryOf, Keys.ValidApp, LockKey;
    if KeysCover(cfg) {
      forall i, j, a, b | 0 <= i < |cfg.places| && 0 <= j < |cfg.places| && Keys.ValidApp(a) && Keys.ValidApp(b) &&
                          Repositories.RepositoryOf(cfg.places[i], a) == Repositories.RepositoryOf(cfg.places[j], b)
        ensures i == j && a == b
      {
        assert LockKey(cfg, i, a) == LockKey(cfg, j, b);
        KeyTells(cfg, i, a, j, b);
      }
    }
  }

  /** For target names without bars and settings with at most one "{app}" that can be read off
      the settings: they must keep all repositories apart. */
  lemma MoversApartExactly(cfg: Config)
    requires WellFormed(cfg)
    ensures AlwaysApart(cfg) <==> Repositories.Disjoint(cfg.places)
  {
    hide AlwaysApart, KeysCover, Repositories.Disjoint, Repositories.OneOwnerEach;
    KeysCoverExactly(cfg);
    OwnersMeanKeys(cfg);
    Repositories.OneOwnerExactly(cfg.places);
  }

  /** A target whose location does not mention the app: two apps, one repository. */
  lemma FixedTargetIsShared(name: string, url: string)
    ensures !AlwaysApart(Config([name], [Repositories.Fixed(url)]))
  {
    var cfg := Config([name], [Repositories.Fixed(url)]);
    Repositories.TwoApps();
    var k, l := LockKey(cfg, 0, "x"), LockKey(cfg, 0, "y");
    assert k[|name| + 1..] == "x" && l[|name| + 1..] == "y";
    PairMeets(cfg, 0, "x", 0, "y");
  }
}
