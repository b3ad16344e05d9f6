/**
 Named backups must own their repository: every job of an app that more than one
 job claims, at least one of them named, is dropped.
 */
module Collisions {
  import opened Specs

  /** discovery.Job; `backup` is the name of a named backup, or empty. */
  datatype Job = Job(app: string, container: string, backup: string, overrides: seq<TargetSpec>, sources: seq<string>)

  /** The containers that claim an app, in order. */
  function Claims(jobs: seq<Job>, app: string): seq<string> {
    if jobs == [] then []
    else
      var n := |jobs| - 1;
      Claims(jobs[..n], app) + (if jobs[n].app == app then [jobs[n].container] else [])
  }

  predicate Named(jobs: seq<Job>, app: string) {
    exists i :: 0 <= i < |jobs| && jobs[i].app == app && jobs[i].backup != ""
  }

  predicate Collides(jobs: seq<Job>, app: string) {
    Named(jobs, app) && |Claims(jobs, app)| > 1
  }

  /** The jobs whose app does not collide among `all`, in order. */
  function Kept(jobs: seq<Job>, all: seq<Job>): seq<Job> {
    if jobs == [] then []
    else
      var n := |jobs| - 1;
      Kept(jobs[..n], all) + (if Collides(all, jobs[n].app) then [] else [jobs[n]])
  }

  lemma NamedSnoc(jobs: seq<Job>, j: Job, app: string)
    ensures Named(jobs + [j], app) <==> Named(jobs, app) || (j.app == app && j.backup != "")
  {
    var all := jobs + [j];
    assert all[|jobs|] == j && forall i | 0 <= i < |jobs| :: all[i] == jobs[i];
  }

  lemma ClaimsSnoc(jobs: seq<Job>, j: Job, app: string)
    ensures Claims(jobs + [j], app) == Claims(jobs, app) + (if j.app == app then [j.container] else [])
  {
    assert (jobs + [j])[..|jobs|] == jobs;
  }

  /** The first loop: who claims what, and which apps are named. */
  method Tally(jobs: seq<Job>) returns (containers: map<string, seq<string>>, named: set<string>)
    ensures forall app :: app in named <==> Named(jobs, app)
    ensures forall app :: Claims(jobs, app) == if app in containers then containers[app] else []
  {
    hide Claims, Named;
    containers, named := map[], {};
    NoJobs();
    for k := 0 to |jobs|
      invariant forall app :: app in named <==> Named(jobs[..k], app)
      invariant forall app :: Claims(jobs[..k], app) == if app in containers then containers[app] else []
    {
      var j := jobs[k];
      assert jobs[..k + 1] == jobs[..k] + [j];
      forall app ensures Named(jobs[..k + 1], app) <==> Named(jobs[..k], app) || (j.app == app && j.backup != "")
        ensures Claims(jobs[..k + 1], app) == Claims(jobs[..k], app) + (if j.app == app then [j.container] else [])
      {
        NamedSnoc(jobs[..k], j, app);
        ClaimsSnoc(jobs[..k], j, app);
      }
      containers := containers[j.app := (if j.app in containers then containers[j.app] else []) + [j.container]];
      if j.backup != "" {
        named := named + {j.app};
      }
    }
    assert jobs[..|jobs|] == jobs;
  }

  lemma NoJobs()
    ensures forall app :: !Named([], app) && Claims([], app) == []
  {
  }

  /** DropNamedCollisions. */
  method DropNamedCollisions(jobs: seq<Job>) returns (kept: seq<Job>, collisions: map<string, seq<string>>)
    ensures kept == Kept(jobs, jobs)
    ensures forall app :: app in collisions <==> Collides(jobs, app)
    ensures forall app | app in collisions :: collisions[app] == Claims(jobs, app)
  {
    hide Claims, Named;
    var containers, named := Tally(jobs);
    kept, collisions := [], map[];
    for k := 0 to |jobs|
      invariant kept == Kept(jobs[..k], jobs)
      invariant forall app :: app in collisions <==> Collides(jobs, app) && exists i :: 0 <= i < k && jobs[i].app == app
      invariant forall app | app in collisions :: collisions[app] == Claims(jobs, app)
    {
      var j := jobs[k];
      assert jobs[..k + 1][..k] == jobs[..k];
      if j.app in named && j.app in containers && |containers[j.app]| > 1 {
        collisions := collisions[j.app := containers[j.app]];
        continue;
      }
      kept := kept + [j];
    }
    assert jobs[..|jobs|] == jobs;
    forall app | Collides(jobs, app) ensures exists i :: 0 <= i < |jobs| && jobs[i].app == app {
      NamedHasJob(jobs, app);
    }
  }

  lemma NamedHasJob(jobs: seq<Job>, app: string)
    requires Named(jobs, app)
    ensures exists i :: 0 <= i < |jobs| && jobs[i].app == app
  {
  }

  // ------------------------------------------------------------ properties

  lemma {:induction false} KeptClaims(jobs: seq<Job>, all: seq<Job>, app: string)
    ensures Claims(Kept(jobs, all), app) == if Collides(all, app) then [] else Claims(jobs, app)
    ensures Named(Kept(jobs, all), app) <==> Named(jobs, app) && !Collides(all, app)
    decreases |jobs|
  {
    hide Collides, Claims, Named;
    if jobs == [] {
      NoJobs();
    } else {
      var n := |jobs| - 1;
      var init, j := jobs[..n], jobs[n];
      assert jobs == init + [j];
      KeptClaims(init, all, app);
      ClaimsSnoc(init, j, app);
      NamedSnoc(init, j, app);
      ClaimsSnoc(Kept(init, all), j, app);
      NamedSnoc(Kept(init, all), j, app);
      assert Kept(init, all) + [] == Kept(init, all);
    }
  }

  lemma {:induction false} KeptMembers(jobs: seq<Job>, all: seq<Job>, j: Job)
    ensures j in Kept(jobs, all) <==> j in jobs && !Collides(all, j.app)
    decreases |jobs|
  {
    hide Collides;
    if jobs != [] {
      var n := |jobs| - 1;
      KeptMembers(jobs[..n], all, j);
      assert jobs == jobs[..n] + [jobs[n]];
    }
  }

  /** Two different jobs of one app, a named one among them. */
  ghost predicate Clash(jobs: seq<Job>, i: int, k: int) {
    && 0 <= i < |jobs| && 0 <= k < |jobs| && i != k
    && jobs[i].app == jobs[k].app && jobs[i].backup != ""
  }

  /** An app collides exactly if a named job of it stands beside another job of it. */
  lemma CollidesExactly(jobs: seq<Job>, app: string)
    ensures Collides(jobs, app) <==> exists i, k :: Clash(jobs, i, k) && jobs[i].app == app
  {
    hide Claims;
    if Collides(jobs, app) {
      var i :| 0 <= i < |jobs| && jobs[i].app == app && jobs[i].backup != "";
      var a, b := ClaimsHaveJobs(jobs, app);
      assert Clash(jobs, i, if a == i then b else a);
    }
    if i, k :| Clash(jobs, i, k) && jobs[i].app == app {
      if i < k {
        TwoClaims(jobs, i, k);
      } else {
        TwoClaims(jobs, k, i);
      }
    }
  }

  lemma {:induction false} ClaimHasJob(jobs: seq<Job>, app: string) returns (a: nat)
    requires |Claims(jobs, app)| > 0
    ensures a < |jobs| && jobs[a].app == app
    decreases |jobs|
  {
    var n := |jobs| - 1;
    if jobs[n].app == app {
      a := n;
    } else {
      a := ClaimHasJob(jobs[..n], app);
    }
  }

  lemma {:induction false} ClaimsHaveJobs(jobs: seq<Job>, app: string) returns (a: nat, b: nat)
    requires |Claims(jobs, app)| > 1
    ensures a < b < |jobs| && jobs[a].app == jobs[b].app == app
    decreases |jobs|
  {
    var n := |jobs| - 1;
    if jobs[n].app == app {
      a := ClaimHasJob(jobs[..n], app);
      b := n;
    } else {
      a, b := ClaimsHaveJobs(jobs[..n], app);
    }
  }

  /** Kept are, in their order, exactly the jobs that no named job of their app and other
      job of it stand beside; reported for an app are the containers of all its jobs. */
  lemma KeptExactly(jobs: seq<Job>, all: seq<Job>, j: Job, container: string)
    ensures j in Kept(jobs, all) <==> j in jobs && !exists i, k :: Clash(all, i, k) && all[i].app == j.app
    ensures container in Claims(all, j.app) <==>
            exists i :: 0 <= i < |all| && all[i].app == j.app && all[i].container == container
  {
    hide Claims, Kept, Collides, Clash;
    KeptMembers(jobs, all, j);
    CollidesExactly(all, j.app);
    ClaimsMembers(all, j.app, container);
  }

  lemma {:induction false} ClaimsMembers(jobs: seq<Job>, app: string, container: string)
    ensures container in Claims(jobs, app) <==>
            exists i :: 0 <= i < |jobs| && jobs[i].app == app && jobs[i].container == container
    decreases |jobs|
  {
    if jobs != [] {
      var n := |jobs| - 1;
      ClaimsMembers(jobs[..n], app, container);
      assert forall i | 0 <= i < n :: jobs[..n][i] == jobs[i];
    }
  }

  /** The order of the jobs is kept. */
  lemma {:induction false} KeptInOrder(a: seq<Job>, b: seq<Job>, all: seq<Job>)
    ensures Kept(a + b, all) == Kept(a, all) + Kept(b, all)
    decreases |b|
  {
    hide Collides;
    if b == [] {
      assert a + b == a;
    } else {
      var n := |b| - 1;
      KeptInOrder(a, b[..n], all);
      assert (a + b)[..|a| + n] == a + b[..n] && (a + b)[|a| + n] == b[n];
    }
  }

  lemma {:induction false} ClaimsInOrder(a: seq<Job>, b: seq<Job>, app: string)
    ensures Claims(a + b, app) == Claims(a, app) + Claims(b, app)
    decreases |b|
  {
    if b == [] {
      assert a + b == a;
    } else {
      var n := |b| - 1;
      ClaimsInOrder(a, b[..n], app);
      assert (a + b)[..|a| + n] == a + b[..n] && (a + b)[|a| + n] == b[n];
    }
  }

  lemma {:induction false} NothingDropped(jobs: seq<Job>, all: seq<Job>)
    requires forall app :: !Collides(all, app)
    ensures Kept(jobs, all) == jobs
    decreases |jobs|
  {
    hide Collides;
    if jobs != [] {
      NothingDropped(jobs[..|jobs| - 1], all);
    }
  }

  /** Dropping once is enough: what is left has no collision, so nothing more is dropped. */
  lemma DropIsIdempotent(jobs: seq<Job>)
    ensures forall app :: !Collides(Kept(jobs, jobs), app)
    ensures Kept(Kept(jobs, jobs), Kept(jobs, jobs)) == Kept(jobs, jobs)
  {
    hide Claims, Named, Kept;
    var kept := Kept(jobs, jobs);
    forall app ensures !Collides(kept, app) {
      KeptClaims(jobs, jobs, app);
    }
    NothingDropped(kept, kept);
  }

  lemma {:induction false} TwoClaims(jobs: seq<Job>, i: nat, j: nat)
    requires i < j < |jobs| && jobs[i].app == jobs[j].app
    ensures |Claims(jobs, jobs[j].app)| > 1
    decreases |jobs|
  {
    var n := |jobs| - 1;
    if j < n {
      TwoClaims(jobs[..n], i, j);
    } else {
      OneClaim(jobs[..n], i);
    }
  }

  lemma {:induction false} OneClaim(jobs: seq<Job>, i: nat)
    requires i < |jobs|
    ensures |Claims(jobs, jobs[i].app)| > 0
    decreases |jobs|
  {
    if i < |jobs| - 1 {
      OneClaim(jobs[..|jobs| - 1], i);
    }
  }

  /** A named backup that is kept is the only job of its app. */
  lemma NamedIsAlone(jobs: seq<Job>, i: nat, j: nat)
    requires i < |Kept(jobs, jobs)| && j < |Kept(jobs, jobs)|
    requires Kept(jobs, jobs)[i].app == Kept(jobs, jobs)[j].app && Kept(jobs, jobs)[i].backup != ""
    ensures i == j
  {
    hide Kept;
    var kept := Kept(jobs, jobs);
    DropIsIdempotent(jobs);
    assert Named(kept, kept[i].app) && !Collides(kept, kept[i].app);
    if i < j {
      TwoClaims(kept, i, j);
    } else if j < i {
      TwoClaims(kept, j, i);
    }
  }
}
