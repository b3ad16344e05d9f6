/**
 The mover's source mounts in the three snapshot modes: none, a single provider,
 and auto, where each source is snapshotted by the first provider that can and
 everything else is mounted live.

 A provider is given by its answers: whether it is usable on this host, which
 sources it can snapshot, whether the snapshot command succeeds, which snapshots
 it takes, which it had taken when it failed, and where each of them is read.
 Snapshots in `stuck` cannot be destroyed, neither by a rollback nor by a cleanup.
 */
module SourceMounts {

  datatype Kind = Bind | Volume

  /** discovery.Source, and the host path a snapshot provider works with. */
  datatype Source = Source(name: string, kind: Kind, ref: string)
  datatype HostSource = HostSource(name: string, path: string)

  datatype Mount = Mount(kind: Kind, source: string, target: string, readOnly: bool)

  /** What the host says about a volume; `foreign` gives the reason it is not local. */
  datatype VolumeInfo = VolumeInfo(path: string, foreign: string)

  datatype Provider = Provider(
    mode: string,
    available: bool,
    able: HostSource -> bool,
    detail: HostSource -> string,
    answers: bool,
    takes: seq<HostSource> -> set<string>,
    partial: seq<HostSource> -> set<string>,
    readAt: HostSource -> string)

  datatype Failure = VolumeUnknown | NotLocal | UnknownMode | NoProviders | ProviderUnusable | SnapshotFailed

  datatype Result<T> = Ok(value: T) | Err(error: Failure)

  const DATA_MOUNT := "/data"

  function Target(name: string): string {
    DATA_MOUNT + "/" + name
  }

  /** The paths moverSpec gives restic. */
  function SpecSources(sources: seq<Source>): seq<string> {
    seq(|sources|, i requires 0 <= i < |sources| => Target(sources[i].name))
  }

  /** The names a Namer handed out. */
  ghost predicate UniqueNames(sources: seq<Source>) {
    forall i, j | 0 <= i < j < |sources| :: sources[i].name != sources[j].name
  }

  // ------------------------------------------------------------- host paths

  type Volumes = map<string, VolumeInfo>

  predicate Known(s: Source, vols: Volumes) {
    s.kind.Volume? ==> s.ref in vols
  }

  predicate AllKnown(sources: seq<Source>, vols: Volumes) {
    forall i | 0 <= i < |sources| :: Known(sources[i], vols)
  }

  function OnHost(s: Source, vols: Volumes): HostSource
    requires Known(s, vols)
  {
    HostSource(s.name, if s.kind.Volume? then vols[s.ref].path else s.ref)
  }

  predicate IsForeign(s: Source, vols: Volumes)
    requires Known(s, vols)
  {
    s.kind.Volume? && vols[s.ref].foreign != ""
  }

  /** resolveHostPaths: every source's host path, and the names of foreign-backed volumes. */
  method ResolveHostPaths(sources: seq<Source>, vols: Volumes)
    returns (r: Result<(seq<HostSource>, map<string, string>)>)
    requires UniqueNames(sources)
    ensures r.Ok? <==> AllKnown(sources, vols)
    ensures r.Err? <==> exists i :: 0 <= i < |sources| && sources[i].kind == Volume && sources[i].ref !in vols
    ensures r.Err? ==> r.error == VolumeUnknown
    ensures r.Ok? ==> |r.value.0| == |sources| && forall i | 0 <= i < |sources| ::
              && r.value.0[i] == OnHost(sources[i], vols)
              && r.value.0[i].name == sources[i].name
              && r.value.0[i].path == (if sources[i].kind == Bind then sources[i].ref else vols[sources[i].ref].path)
              && (sources[i].name in r.value.1 <==> sources[i].kind == Volume && vols[sources[i].ref].foreign != "")
              && (sources[i].name in r.value.1 <==> IsForeign(sources[i], vols))
              && (IsForeign(sources[i], vols) ==> r.value.1[sources[i].name] == vols[sources[i].ref].foreign)
  {
    var srcs: seq<HostSource> := [];
    var foreign: map<string, string> := map[];
    for k := 0 to |sources|
      invariant |srcs| == k && forall i | 0 <= i < k :: Known(sources[i], vols)
      invariant forall i | 0 <= i < k :: srcs[i] == OnHost(sources[i], vols)
      invariant forall i | 0 <= i < k ::
                  (sources[i].name in foreign <==> IsForeign(sources[i], vols)) &&
                  (IsForeign(sources[i], vols) ==> foreign[sources[i].name] == vols[sources[i].ref].foreign)
      invariant forall i | k <= i < |sources| :: sources[i].name !in foreign
    {
      var s := sources[k];
      var hp := s.ref;
      if s.kind.Volume? {
        if s.ref !in vols {
          return Err(VolumeUnknown);
        }
        hp := vols[s.ref].path;
        if vols[s.ref].foreign != "" {
          foreign := foreign[s.name := vols[s.ref].foreign];
        }
      }
      srcs := srcs + [HostSource(s.name, hp)];
    }
    r := Ok((srcs, foreign));
  }

  // ------------------------------------------------- exclusions per target

  /** A volume or a bind path the target's override leaves out. */
  predicate Excluded(s: Source, volumes: seq<string>, paths: seq<string>) {
    (s.kind.Volume? && s.ref in volumes) || (s.kind.Bind? && s.ref in paths)
  }

  function Remaining(sources: seq<Source>, volumes: seq<string>, paths: seq<string>): seq<Source> {
    if sources == [] then []
    else
      var n := |sources| - 1;
      Remaining(sources[..n], volumes, paths) + (if Excluded(sources[n], volumes, paths) then [] else [sources[n]])
  }

  lemma {:induction false} RemainingMembers(sources: seq<Source>, volumes: seq<string>, paths: seq<string>, s: Source)
    ensures s in Remaining(sources, volumes, paths) <==> s in sources && !Excluded(s, volumes, paths)
    decreases |sources|
  {
    hide Excluded;
    if sources != [] {
      var n := |sources| - 1;
      RemainingMembers(sources[..n], volumes, paths, s);
      assert sources == sources[..n] + [sources[n]];
    }
  }

  lemma {:induction false} RemainingUnique(sources: seq<Source>, volumes: seq<string>, paths: seq<string>)
    requires UniqueNames(sources)
    ensures UniqueNames(Remaining(sources, volumes, paths))
    decreases |sources|
  {
    hide Excluded;
    if sources != [] {
      var n := |sources| - 1;
      var before := Remaining(sources[..n], volumes, paths);
      RemainingUnique(sources[..n], volumes, paths);
      forall i | 0 <= i < |before| ensures before[i].name != sources[n].name {
        RemainingMembers(sources[..n], volumes, paths, before[i]);
      }
    }
  }

  /** Exactly the sources that are not excluded remain, and their names stay unique. */
  lemma RemainingExactly(sources: seq<Source>, volumes: seq<string>, paths: seq<string>)
    ensures forall s :: s in Remaining(sources, volumes, paths) <==> s in sources && !Excluded(s, volumes, paths)
    ensures forall s | s in sources :: s !in Remaining(sources, volumes, paths) <==>
              (s.kind == Volume && s.ref in volumes) || (s.kind == Bind && s.ref in paths)
    ensures UniqueNames(sources) ==> UniqueNames(Remaining(sources, volumes, paths))
  {
    hide Remaining, UniqueNames;
    forall s ensures s in Remaining(sources, volumes, paths) <==> s in sources && !Excluded(s, volumes, paths) {
      RemainingMembers(sources, volumes, paths, s);
    }
    if UniqueNames(sources) {
      RemainingUnique(sources, volumes, paths);
    }
  }

  /** sourcesForTarget, with the lists of the target's override (empty without one). */
  method SourcesForTarget(sources: seq<Source>, volumes: seq<string>, paths: seq<string>) returns (out: seq<Source>)
    ensures out == Remaining(sources, volumes, paths)
    ensures UniqueNames(sources) ==> UniqueNames(out)
  {
    hide UniqueNames;
    RemainingExactly(sources, volumes, paths);
    if volumes == [] && paths == [] {
      NothingExcluded(sources);
      return sources;
    }
    out := [];
    for k := 0 to |sources|
      invariant out == Remaining(sources[..k], volumes, paths)
    {
      assert sources[..k + 1][..k] == sources[..k];
      var s := sources[k];
      if s.kind.Volume? && s.ref in volumes {
        continue;
      }
      if s.kind.Bind? && s.ref in paths {
        continue;
      }
      out := out + [s];
    }
    assert sources[..|sources|] == sources;
  }

  lemma {:induction false} NothingExcluded(sources: seq<Source>)
    ensures Remaining(sources, [], []) == sources
    decreases |sources|
  {
    if sources != [] {
      NothingExcluded(sources[..|sources| - 1]);
    }
  }

  // ------------------------------------------------------ who takes a source

  /** The first provider that is usable and able, or the number of providers. */
  function FirstAble(ps: seq<Provider>, h: HostSource): nat {
    if ps == [] then 0
    else if ps[0].available && ps[0].able(h) then 0
    else 1 + FirstAble(ps[1..], h)
  }

  lemma {:induction false} FirstAbleIsFirst(ps: seq<Provider>, h: HostSource)
    ensures FirstAble(ps, h) <= |ps|
    ensures FirstAble(ps, h) < |ps| ==> ps[FirstAble(ps, h)].available && ps[FirstAble(ps, h)].able(h)
    ensures forall i | 0 <= i < FirstAble(ps, h) :: !(ps[i].available && ps[i].able(h))
  {
    if ps != [] && !(ps[0].available && ps[0].able(h)) {
      FirstAbleIsFirst(ps[1..], h);
      forall i | 0 <= i < FirstAble(ps, h) ensures !(ps[i].available && ps[i].able(h)) {
        if i > 0 {
          assert ps[i] == ps[1..][i - 1];
        }
      }
    }
  }

  /** Who snapshots a source in auto mode: nobody, for a foreign-backed volume. */
  function Claimant(ps: seq<Provider>, h: HostSource, foreign: map<string, string>): nat {
    if h.name in foreign then |ps| else FirstAble(ps, h)
  }

  /** The sources provider i claims, in order. */
  function ClaimedBy(ps: seq<Provider>, hs: seq<HostSource>, foreign: map<string, string>, i: nat): seq<HostSource> {
    if hs == [] then []
    else
      var n := |hs| - 1;
      ClaimedBy(ps, hs[..n], foreign, i) + (if Claimant(ps, hs[n], foreign) == i then [hs[n]] else [])
  }

  ghost predicate UniqueHosts(hs: seq<HostSource>) {
    forall i, j | 0 <= i < j < |hs| :: hs[i].name != hs[j].name
  }

  lemma {:induction false} NothingClaimed(ps: seq<Provider>, hs: seq<HostSource>, foreign: map<string, string>, i: nat)
    requires forall k | 0 <= k < |hs| :: Claimant(ps, hs[k], foreign) != i
    ensures ClaimedBy(ps, hs, foreign, i) == []
    decreases |hs|
  {
    if hs != [] {
      NothingClaimed(ps, hs[..|hs| - 1], foreign, i);
    }
  }

  /** Before provider i is asked: who is still waiting and who has been claimed. */
  ghost predicate Asked(ps: seq<Provider>, hs: seq<HostSource>, foreign: map<string, string>, i: nat,
                        pending: set<string>, claimed: set<string>)
  {
    && (forall k | 0 <= k < |hs| ::
          (hs[k].name in pending <==> hs[k].name !in foreign && Claimant(ps, hs[k], foreign) >= i))
    && (forall k | 0 <= k < |hs| :: hs[k].name in claimed <==> Claimant(ps, hs[k], foreign) < i)
  }

  /** One provider's turn: it claims the waiting sources it can snapshot. */
  method AskOne(ps: seq<Provider>, hs: seq<HostSource>, ghost foreign: map<string, string>, i: nat,
                pending: set<string>, claimed: set<string>)
    returns (mine: seq<HostSource>, pending': set<string>, claimed': set<string>)
    requires i < |ps| && UniqueHosts(hs) && Asked(ps, hs, foreign, i, pending, claimed)
    ensures mine == ClaimedBy(ps, hs, foreign, i)
    ensures Asked(ps, hs, foreign, i + 1, pending', claimed')
    ensures pending' <= pending
  {
    hide FirstAble;
    mine, pending', claimed' := [], pending, claimed;
    AllTurns(ps, hs, i);
    if !ps[i].available {
      NothingClaimed(ps, hs, foreign, i);
      return;
    }
    for k := 0 to |hs|
      invariant mine == ClaimedBy(ps, hs[..k], foreign, i)
      invariant pending' <= pending
      invariant forall j | 0 <= j < k ::
                  (hs[j].name in pending' <==> hs[j].name !in foreign && Claimant(ps, hs[j], foreign) >= i + 1) &&
                  (hs[j].name in claimed' <==> Claimant(ps, hs[j], foreign) < i + 1)
      invariant forall j | k <= j < |hs| ::
                  (hs[j].name in pending' <==> hs[j].name in pending) &&
                  (hs[j].name in claimed' <==> hs[j].name in claimed)
    {
      assert hs[..k + 1][..k] == hs[..k];
      if hs[k].name in pending' && ps[i].able(hs[k]) {
        mine := mine + [hs[k]];
        claimed' := claimed' + {hs[k].name};
        pending' := pending' - {hs[k].name};
      }
    }
    assert hs[..|hs|] == hs;
  }

  /** Claimed at i exactly if not claimed before and able at i. */
  lemma AllTurns(ps: seq<Provider>, hs: seq<HostSource>, i: nat)
    requires i < |ps|
    ensures forall k | 0 <= k < |hs| ::
              && FirstAble(ps, hs[k]) <= |ps|
              && (FirstAble(ps, hs[k]) == i <==> FirstAble(ps, hs[k]) >= i && ps[i].available && ps[i].able(hs[k]))
  {
    forall k | 0 <= k < |hs|
      ensures FirstAble(ps, hs[k]) <= |ps|
      ensures FirstAble(ps, hs[k]) == i <==> FirstAble(ps, hs[k]) >= i && ps[i].available && ps[i].able(hs[k])
    {
      FirstAbleIsFirst(ps, hs[k]);
    }
  }

  /** The claiming loop of autoMounts, with its early exit. */
  method ClaimAll(ps: seq<Provider>, hs: seq<HostSource>, foreign: map<string, string>)
    returns (perProvider: seq<seq<HostSource>>, claimed: set<string>)
    requires UniqueHosts(hs)
    ensures |perProvider| == |ps|
    ensures forall i | 0 <= i < |ps| :: perProvider[i] == ClaimedBy(ps, hs, foreign, i)
    ensures forall k | 0 <= k < |hs| :: hs[k].name in claimed <==> Claimant(ps, hs[k], foreign) < |ps|
  {
    hide FirstAble, ClaimedBy;
    var pending := set k | 0 <= k < |hs| && hs[k].name !in foreign :: hs[k].name;
    claimed := {};
    perProvider := [];
    assert Asked(ps, hs, foreign, 0, pending, claimed);
    while |perProvider| < |ps| && pending != {}
      invariant |perProvider| <= |ps|
      invariant Asked(ps, hs, foreign, |perProvider|, pending, claimed)
      invariant forall i | 0 <= i < |perProvider| :: perProvider[i] == ClaimedBy(ps, hs, foreign, i)
    {
      var mine;
      mine, pending, claimed := AskOne(ps, hs, foreign, |perProvider|, pending, claimed);
      perProvider := perProvider + [mine];
    }
    NoneBeyond(ps, hs, foreign, |perProvider|, pending, claimed);
    while |perProvider| < |ps|
      invariant |perProvider| <= |ps|
      invariant forall i | 0 <= i < |perProvider| :: perProvider[i] == ClaimedBy(ps, hs, foreign, i)
    {
      perProvider := perProvider + [[]];
    }
  }

  /** Once nobody waits, no later provider claims anything. */
  lemma NoneBeyond(ps: seq<Provider>, hs: seq<HostSource>, foreign: map<string, string>, n: nat,
                   pending: set<string>, claimed: set<string>)
    requires n <= |ps| && Asked(ps, hs, foreign, n, pending, claimed) && (n == |ps| || pending == {})
    ensures forall i | n <= i < |ps| :: ClaimedBy(ps, hs, foreign, i) == []
    ensures forall k | 0 <= k < |hs| :: hs[k].name in claimed <==> Claimant(ps, hs[k], foreign) < |ps|
  {
    hide FirstAble;
    forall i | n <= i < |ps| ensures ClaimedBy(ps, hs, foreign, i) == [] {
      NothingClaimed(ps, hs, foreign, i);
    }
    forall k | 0 <= k < |hs| ensures hs[k].name in claimed <==> Claimant(ps, hs[k], foreign) < |ps| {
      FirstAbleIsFirst(ps, hs[k]);
    }
  }

  // ------------------------------------------------------------- the mounts

  function LiveMount(s: Source, readOnly: bool): Mount {
    Mount(s.kind, s.ref, Target(s.name), readOnly)
  }

  function SnapMount(p: Provider, h: HostSource): Mount {
    Mount(Bind, p.readAt(h), Target(h.name), true)
  }

  function SnapMounts(p: Provider, hs: seq<HostSource>): seq<Mount> {
    seq(|hs|, i requires 0 <= i < |hs| => SnapMount(p, hs[i]))
  }

  lemma SpecSourcesSpelled(sources: seq<Source>)
    ensures |SpecSources(sources)| == |sources|
    ensures forall i | 0 <= i < |sources| :: SpecSources(sources)[i] == "/data/" + sources[i].name
  {
  }

  /** The mount, field by field: a snapshot is bound from where the provider says it can be read,
      a live source is mounted by its own kind and reference; both below /data. */
  lemma MountFields(p: Provider, h: HostSource, s: Source, readOnly: bool)
    ensures SnapMount(p, h).kind == Bind && SnapMount(p, h).source == p.readAt(h)
    ensures SnapMount(p, h).target == "/data/" + h.name && SnapMount(p, h).readOnly
    ensures LiveMount(s, readOnly).kind == s.kind && LiveMount(s, readOnly).source == s.ref
    ensures LiveMount(s, readOnly).target == "/data/" + s.name && LiveMount(s, readOnly).readOnly == readOnly
  {
  }

  /** The mount of one source in auto mode: from the snapshot of its claimant, or live. */
  function AutoMount(ps: seq<Provider>, s: Source, h: HostSource, foreign: map<string, string>): Mount {
    var i := Claimant(ps, h, foreign);
    if i < |ps| then SnapMount(ps[i], h) else LiveMount(s, true)
  }

  function AutoMountList(ps: seq<Provider>, sources: seq<Source>, hs: seq<HostSource>,
                         foreign: map<string, string>): seq<Mount>
    requires |sources| == |hs|
  {
    if hs == [] then []
    else
      var n := |hs| - 1;
      AutoMountList(ps, sources[..n], hs[..n], foreign) + [AutoMount(ps, sources[n], hs[n], foreign)]
  }

  /** The snapshot mounts of the first i providers, in the order autoMounts appends them. */
  function Snapped(ps: seq<Provider>, hs: seq<HostSource>, foreign: map<string, string>, i: nat): seq<Mount>
    requires i <= |ps|
  {
    if i == 0 then []
    else Snapped(ps, hs, foreign, i - 1) + SnapMounts(ps[i - 1], ClaimedBy(ps, hs, foreign, i - 1))
  }

  /** The live mounts, in source order. */
  function Unsnapped(ps: seq<Provider>, sources: seq<Source>, hs: seq<HostSource>,
                     foreign: map<string, string>): seq<Mount>
    requires |sources| == |hs|
  {
    if hs == [] then []
    else
      var n := |hs| - 1;
      Unsnapped(ps, sources[..n], hs[..n], foreign) +
      (if Claimant(ps, hs[n], foreign) < |ps| then [] else [LiveMount(sources[n], true)])
  }

  lemma SnapMountsSnoc(p: Provider, hs: seq<HostSource>, h: HostSource)
    ensures multiset(SnapMounts(p, hs + [h])) == multiset(SnapMounts(p, hs)) + multiset{SnapMount(p, h)}
  {
    assert SnapMounts(p, hs + [h]) == SnapMounts(p, hs) + [SnapMount(p, h)];
  }

  lemma ClaimedBySnoc(ps: seq<Provider>, hs: seq<HostSource>, h: HostSource, foreign: map<string, string>, i: nat)
    ensures ClaimedBy(ps, hs + [h], foreign, i) ==
            ClaimedBy(ps, hs, foreign, i) + (if Claimant(ps, h, foreign) == i then [h] else [])
  {
    hide Claimant;
    assert (hs + [h])[..|hs|] == hs;
  }

  /** One more source adds one more mount, from its claimant. */
  lemma {:induction false} SnappedSnoc(ps: seq<Provider>, hs: seq<HostSource>, h: HostSource,
                                       foreign: map<string, string>, i: nat)
    requires i <= |ps|
    ensures var c := Claimant(ps, h, foreign);
            multiset(Snapped(ps, hs + [h], foreign, i)) ==
            multiset(Snapped(ps, hs, foreign, i)) + (if c < i then multiset{SnapMount(ps[c], h)} else multiset{})
    decreases i
  {
    hide Claimant, ClaimedBy, SnapMounts;
    if i > 0 {
      SnappedSnoc(ps, hs, h, foreign, i - 1);
      ClaimedBySnoc(ps, hs, h, foreign, i - 1);
      var mine := ClaimedBy(ps, hs, foreign, i - 1);
      if Claimant(ps, h, foreign) == i - 1 {
        SnapMountsSnoc(ps[i - 1], mine, h);
      } else {
        assert mine + [] == mine;
      }
    }
  }

  lemma {:induction false} SnappedNothing(ps: seq<Provider>, foreign: map<string, string>, i: nat)
    requires i <= |ps|
    ensures Snapped(ps, [], foreign, i) == []
  {
    if i > 0 {
      SnappedNothing(ps, foreign, i - 1);
    }
  }

  /** Snapshot mounts and live mounts together are one mount per source. */
  lemma {:induction false} OneMountEach(ps: seq<Provider>, sources: seq<Source>, hs: seq<HostSource>,
                                        foreign: map<string, string>)
    requires |sources| == |hs|
    ensures multiset(Snapped(ps, hs, foreign, |ps|)) + multiset(Unsnapped(ps, sources, hs, foreign)) ==
            multiset(AutoMountList(ps, sources, hs, foreign))
    decreases |hs|
  {
    hide Claimant, Snapped;
    if hs == [] {
      SnappedNothing(ps, foreign, |ps|);
    } else {
      var n := |hs| - 1;
      OneMountEach(ps, sources[..n], hs[..n], foreign);
      SnappedSnoc(ps, hs[..n], hs[n], foreign, |ps|);
      assert hs == hs[..n] + [hs[n]];
    }
  }

  lemma {:induction false} AutoTargets(ps: seq<Provider>, sources: seq<Source>, hs: seq<HostSource>,
                                       foreign: map<string, string>)
    requires |sources| == |hs| && forall i | 0 <= i < |hs| :: hs[i].name == sources[i].name
    ensures var l := AutoMountList(ps, sources, hs, foreign);
            |l| == |sources| && forall i | 0 <= i < |l| ::
              l[i] == AutoMount(ps, sources[i], hs[i], foreign) && l[i].readOnly &&
              l[i].target == SpecSources(sources)[i]
    decreases |hs|
  {
    hide Claimant;
    if hs != [] {
      AutoTargets(ps, sources[..|hs| - 1], hs[..|hs| - 1], foreign);
    }
  }

  // ------------------------------------------------------- the orchestrator

  function Union(sets: seq<set<string>>): set<string> {
    if sets == [] then {} else Union(sets[..|sets| - 1]) + sets[|sets| - 1]
  }

  /** Every provider's snapshot command works, and no two take the same snapshot. */
  ghost predicate AllAnswer(ps: seq<Provider>, live: set<string>) {
    && (forall i | 0 <= i < |ps| :: ps[i].answers)
    && (forall i, l | 0 <= i < |ps| :: ps[i].takes(l) !! live)
    && (forall i, j, l, m | 0 <= i < j < |ps| :: ps[i].takes(l) !! ps[j].takes(m))
  }

  class Orchestrator {
    var live: set<string>    // snapshots that exist

    constructor (live: set<string>)
      ensures this.live == live
    {
      this.live := live;
    }

    /** Snapshotter.Snapshot: on error it rolls back what it had taken. */
    method Take(p: Provider, hs: seq<HostSource>, stuck: set<string>) returns (ok: bool)
      modifies this
      ensures ok <==> p.answers && p.takes(hs) !! old(live)
      ensures live == old(live) + (if ok then p.takes(hs) else p.partial(hs) * stuck)
    {
      ok := p.answers && p.takes(hs) !! live;
      live := live + (if ok then p.takes(hs) else p.partial(hs) * stuck);
    }

    /** Runs cleanups one after another. */
    method Release(cleanups: seq<set<string>>, stuck: set<string>)
      modifies this
      ensures live == old(live) - (Union(cleanups) - stuck)
    {
      for k := 0 to |cleanups|
        invariant live == old(live) - (Union(cleanups[..k]) - stuck)
      {
        assert cleanups[..k + 1][..k] == cleanups[..k];
        live := live - (cleanups[k] - stuck);
      }
      assert cleanups[..|cleanups|] == cleanups;
    }

    /** Snapshots each provider's sources; a failure releases all earlier providers' snapshots. */
    method SnapshotClaims(ps: seq<Provider>, perProvider: seq<seq<HostSource>>, ghost hs: seq<HostSource>,
                          ghost foreign: map<string, string>, stuck: set<string>)
      returns (ok: bool, ms: seq<Mount>, cleanups: seq<set<string>>)
      requires |perProvider| == |ps| && forall i | 0 <= i < |ps| :: perProvider[i] == ClaimedBy(ps, hs, foreign, i)
      modifies this
      ensures ok ==> ms == Snapped(ps, hs, foreign, |ps|)
      ensures ok ==> Union(cleanups) !! old(live) && live == old(live) + Union(cleanups)
      ensures !ok ==> old(live) <= live <= old(live) + stuck
      ensures AllAnswer(ps, old(live)) ==> ok
    {
      hide ClaimedBy;
      ms, cleanups := [], [];
      ghost var before := live;
      for i := 0 to |ps|
        invariant ms == Snapped(ps, hs, foreign, i)
        invariant Union(cleanups) !! before && live == before + Union(cleanups)
        invariant AllAnswer(ps, before) ==> forall j, l | i <= j < |ps| :: Union(cleanups) !! ps[j].takes(l)
      {
        if perProvider[i] != [] {
          var took := Take(ps[i], perProvider[i], stuck);
          if !took {
            Release(cleanups, stuck);
            return false, [], [];
          }
          var more := cleanups + [ps[i].takes(perProvider[i])];
          assert more[..|cleanups|] == cleanups;
          cleanups := more;
        }
        ms := ms + SnapMounts(ps[i], perProvider[i]);
      }
      ok := true;
    }

    /** autoMounts. */
    method AutoMounts(ps: seq<Provider>, sources: seq<Source>, vols: Volumes, stuck: set<string>)
      returns (r: Result<(seq<Mount>, seq<set<string>>)>)
      requires UniqueNames(sources)
      modifies this
      ensures r.Ok? ==> Union(r.value.1) !! old(live) && live == old(live) + Union(r.value.1)
      ensures r.Err? ==> old(live) <= live <= old(live) + stuck
      ensures r.Ok? ==> AllKnown(sources, vols) && AutoOk(ps, sources, vols, r.value.0)
      ensures !AllKnown(sources, vols) ==> r == Err(VolumeUnknown)
      ensures AllKnown(sources, vols) && AllAnswer(ps, old(live)) ==> r.Ok?
    {
      hide Claimant, ClaimedBy, FirstAble;
      var resolved := ResolveHostPaths(sources, vols);
      if resolved.Err? {
        return Err(VolumeUnknown);
      }
      var (hs, foreign) := resolved.value;
      assert UniqueHosts(hs);
      var perProvider, claimed := ClaimAll(ps, hs, foreign);
      var ok, ms, cleanups := SnapshotClaims(ps, perProvider, hs, foreign, stuck);
      if !ok {
        return Err(SnapshotFailed);
      }
      var lives := LiveOnes(ps, sources, hs, foreign, claimed);
      OneMountEach(ps, sources, hs, foreign);
      r := Ok((ms + lives, cleanups));
      assert AutoList(ps, sources, vols, hs, foreign, ms + lives);
    }

    /** strictMounts: one provider for every source; a foreign-backed volume fails the run. */
    method StrictMounts(p: Provider, sources: seq<Source>, vols: Volumes, stuck: set<string>)
      returns (r: Result<(seq<Mount>, seq<set<string>>)>)
      requires UniqueNames(sources)
      modifies this
      ensures r.Ok? ==> Union(r.value.1) !! old(live) && live == old(live) + Union(r.value.1)
      ensures r.Err? ==> old(live) <= live <= old(live) + stuck
      ensures r.Ok? ==> AllKnown(sources, vols) && |r.value.0| == |sources|
      ensures r.Ok? ==> forall i | 0 <= i < |sources| ::
                r.value.0[i] == Mount(Bind, p.readAt(OnHost(sources[i], vols)), "/data/" + sources[i].name, true)
      ensures r.Ok? ==> forall i | 0 <= i < |sources| :: !IsForeign(sources[i], vols)
      ensures r == Err(NotLocal) <==>
              AllKnown(sources, vols) && exists i :: 0 <= i < |sources| && IsForeign(sources[i], vols)
      ensures r == Err(VolumeUnknown) <==> !AllKnown(sources, vols)
    {
      var resolved := ResolveHostPaths(sources, vols);
      if resolved.Err? {
        return Err(VolumeUnknown);
      }
      var (hs, foreign) := resolved.value;
      for i := 0 to |hs|
        invariant live == old(live)
        invariant forall j | 0 <= j < i :: !IsForeign(sources[j], vols)
      {
        if hs[i].name in foreign {
          return Err(NotLocal);
        }
      }
      var ok := Take(p, hs, stuck);
      if !ok {
        return Err(SnapshotFailed);
      }
      assert Union([p.takes(hs)]) == p.takes(hs) by {
        assert [p.takes(hs)][..0] == [];
      }
      r := Ok((SnapMounts(p, hs), [p.takes(hs)]));
    }

    /** sourceMountsFor: the mode decides; every success mounts exactly the sources that
        moverSpec names, each once and read-only. */
    method SourceMountsFor(mode: string, ps: seq<Provider>, sources: seq<Source>, vols: Volumes, stuck: set<string>)
      returns (r: Result<(seq<Mount>, seq<set<string>>)>)
      requires UniqueNames(sources)
      modifies this
      ensures r.Ok? ==> Union(r.value.1) !! old(live) && live == old(live) + Union(r.value.1)
      ensures r.Err? ==> old(live) <= live <= old(live) + stuck
      ensures r.Ok? ==> MountsExactly(sources, r.value.0)
      ensures mode == "" || mode == "none" ==> r.Ok? && live == old(live) && AllLive(sources, r.value.0)
      ensures mode == "auto" && r.Ok? ==> AllKnown(sources, vols) && AutoOk(ps, sources, vols, r.value.0)
      ensures mode !in {"", "none", "auto"} && (forall i | 0 <= i < |ps| :: ps[i].mode != mode) ==>
                r == Err(if ps == [] then NoProviders else UnknownMode)
      ensures mode !in {"", "none", "auto"} && r.Ok? ==>
                exists k :: IsFirstMode(ps, mode, k) && StrictOk(ps[k], sources, vols, r.value.0)
    {
      hide AutoOk, FirstAble;
      if mode == "" || mode == "none" {
        LiveMountsExact(sources);
        assert Union([]) == {};
        r := Ok((LiveMounts(sources, true), []));
      } else if mode == "auto" {
        r := AutoMounts(ps, sources, vols, stuck);
        if r.Ok? {
          AutoMountsExact(ps, sources, vols, r.value.0);
        }
      } else {
        var i := SnapshotterFor(ps, mode);
        ModeIndexIsFirst(ps, mode);
        if i == |ps| {
          return Err(if ps == [] then NoProviders else UnknownMode);
        }
        r := StrictMounts(ps[i], sources, vols, stuck);
        if r.Ok? {
          StrictMountsExact(ps[i], sources, vols, r.value.0);
          assert IsFirstMode(ps, mode, i) && StrictOk(ps[i], sources, vols, r.value.0);
        }
      }
    }

    method SnapshotterFor(ps: seq<Provider>, mode: string) returns (i: nat)
      ensures i == ModeIndex(ps, mode) <= |ps|
    {
      ModeIndexIsFirst(ps, mode);
      i := 0;
      while i < |ps| && ps[i].mode != mode
        invariant i <= ModeIndex(ps, mode)
      {
        i := i + 1;
      }
    }

    /** Everything not claimed is mounted live by its own kind and reference. */
    method LiveOnes(ghost ps: seq<Provider>, sources: seq<Source>, ghost hs: seq<HostSource>,
                    ghost foreign: map<string, string>, claimed: set<string>) returns (ms: seq<Mount>)
      requires |sources| == |hs| && forall i | 0 <= i < |hs| :: hs[i].name == sources[i].name
      requires forall k | 0 <= k < |hs| :: hs[k].name in claimed <==> Claimant(ps, hs[k], foreign) < |ps|
      ensures ms == Unsnapped(ps, sources, hs, foreign)
    {
      hide Claimant;
      ms := [];
      for k := 0 to |sources|
        invariant ms == Unsnapped(ps, sources[..k], hs[..k], foreign)
      {
        assert sources[..k + 1][..k] == sources[..k] && hs[..k + 1][..k] == hs[..k];
        if sources[k].name !in claimed {
          ms := ms + [LiveMount(sources[k], true)];
        }
      }
      assert sources[..|sources|] == sources && hs[..|hs|] == hs;
    }
  }

  /** hs and foreign are what resolveHostPaths returns. */
  ghost predicate Resolved(sources: seq<Source>, vols: Volumes, hs: seq<HostSource>, foreign: map<string, string>) {
    && AllKnown(sources, vols) && |hs| == |sources|
    && forall i | 0 <= i < |sources| ::
         && hs[i] == OnHost(sources[i], vols)
         && (sources[i].name in foreign <==> IsForeign(sources[i], vols))
  }

  ghost predicate AutoList(ps: seq<Provider>, sources: seq<Source>, vols: Volumes, hs: seq<HostSource>,
                           foreign: map<string, string>, ms: seq<Mount>)
  {
    && Resolved(sources, vols, hs, foreign)
    && multiset(ms) == multiset(AutoMountList(ps, sources, hs, foreign))
  }

  /** The mounts are one per source: the snapshot of the first provider able to take it,
      else the source itself, always so for a foreign-backed volume. */
  ghost predicate AutoOk(ps: seq<Provider>, sources: seq<Source>, vols: Volumes, ms: seq<Mount>) {
    exists hs, foreign :: AutoList(ps, sources, vols, hs, foreign, ms)
  }

  /** The registered provider with a mode name. */
  function ModeIndex(ps: seq<Provider>, mode: string): nat {
    if ps == [] || ps[0].mode == mode then 0 else 1 + ModeIndex(ps[1..], mode)
  }

  /** The first registered provider of that mode. */
  ghost predicate IsFirstMode(ps: seq<Provider>, mode: string, k: int) {
    0 <= k < |ps| && ps[k].mode == mode && forall i | 0 <= i < k :: ps[i].mode != mode
  }

  /** Every source is mounted live. */
  ghost predicate AllLive(sources: seq<Source>, ms: seq<Mount>) {
    && |ms| == |sources|
    && forall i | 0 <= i < |sources| ::
         ms[i] == Mount(sources[i].kind, sources[i].ref, "/data/" + sources[i].name, true)
  }

  /** Every source is mounted from the provider's snapshot. */
  ghost predicate StrictOk(p: Provider, sources: seq<Source>, vols: Volumes, ms: seq<Mount>) {
    && AllKnown(sources, vols) && |ms| == |sources|
    && forall i | 0 <= i < |sources| ::
         ms[i] == Mount(Bind, p.readAt(OnHost(sources[i], vols)), "/data/" + sources[i].name, true)
  }

  lemma {:induction false} ModeIndexIsFirst(ps: seq<Provider>, mode: string)
    ensures ModeIndex(ps, mode) <= |ps|
    ensures ModeIndex(ps, mode) < |ps| ==> ps[ModeIndex(ps, mode)].mode == mode
    ensures forall i | 0 <= i < ModeIndex(ps, mode) :: ps[i].mode != mode
  {
    if ps != [] && ps[0].mode != mode {
      ModeIndexIsFirst(ps[1..], mode);
      forall i | 0 <= i < ModeIndex(ps, mode) ensures ps[i].mode != mode {
        if i > 0 {
          assert ps[i] == ps[1..][i - 1];
        }
      }
    }
  }

  function LiveMounts(sources: seq<Source>, readOnly: bool): seq<Mount> {
    seq(|sources|, i requires 0 <= i < |sources| => LiveMount(sources[i], readOnly))
  }

  // --------------------------------------------------- exactly what is named

  function Targets(ms: seq<Mount>): multiset<string> {
    if ms == [] then multiset{} else Targets(ms[..|ms| - 1]) + multiset{ms[|ms| - 1].target}
  }

  /** The mounts' targets are the paths restic is given, each once, all read-only. */
  ghost predicate MountsExactly(sources: seq<Source>, ms: seq<Mount>) {
    Targets(ms) == multiset(SpecSources(sources)) && forall m | m in ms :: m.readOnly
  }

  lemma {:induction false} TargetsInOrder(sources: seq<Source>, ms: seq<Mount>)
    requires |ms| == |sources| && forall i | 0 <= i < |ms| :: ms[i].target == Target(sources[i].name)
    ensures Targets(ms) == multiset(SpecSources(sources))
    decreases |ms|
  {
    if ms != [] {
      var n := |ms| - 1;
      TargetsInOrder(sources[..n], ms[..n]);
      assert SpecSources(sources) == SpecSources(sources[..n]) + [Target(sources[n].name)];
    }
  }

  lemma {:induction false} TargetsRemove(ms: seq<Mount>, k: nat)
    requires k < |ms|
    ensures Targets(ms) == Targets(ms[..k] + ms[k + 1..]) + multiset{ms[k].target}
    decreases |ms|
  {
    hide Targets;
    var n := |ms| - 1;
    if k == n {
      assert ms[..k] + ms[k + 1..] == ms[..n];
    } else {
      TargetsRemove(ms[..n], k);
      var without := ms[..k] + ms[k + 1..];
      assert without[..n - 1] == ms[..n][..k] + ms[..n][k + 1..];
      TargetsSnoc(without);
    }
    TargetsSnoc(ms);
  }

  lemma TargetsSnoc(ms: seq<Mount>)
    requires ms != []
    ensures Targets(ms) == Targets(ms[..|ms| - 1]) + multiset{ms[|ms| - 1].target}
  {
  }

  lemma RemoveAt(l: seq<Mount>, k: nat)
    requires k < |l|
    ensures multiset(l[..k] + l[k + 1..]) == multiset(l) - multiset{l[k]}
  {
    assert l == l[..k] + [l[k]] + l[k + 1..];
  }

  /** Reordering mounts does not change their targets. */
  lemma {:induction false} TargetsPermute(ms: seq<Mount>, l: seq<Mount>)
    requires multiset(ms) == multiset(l)
    ensures Targets(ms) == Targets(l)
    decreases |ms|
  {
    hide Targets;
    if ms == [] {
      assert |l| == |multiset(l)| == 0;
    } else {
      var n := |ms| - 1;
      var x := ms[n];
      assert x in multiset(ms);
      var k :| 0 <= k < |l| && l[k] == x;
      RemoveAt(l, k);
      RemoveAt(ms, n);
      assert ms[..n] + ms[n + 1..] == ms[..n];
      TargetsPermute(ms[..n], l[..k] + l[k + 1..]);
      TargetsRemove(l, k);
      TargetsSnoc(ms);
    }
  }

  lemma LiveMountsExact(sources: seq<Source>)
    ensures MountsExactly(sources, LiveMounts(sources, true))
  {
    TargetsInOrder(sources, LiveMounts(sources, true));
  }

  lemma StrictMountsExact(p: Provider, sources: seq<Source>, vols: Volumes, ms: seq<Mount>)
    requires AllKnown(sources, vols) && |ms| == |sources|
    requires forall i | 0 <= i < |sources| :: ms[i] == SnapMount(p, OnHost(sources[i], vols))
    ensures MountsExactly(sources, ms)
  {
    TargetsInOrder(sources, ms);
  }

  lemma AutoMountsExact(ps: seq<Provider>, sources: seq<Source>, vols: Volumes, ms: seq<Mount>)
    requires AutoOk(ps, sources, vols, ms)
    ensures MountsExactly(sources, ms)
  {
    hide Claimant, AutoMount, Targets, AutoMountList;
    var hs, foreign :| AutoList(ps, sources, vols, hs, foreign, ms);
    var l := AutoMountList(ps, sources, hs, foreign);
    AutoTargets(ps, sources, hs, foreign);
    TargetsInOrder(sources, l);
    TargetsPermute(ms, l);
    forall m | m in ms ensures m.readOnly {
      assert m in multiset(ms) && m in multiset(l);
    }
  }

  /** In auto mode every source has its own mount: from the first provider able to snapshot
      it, else live by its own reference; a foreign-backed volume is always live. */
  lemma AutoMountOfSource(ps: seq<Provider>, sources: seq<Source>, vols: Volumes, ms: seq<Mount>, i: nat)
    requires AutoOk(ps, sources, vols, ms) && i < |sources| && AllKnown(sources, vols)
    ensures var s, h := sources[i], OnHost(sources[i], vols);
            var k, at := FirstAble(ps, h), "/data/" + sources[i].name;
            if (s.kind == Volume && vols[s.ref].foreign != "") || k == |ps| then Mount(s.kind, s.ref, at, true) in ms
            else k < |ps| && Mount(Bind, ps[k].readAt(h), at, true) in ms
  {
    hide FirstAble, SnapMount, LiveMount, AutoOk;
    OwnMount(ps, sources, vols, ms, i);
    var h := OnHost(sources[i], vols);
    FirstAbleIsFirst(ps, h);
    if FirstAble(ps, h) < |ps| {
      MountFields(ps[FirstAble(ps, h)], h, sources[i], true);
    } else {
      LiveFields(sources[i]);
    }
  }

  lemma LiveFields(s: Source)
    ensures LiveMount(s, true) == Mount(s.kind, s.ref, "/data/" + s.name, true)
  {
  }

  lemma OwnMount(ps: seq<Provider>, sources: seq<Source>, vols: Volumes, ms: seq<Mount>, i: nat)
    requires AutoOk(ps, sources, vols, ms) && i < |sources| && AllKnown(sources, vols)
    ensures var h := OnHost(sources[i], vols);
            if IsForeign(sources[i], vols) || FirstAble(ps, h) >= |ps| then LiveMount(sources[i], true) in ms
            else SnapMount(ps[FirstAble(ps, h)], h) in ms
  {
    hide FirstAble, AutoMountList;
    var hs, foreign :| AutoList(ps, sources, vols, hs, foreign, ms);
    AutoTargets(ps, sources, hs, foreign);
    var l := AutoMountList(ps, sources, hs, foreign);
    assert l[i] in multiset(l) && l[i] in multiset(ms);
  }
}
