/**
 The ZFS snapshot strategy as a transaction on the host's set of snapshots:
 resolve every source first, take one snapshot per dataset with one command per
 pool, undo everything when a pool fails, and destroy orphans at startup.

 A zfs command is one step on the host. `zfs snapshot` succeeds or creates
 nothing, and never replaces an existing snapshot; `zfs destroy` may fail, which
 is only logged.
 */
module ZfsSnapshot {
  import opened Lists
  import opened Paths
  import opened ZfsPaths
  import opened ZfsNames
  import opened ZfsPools
  import Keys

  datatype Source = Source(name: string, hostPath: string)
  datatype Mount = Mount(name: string, hostPath: string)

  datatype Command = Take(group: seq<string>) | Destroy(snap: string)

  datatype Result =
    | Ok(mounts: seq<Mount>, names: seq<string>)
    | Unavailable
    | NotOnZfs(source: Source)
    | Failed

  // -------------------------------------------------------------- the plan

  predicate OnZfs(s: Source, ds: seq<Dataset>) {
    Lookup(s.hostPath, ds).Some?
  }

  predicate AllOnZfs(sources: seq<Source>, ds: seq<Dataset>) {
    forall i | 0 <= i < |sources| :: OnZfs(sources[i], ds)
  }

  /** The dataset and sub-path of every source. */
  function Matches(sources: seq<Source>, ds: seq<Dataset>): seq<Match>
    requires AllOnZfs(sources, ds)
  {
    seq(|sources|, i requires 0 <= i < |sources| => Lookup(sources[i].hostPath, ds).value)
  }

  function MountOf(s: Source, m: Match, suffix: string): Mount {
    Mount(s.name, ReadPath(m.dataset.mountpoint, suffix, m.sub))
  }

  function FullNames(ms: seq<Match>, suffix: string): seq<string> {
    seq(|ms|, i requires 0 <= i < |ms| => FullName(ms[i].dataset.name, suffix))
  }

  /** One mount per source, of its place inside the snapshot of its dataset; and one snapshot
      of every dataset that a source is on, and of no other. */
  ghost predicate Planned(sources: seq<Source>, ds: seq<Dataset>, suffix: string, mounts: seq<Mount>,
                          names: seq<string>)
  {
    && AllOnZfs(sources, ds) && |mounts| == |sources| && Distinct(names)
    && (forall i | 0 <= i < |sources| :: var m := Lookup(sources[i].hostPath, ds).value;
          && mounts[i].name == sources[i].name
          && mounts[i].hostPath == ReadPath(m.dataset.mountpoint, suffix, m.sub)
          && m.dataset.name + "@" + suffix in names)
    && forall x | x in names :: SomeSourceOn(sources, ds, x, suffix)
  }

  /** The snapshot is one of a dataset that some source is on. */
  ghost predicate SomeSourceOn(sources: seq<Source>, ds: seq<Dataset>, snap: string, suffix: string)
    requires AllOnZfs(sources, ds)
  {
    exists i :: 0 <= i < |sources| && snap == Lookup(sources[i].hostPath, ds).value.dataset.name + "@" + suffix
  }

  lemma PlanIsPlanned(sources: seq<Source>, ds: seq<Dataset>, suffix: string, mounts: seq<Mount>)
    requires AllOnZfs(sources, ds) && |mounts| == |sources|
    requires forall i | 0 <= i < |sources| :: mounts[i] == MountOf(sources[i], Matches(sources, ds)[i], suffix)
    ensures Planned(sources, ds, suffix, mounts, Names(sources, ds, suffix))
  {
    hide Lookup, ReadPath, Dedupe;
    var ms := Matches(sources, ds);
    var full := FullNames(ms, suffix);
    DedupeKeepsElements(full);
    assert forall i | 0 <= i < |sources| :: full[i] == ms[i].dataset.name + "@" + suffix;
  }

  /** Each element where it is first seen. */
  function Dedupe(xs: seq<string>): seq<string> {
    if xs == [] then []
    else
      var n := |xs| - 1;
      var before := Dedupe(xs[..n]);
      if xs[n] in before then before else before + [xs[n]]
  }

  lemma {:induction false} DedupeKeepsElements(xs: seq<string>)
    ensures Distinct(Dedupe(xs)) && forall x :: x in Dedupe(xs) <==> x in xs
    decreases |xs|
  {
    if xs != [] {
      var n := |xs| - 1;
      DedupeKeepsElements(xs[..n]);
      assert xs == xs[..n] + [xs[n]];
    }
  }

  lemma DedupeSnoc(xs: seq<string>, x: string)
    ensures Dedupe(xs + [x]) == if x in xs then Dedupe(xs) else Dedupe(xs) + [x]
  {
    assert (xs + [x])[..|xs|] == xs;
    DedupeKeepsElements(xs);
  }

  /** One snapshot per distinct dataset, in the order the sources name them. */
  function Names(sources: seq<Source>, ds: seq<Dataset>, suffix: string): seq<string>
    requires AllOnZfs(sources, ds)
  {
    Dedupe(FullNames(Matches(sources, ds), suffix))
  }

  lemma {:induction false} FlattenIn(groups: seq<seq<string>>, n: nat)
    requires n <= |groups|
    ensures forall x | x in Flatten(groups[..n]) :: exists i :: 0 <= i < n && x in groups[i]
    ensures forall i, x | 0 <= i < n && x in groups[i] :: x in Flatten(groups[..n])
    decreases n
  {
    if n > 0 {
      FlattenIn(groups, n - 1);
      assert groups[..n][..n - 1] == groups[..n - 1];
    }
  }

  lemma FlattenSnoc(groups: seq<seq<string>>, n: nat)
    requires n < |groups|
    ensures AsSet(Flatten(groups[..n + 1])) == AsSet(Flatten(groups[..n])) + AsSet(groups[n])
  {
    assert groups[..n + 1][..n] == groups[..n];
  }

  /** A prefix of the groups never repeats a name of a later group. */
  lemma GroupsDisjoint(snaps: seq<string>, out: seq<seq<string>>, n: nat)
    requires |out| == |Pools(snaps)| && forall i | 0 <= i < |out| :: out[i] == InPool(snaps, Pools(snaps)[i])
    requires n < |out|
    ensures AsSet(Flatten(out[..n])) !! AsSet(out[n])
  {
    hide PoolOf, InPool, Pools;
    GroupsPartition(snaps, out);
    FlattenIn(out, n);
    forall x | x in Flatten(out[..n]) ensures x !in out[n] {
      var i :| 0 <= i < n && x in out[i];
      assert PoolOf(x) == Pools(snaps)[i];
    }
  }

  lemma FlattenAll(snaps: seq<string>, out: seq<seq<string>>)
    requires |out| == |Pools(snaps)| && forall i | 0 <= i < |out| :: out[i] == InPool(snaps, Pools(snaps)[i])
    ensures AsSet(Flatten(out[..|out|])) == AsSet(snaps)
  {
    hide PoolOf, InPool, Pools;
    GroupsPartition(snaps, out);
    assert out[..|out|] == out;
    forall x ensures x in Flatten(out) <==> x in snaps {
      assert x in Flatten(out) <==> x in multiset(Flatten(out));
      assert x in snaps <==> x in multiset(snaps);
    }
  }

  /** Every command names snapshots of one pool. */
  predicate OnePool(c: Command) {
    c.Take? ==> forall i, j | 0 <= i < |c.group| && 0 <= j < |c.group| :: PoolOf(c.group[i]) == PoolOf(c.group[j])
  }

  // -------------------------------------------------------------- the host

  class Host {
    var live: set<string>
    var trace: seq<Command>

    constructor (live: set<string>)
      ensures this.live == live && trace == []
    {
      this.live, trace := live, [];
    }

    /** No pool's command fails and no name exists yet. */
    ghost predicate CanTake(names: seq<string>, failing: set<string>)
      reads this
    {
      AsSet(names) !! live && forall i | 0 <= i < |Pools(names)| :: Pools(names)[i] !in failing
    }

    /** One `zfs snapshot` command. */
    method TakeGroup(group: seq<string>, answers: bool) returns (ok: bool)
      modifies this
      ensures trace == old(trace) + [Take(group)]
      ensures ok <==> answers && AsSet(group) !! old(live)
      ensures live == if ok then old(live) + AsSet(group) else old(live)
    {
      trace := trace + [Take(group)];
      ok := answers && forall x | x in group :: x !in live;
      if ok {
        live := live + (set x | x in group);
      }
    }

    /** The destroy closure; snapshots in `stuck` survive it. */
    method DestroyAll(snaps: seq<string>, stuck: set<string>)
      modifies this
      ensures live == old(live) - (AsSet(snaps) - stuck)
      ensures |trace| == |old(trace)| + |snaps| && old(trace) <= trace
      ensures forall i | |old(trace)| <= i < |trace| :: trace[i].Destroy?
    {
      for k := 0 to |snaps|
        invariant live == old(live) - (AsSet(snaps[..k]) - stuck)
        invariant |trace| == |old(trace)| + k && old(trace) <= trace
        invariant forall i | |old(trace)| <= i < |trace| :: trace[i].Destroy?
      {
        assert AsSet(snaps[..k + 1]) == AsSet(snaps[..k]) + {snaps[k]};
        trace := trace + [Destroy(snaps[k])];
        if snaps[k] !in stuck {
          live := live - {snaps[k]};
        }
      }
      assert snaps[..|snaps|] == snaps;
    }

    /** The pools, back to back; when one fails, the earlier ones are undone. */
    method TakePools(names: seq<string>, failing: set<string>, stuck: set<string>) returns (ok: bool)
      modifies this
      ensures ok ==> AsSet(names) !! old(live) && live == old(live) + AsSet(names)
      ensures !ok ==> old(live) <= live <= old(live) + (AsSet(names) * stuck)
      ensures ok <==> old(CanTake(names, failing))
      ensures old(trace) <= trace
      ensures forall i | |old(trace)| <= i < |trace| :: OnePool(trace[i])
      ensures (exists i :: |old(trace)| <= i < |trace| && trace[i].Take?) <==> names != []
    {
      hide PoolOf, InPool, Pools, Flatten;
      var groups := GroupByPool(names);
      NoNamesNoGroups(names, groups);
      ghost var before, start := live, trace;
      var k := 0;
      FlattenNone(groups);
      while k < |groups|
        invariant 0 <= k <= |groups|
        invariant AsSet(Flatten(groups[..k])) !! before && live == before + AsSet(Flatten(groups[..k]))
        invariant AsSet(Flatten(groups[..k])) <= AsSet(names)
        invariant forall i | 0 <= i < k :: Pools(names)[i] !in failing
        invariant start <= trace && |trace| == |start| + k
        invariant forall i | |start| <= i < |trace| :: OnePool(trace[i]) && trace[i].Take?
      {
        GroupFacts(names, groups, k);
        ok := TakeGroup(groups[k], Pool(groups[k]) !in failing);
        if !ok {
          DestroyAll(Flattened(groups, k), stuck);
          assert trace[|start| + k].Take?;
          return false;
        }
        k := k + 1;
      }
      FlattenAll(names, groups);
      assert groups != [] ==> trace[|start|].Take?;
      ok := true;
    }

    /** The first loop: every source finds its dataset before any snapshot is taken. */
    method Plan(suffix: string, sources: seq<Source>, ds: seq<Dataset>) returns (r: Result)
      ensures r.Ok? <==> AllOnZfs(sources, ds)
      ensures r.Ok? || (r.NotOnZfs? && r.source in sources && !OnZfs(r.source, ds))
      ensures r.Ok? ==> r.names == Names(sources, ds, suffix) && |r.mounts| == |sources|
      ensures r.Ok? ==> forall i | 0 <= i < |sources| ::
                r.mounts[i] == MountOf(sources[i], Matches(sources, ds)[i], suffix)
      ensures r.Ok? ==> Planned(sources, ds, suffix, r.mounts, r.names)
    {
      hide Lookup, ReadPath, Planned;
      var snapByDS: map<string, string> := map[];
      var names: seq<string> := [];
      var mounts: seq<Mount> := [];
      ghost var ms: seq<Match> := [];
      for k := 0 to |sources|
        invariant |ms| == |mounts| == k
        invariant forall i | 0 <= i < k :: Lookup(sources[i].hostPath, ds) == Some(ms[i])
        invariant forall i | 0 <= i < k :: mounts[i] == MountOf(sources[i], ms[i], suffix)
        invariant names == Dedupe(FullNames(ms, suffix))
        invariant forall d :: d in snapByDS <==> exists i :: 0 <= i < k && ms[i].dataset.name == d
      {
        var found := DatasetFor(sources[k].hostPath, ds);
        if found.None? {
          return NotOnZfs(sources[k]);
        }
        var m := found.value;
        PlanStep(ms, m, suffix);
        if m.dataset.name !in snapByDS {
          snapByDS := snapByDS[m.dataset.name := FullName(m.dataset.name, suffix)];
          names := names + [FullName(m.dataset.name, suffix)];
        }
        mounts := mounts + [MountOf(sources[k], m, suffix)];
        ms := ms + [m];
      }
      assert ms == Matches(sources, ds);
      PlanIsPlanned(sources, ds, suffix, mounts);
      r := Ok(mounts, names);
    }

    /** Snapshot, given what `zfs list` returned, which pools' commands fail, and which
        destroys fail. */
    method Snapshot(suffix: string, sources: seq<Source>, listing: Option<seq<Dataset>>,
                    failing: set<string>, stuck: set<string>) returns (r: Result)
      modifies this
      ensures r.Unavailable? <==> listing.None?
      ensures r.NotOnZfs? <==> listing.Some? && !AllOnZfs(sources, listing.value)
      ensures r.Ok? <==> listing.Some? && AllOnZfs(sources, listing.value) &&
                         old(CanTake(Names(sources, listing.value, suffix), failing))
      ensures r.Ok? ==> AsSet(r.names) !! old(live) && live == old(live) + AsSet(r.names)
      ensures r.Ok? ==> Distinct(r.names) && r.names == Names(sources, listing.value, suffix) && |r.mounts| == |sources|
      ensures r.Ok? ==> forall i | 0 <= i < |sources| ::
                r.mounts[i] == MountOf(sources[i], Matches(sources, listing.value)[i], suffix)
      ensures r.Ok? ==> Planned(sources, listing.value, suffix, r.mounts, r.names)
      ensures !r.Ok? ==> old(live) <= live <= old(live) + stuck
      ensures old(trace) <= trace && forall i | |old(trace)| <= i < |trace| :: OnePool(trace[i])
      ensures (exists i :: |old(trace)| <= i < |trace| && trace[i].Take?) <==>
              listing.Some? && AllOnZfs(sources, listing.value) && sources != []
    {
      hide Lookup, ReadPath, Dedupe, PoolOf, Pools, Planned;
      if listing.None? {
        return Unavailable;
      }
      r := Plan(suffix, sources, listing.value);
      if r.NotOnZfs? {
        return;
      }
      DedupeKeepsElements(FullNames(Matches(sources, listing.value), suffix));
      DedupeEmpty(FullNames(Matches(sources, listing.value), suffix));
      var ok := TakePools(r.names, failing, stuck);
      if !ok {
        r := Failed;
      }
    }

    /** The cleanup Snapshot returns. */
    method Cleanup(names: seq<string>, stuck: set<string>)
      modifies this
      ensures live == old(live) - (AsSet(names) - stuck)
    {
      DestroyAll(names, stuck);
    }

    /** A snapshot and its cleanup leave the host as it was, and so does a snapshot that
        fails, whatever the pools do, as long as destroying works. */
    method Transaction(suffix: string, sources: seq<Source>, listing: Option<seq<Dataset>>, failing: set<string>)
      returns (r: Result)
      modifies this
      ensures live == old(live)
    {
      hide Lookup, ReadPath, Dedupe, PoolOf, Pools;
      r := Snapshot(suffix, sources, listing, failing, {});
      if r.Ok? {
        Cleanup(r.names, {});
      }
    }

    method NamesInUse(paths: seq<string>) returns (inUse: set<string>)
      ensures inUse == InUse(paths)
    {
      hide SnapshotNameFromPath;
      inUse := {};
      for k := 0 to |paths|
        invariant inUse == InUse(paths[..k])
      {
        var name := SnapshotNameFromPath(paths[k]);
        InUseSnoc(paths, k);
        if name != "" {
          inUse := inUse + {name};
        }
      }
      assert paths[..|paths|] == paths;
    }

    /** One `zfs destroy` command. */
    method DestroyOne(snap: string, stuck: set<string>) returns (ok: bool)
      modifies this
      ensures trace == old(trace) + [Destroy(snap)]
      ensures ok <==> snap !in stuck
      ensures live == if ok then old(live) - {snap} else old(live)
    {
      trace := trace + [Destroy(snap)];
      ok := snap !in stuck;
      if ok {
        live := live - {snap};
      }
    }

    /** Destroys the listed snapshots of this instance that no running mover reads. */
    method ReapListed(instance: string, listing: seq<string>, inUsePaths: seq<string>, stuck: set<string>)
      returns (n: nat)
      requires Distinct(listing)
      modifies this
      ensures live == old(live) - (Orphans(instance, listing, inUsePaths) - stuck)
      ensures n == |Orphans(instance, listing, inUsePaths) - stuck|
    {
      hide OwnsSnapshot, CutAfter, Destroyed, InUse, Distinct;
      NoneDestroyed(instance, listing, inUsePaths, stuck);
      var inUse := NamesInUse(inUsePaths);
      n := 0;
      ghost var before := live;
      for k := 0 to |listing|
        invariant n == |Destroyed(instance, listing, k, inUsePaths, stuck)|
        invariant live == before - Destroyed(instance, listing, k, inUsePaths, stuck)
      {
        DestroyedSnoc(instance, listing, k, inUsePaths, stuck);
        Without(before, Destroyed(instance, listing, k, inUsePaths, stuck), listing[k]);
        if OwnsSnapshot(instance, listing[k]) && CutAfter(listing[k], '@') !in inUse {
          var ok := DestroyOne(listing[k], stuck);
          if ok {
            n := n + 1;
          }
        }
      }
      AllDestroyed(instance, listing, inUsePaths, stuck);
    }

    /** Reap: the helper containers first, which removes `helpers` of them and may fail, then
        the snapshots, if they can be listed. */
    method Reap(instance: string, helpers: nat, helpersOk: bool, listing: Option<seq<string>>, inUsePaths: seq<string>,
                stuck: set<string>) returns (ok: bool, n: nat)
      requires listing.Some? ==> Distinct(listing.value)
      modifies this
      ensures ok <==> helpersOk && listing.Some?
      ensures !ok ==> live == old(live) && n == helpers
      ensures ok ==> live == old(live) - (Orphans(instance, listing.value, inUsePaths) - stuck)
      ensures ok ==> n == helpers + |Orphans(instance, listing.value, inUsePaths) - stuck|
    {
      hide Orphans, Distinct;
      if !helpersOk || listing.None? {
        return false, helpers;
      }
      n := ReapListed(instance, listing.value, inUsePaths, stuck);
      return true, helpers + n;
    }

    /** ReapSnapshotter, with ZFS as the provider: nothing happens without a snapshot mode, or
        when the mounts of running movers are not known. */
    method StartupReap(mode: string, inUse: Option<seq<string>>, instance: string, helpers: nat, helpersOk: bool,
                       listing: Option<seq<string>>, stuck: set<string>) returns (ok: bool, n: nat)
      requires listing.Some? ==> Distinct(listing.value)
      modifies this
      ensures live <= old(live)
      ensures forall x | x in old(live) && x !in live ::
                inUse.Some? && OwnsSnapshot(instance, x) && CutAfter(x, '@') !in InUse(inUse.value)
      ensures mode in {"", "none"} || inUse.None? ==> live == old(live) && n == 0
      ensures ok <==> mode in {"", "none"} || (inUse.Some? && helpersOk && listing.Some?)
      ensures ok && mode !in {"", "none"} ==>
                live == old(live) - (Orphans(instance, listing.value, inUse.value) - stuck)
    {
      hide OwnsSnapshot, CutAfter, InUse, Distinct;
      if mode == "" || mode == "none" {
        return true, 0;
      }
      if inUse.None? {
        return false, 0;
      }
      ok, n := Reap(instance, helpers, helpersOk, listing, inUse.value, stuck);
    }
  }

  lemma DedupeEmpty(xs: seq<string>)
    ensures Dedupe(xs) == [] <==> xs == []
  {
  }

  lemma PlanStep(ms: seq<Match>, m: Match, suffix: string)
    ensures FullNames(ms + [m], suffix) == FullNames(ms, suffix) + [FullName(m.dataset.name, suffix)]
    ensures Dedupe(FullNames(ms + [m], suffix)) ==
            if exists i :: 0 <= i < |ms| && ms[i].dataset.name == m.dataset.name then Dedupe(FullNames(ms, suffix))
            else Dedupe(FullNames(ms, suffix)) + [FullName(m.dataset.name, suffix)]
  {
    hide Dedupe;
    var xs, x := FullNames(ms, suffix), FullName(m.dataset.name, suffix);
    assert FullNames(ms + [m], suffix) == xs + [x];
    DedupeSnoc(xs, x);
    assert x in xs <==> exists i :: 0 <= i < |ms| && ms[i].dataset.name == m.dataset.name by {
      if x in xs {
        var i :| 0 <= i < |xs| && xs[i] == x;
        FullNameInjective(ms[i].dataset.name, m.dataset.name, suffix);
      }
      if i :| 0 <= i < |ms| && ms[i].dataset.name == m.dataset.name {
        assert xs[i] == x;
      }
    }
  }

  lemma FullNameInjective(a: string, b: string, suffix: string)
    requires FullName(a, suffix) == FullName(b, suffix)
    ensures a == b
  {
    assert a == FullName(a, suffix)[..|a|] && b == FullName(b, suffix)[..|b|];
  }

  function Pool(group: seq<string>): string {
    if group == [] then "" else PoolOf(group[0])
  }

  function Flattened(groups: seq<seq<string>>, k: nat): seq<string>
    requires k <= |groups|
  {
    Flatten(groups[..k])
  }

  lemma FlattenNone(groups: seq<seq<string>>)
    ensures AsSet(Flatten(groups[..0])) == {}
  {
  }

  lemma NoNamesNoGroups(names: seq<string>, groups: seq<seq<string>>)
    requires |groups| == |Pools(names)|
    ensures names == [] <==> groups == []
  {
    hide PoolOf;
    if names != [] {
      assert PoolOf(names[|names| - 1]) in Pools(names);
    }
  }

  lemma GroupFacts(names: seq<string>, groups: seq<seq<string>>, k: nat)
    requires |groups| == |Pools(names)| && forall i | 0 <= i < |groups| :: groups[i] == InPool(names, Pools(names)[i])
    requires k < |groups|
    ensures Pool(groups[k]) == Pools(names)[k] && OnePool(Take(groups[k]))
    ensures AsSet(Flatten(groups[..k])) !! AsSet(groups[k])
    ensures AsSet(Flatten(groups[..k + 1])) == AsSet(Flatten(groups[..k])) + AsSet(groups[k])
    ensures AsSet(groups[k]) <= AsSet(names)
  {
    hide PoolOf, InPool, Pools, Flatten;
    GroupsPartition(names, groups);
    GroupsDisjoint(names, groups, k);
    FlattenSnoc(groups, k);
    InPoolIsPure(names, Pools(names)[k]);
  }

  // --------------------------------------------------------------- reaping

  /** The snapshots that running movers have mounted. */
  function InUse(paths: seq<string>): set<string> {
    set p | p in paths && SnapshotNameFromPath(p) != "" :: SnapshotNameFromPath(p)
  }

  function Orphans(instance: string, listing: seq<string>, inUsePaths: seq<string>): set<string> {
    set x | x in listing && OwnsSnapshot(instance, x) && CutAfter(x, '@') !in InUse(inUsePaths)
  }

  lemma InUseSnoc(paths: seq<string>, k: nat)
    requires k < |paths|
    ensures var name := SnapshotNameFromPath(paths[k]);
            InUse(paths[..k + 1]) == InUse(paths[..k]) + (if name != "" then {name} else {})
  {
    hide SnapshotNameFromPath;
    assert paths[..k + 1] == paths[..k] + [paths[k]];
  }

  lemma Without(live: set<string>, done: set<string>, x: string)
    ensures live - done - {x} == live - (done + {x})
  {
  }

  /** What reaping the first k snapshots of a listing destroys. */
  function Destroyed(instance: string, listing: seq<string>, k: nat, inUsePaths: seq<string>,
                     stuck: set<string>): set<string>
    requires k <= |listing|
  {
    Orphans(instance, listing[..k], inUsePaths) - stuck
  }

  lemma NoneDestroyed(instance: string, listing: seq<string>, inUsePaths: seq<string>, stuck: set<string>)
    ensures Destroyed(instance, listing, 0, inUsePaths, stuck) == {}
  {
  }

  lemma AllDestroyed(instance: string, listing: seq<string>, inUsePaths: seq<string>, stuck: set<string>)
    ensures Destroyed(instance, listing, |listing|, inUsePaths, stuck) == Orphans(instance, listing, inUsePaths) - stuck
  {
    hide Orphans;
    assert listing[..|listing|] == listing;
  }

  lemma DestroyedSnoc(instance: string, listing: seq<string>, k: nat, inUsePaths: seq<string>, stuck: set<string>)
    requires k < |listing| && Distinct(listing)
    ensures var x, d := listing[k], Destroyed(instance, listing, k, inUsePaths, stuck);
            var goes := OwnsSnapshot(instance, x) && CutAfter(x, '@') !in InUse(inUsePaths) && x !in stuck;
            x !in d && Destroyed(instance, listing, k + 1, inUsePaths, stuck) == if goes then d + {x} else d
  {
    hide Orphans, OwnsSnapshot, CutAfter, InUse;
    OrphansSnoc(instance, listing, k, inUsePaths);
  }

  lemma OrphansSnoc(instance: string, listing: seq<string>, k: nat, inUsePaths: seq<string>)
    requires k < |listing| && Distinct(listing)
    ensures var x := listing[k];
            && x !in Orphans(instance, listing[..k], inUsePaths)
            && Orphans(instance, listing[..k + 1], inUsePaths) == Orphans(instance, listing[..k], inUsePaths) +
                 (if OwnsSnapshot(instance, x) && CutAfter(x, '@') !in InUse(inUsePaths) then {x} else {})
  {
    hide OwnsSnapshot, InUse;
    assert listing[..k + 1] == listing[..k] + [listing[k]];
    assert listing[k] !in listing[..k];
  }

  /** Every snapshot of a run survives the reaping of its own instance, even after a restart
      of sabon, as long as a running mover mounts one source of the run that is not hidden. */
  lemma MountedSnapshotSurvives(instance: string, app: string, nanos: nat, s: Source, ds: seq<Dataset>,
                                dataset: string, listing: seq<string>, inUsePaths: seq<string>)
    requires IsAbs(s.hostPath) && OnZfs(s, ds) && '@' !in dataset && !Hidden(s, ds, SnapSuffix(instance, app, nanos))
    requires MountOf(s, Lookup(s.hostPath, ds).value, SnapSuffix(instance, app, nanos)).hostPath in inUsePaths
    ensures FullName(dataset, SnapSuffix(instance, app, nanos)) !in Orphans(instance, listing, inUsePaths)
  {
    hide SnapshotNameFromPath, OwnsSnapshot, CutAfter, CutBefore, Lookup, SnapSuffix, Hidden, Proper, MountOf, InUse;
    var snap := SnapSuffix(instance, app, nanos);
    PathTellsExactly(s, ds, instance, app, nanos);
    SuffixProper(instance, app, nanos);
    ProperNotEmpty(snap);
    InUseMeans(inUsePaths, snap);
    FullNameSplits(dataset, snap);
  }

  lemma ProperNotEmpty(seg: string)
    requires Proper(seg)
    ensures seg != ""
  {
  }

  lemma SubSegments(path: string, ds: seq<Dataset>) returns (below: seq<string>)
    requires IsAbs(path) && Lookup(path, ds).Some?
    ensures var m := Lookup(path, ds).value;
            AllProper(below) && m.sub == Join(below) && IsAbs(m.dataset.mountpoint)
  {
    hide Lookup, Segments, Clean;
    LookupFindsDeepest(path, ds);
    var m := Lookup(path, ds).value;
    var i :| 0 <= i < |ds| && IsFirstDeepest(i, path, ds) &&
      m == Match(ds[i], Join(Segments(path)[|Segments(ds[i].mountpoint)|..]));
    SegmentsProper(path);
    below := Segments(path)[|Segments(ds[i].mountpoint)|..];
  }

  /** Instances with incomparable name prefixes never destroy each other's snapshots. */
  lemma ForeignSnapshotSurvives(mine: string, other: string, dataset: string, app: string, nanos: nat,
                                listing: seq<string>, inUsePaths: seq<string>)
    requires '@' !in dataset && !Comparable(SnapPrefix(mine), SnapPrefix(other))
    ensures FullName(dataset, SnapSuffix(other, app, nanos)) !in Orphans(mine, listing, inUsePaths)
  {
    hide SnapPrefix, SnapSuffix, CutAfter, InUse, OwnsSnapshot, Tail;
    if OwnsSnapshot(mine, FullName(dataset, SnapSuffix(other, app, nanos))) {
      OwnedMeansComparable(mine, other, dataset, app, nanos);
    }
  }

  // --------------------------------------------------- when reaping goes wrong

  lemma OrphanIfUnread(instance: string, full: string, listing: seq<string>, inUsePaths: seq<string>)
    requires full in listing
    ensures full in Orphans(instance, listing, inUsePaths) <==>
            OwnsSnapshot(instance, full) && CutAfter(full, '@') !in InUse(inUsePaths)
  {
    hide OwnsSnapshot, CutAfter, InUse;
  }

  // A run takes all its snapshots under one name, and the reaping compares names. So the
  // question is whether any path the mover reads gives that name away.

  /** The paths a run's mover mounts. */
  function MountPaths(sources: seq<Source>, ds: seq<Dataset>, snap: string): seq<string>
    requires AllOnZfs(sources, ds)
  {
    seq(|sources|, i requires 0 <= i < |sources| => MountOf(sources[i], Matches(sources, ds)[i], snap).hostPath)
  }

  /** The source's dataset is mounted inside a snapshot directory of another name. */
  predicate Hidden(s: Source, ds: seq<Dataset>, snap: string)
    requires OnZfs(s, ds)
  {
    var a := Segments(Lookup(s.hostPath, ds).value.dataset.mountpoint);
    InsideSnapshot(a) && NameAfterPair(a + [ZFS_DIR]) != snap
  }

  predicate AllHidden(sources: seq<Source>, ds: seq<Dataset>, snap: string)
    requires AllOnZfs(sources, ds)
  {
    forall i | 0 <= i < |sources| :: Hidden(sources[i], ds, snap)
  }

  predicate AllAbs(sources: seq<Source>) {
    forall i | 0 <= i < |sources| :: IsAbs(sources[i].hostPath)
  }

  /** A mount path gives its snapshot's name away exactly when its source is not hidden. */
  lemma PathTellsExactly(s: Source, ds: seq<Dataset>, instance: string, app: string, nanos: nat)
    requires IsAbs(s.hostPath) && OnZfs(s, ds)
    ensures var snap := SnapSuffix(instance, app, nanos);
            SnapshotNameFromPath(MountOf(s, Lookup(s.hostPath, ds).value, snap).hostPath) == snap <==>
            !Hidden(s, ds, snap)
  {
    hide SnapshotNameFromPath, ReadPath, Lookup, SnapSuffix, Segments, Clean, Proper, InsideSnapshot, NameAfterPair;
    var m, snap := Lookup(s.hostPath, ds).value, SnapSuffix(instance, app, nanos);
    var below := SubSegments(s.hostPath, ds);
    SuffixProper(instance, app, nanos);
    ReadPathRoundTrip(m.dataset.mountpoint, snap, below);
  }

  lemma InUseMeans(paths: seq<string>, name: string)
    requires name != ""
    ensures name in InUse(paths) <==> exists p :: p in paths && SnapshotNameFromPath(p) == name
  {
    hide SnapshotNameFromPath;
  }

  /** Another mount that happens to give the same name. */
  ghost predicate ToldByOthers(inUsePaths: seq<string>, paths: seq<string>, name: string) {
    exists p :: p in inUsePaths && p !in paths && SnapshotNameFromPath(p) == name
  }

  lemma NameInUseExactly(instance: string, app: string, nanos: nat, sources: seq<Source>, ds: seq<Dataset>,
                         inUsePaths: seq<string>)
    requires AllAbs(sources) && AllOnZfs(sources, ds)
    requires forall p | p in MountPaths(sources, ds, SnapSuffix(instance, app, nanos)) :: p in inUsePaths
    ensures var snap := SnapSuffix(instance, app, nanos);
            snap in InUse(inUsePaths) <==>
            !AllHidden(sources, ds, snap) || ToldByOthers(inUsePaths, MountPaths(sources, ds, snap), snap)
  {
    hide SnapshotNameFromPath, ReadPath, Lookup, SnapSuffix, InUse, Hidden, Proper, MountOf;
    var snap := SnapSuffix(instance, app, nanos);
    var paths := MountPaths(sources, ds, snap);
    SuffixProper(instance, app, nanos);
    ProperNotEmpty(snap);
    InUseMeans(inUsePaths, snap);
    forall i | 0 <= i < |sources| ensures SnapshotNameFromPath(paths[i]) == snap <==> !Hidden(sources[i], ds, snap) {
      PathTellsExactly(sources[i], ds, instance, app, nanos);
    }
    if !AllHidden(sources, ds, snap) {
      var i :| 0 <= i < |sources| && !Hidden(sources[i], ds, snap);
      assert paths[i] in paths && paths[i] in inUsePaths;
    }
    if p :| p in inUsePaths && p in paths && SnapshotNameFromPath(p) == snap {
      var i :| 0 <= i < |paths| && paths[i] == p;
      assert !Hidden(sources[i], ds, snap);
    }
  }

  /** Of a run whose mover is running, so that all its mounts are in use, whatever else is:
      the reaping destroys the snapshot of each of its datasets exactly when all of its
      sources are hidden and no other mount happens to give the name. */
  lemma ReapedExactly(instance: string, app: string, nanos: nat, sources: seq<Source>, ds: seq<Dataset>, k: nat,
                      listing: seq<string>, inUsePaths: seq<string>)
    requires AllAbs(sources) && AllOnZfs(sources, ds) && k < |sources|
    requires '@' !in Matches(sources, ds)[k].dataset.name
    requires FullName(Matches(sources, ds)[k].dataset.name, SnapSuffix(instance, app, nanos)) in listing
    requires forall p | p in MountPaths(sources, ds, SnapSuffix(instance, app, nanos)) :: p in inUsePaths
    ensures var snap := SnapSuffix(instance, app, nanos);
            FullName(Matches(sources, ds)[k].dataset.name, snap) in Orphans(instance, listing, inUsePaths) <==>
            AllHidden(sources, ds, snap) && !ToldByOthers(inUsePaths, MountPaths(sources, ds, snap), snap)
  {
    hide OwnsSnapshot, CutAfter, CutBefore, Lookup, SnapSuffix, Orphans, InUse, AllHidden, ToldByOthers, MountPaths;
    var snap, name := SnapSuffix(instance, app, nanos), Matches(sources, ds)[k].dataset.name;
    FullNameSplits(name, snap);
    OwnsItsOwn(instance, name, app, nanos);
    OrphanIfUnread(instance, FullName(name, snap), listing, inUsePaths);
    NameInUseExactly(instance, app, nanos, sources, ds, inUsePaths);
  }

  ghost predicate CanReap(mine: string, other: string) {
    exists dataset, app, nanos, listing, paths ::
      '@' !in dataset && Keys.ValidApp(app) &&
      FullName(dataset, SnapSuffix(other, app, nanos)) in Orphans(mine, listing, paths)
  }

  /** One instance can destroy a snapshot another one takes for a valid app exactly when its
      prefix starts the other's, or continues it without two dots in a row. */
  lemma CanReapExactly(mine: string, other: string)
    ensures CanReap(mine, other) <==> Trespasses(SnapPrefix(mine), SnapPrefix(other))
  {
    hide SnapPrefix, SnapSuffix, CutAfter, InUse, OwnsSnapshot, Trespasses, Keys.ValidApp;
    OwnershipExactly(mine, other);
    if CanOwn(mine, other) {
      var dataset, app, nanos :|
        '@' !in dataset && Keys.ValidApp(app) && OwnsSnapshot(mine, FullName(dataset, SnapSuffix(other, app, nanos)));
      var full := FullName(dataset, SnapSuffix(other, app, nanos));
      OrphanIfUnread(mine, full, [full], []);
      NothingInUse();
      assert full in Orphans(mine, [full], []);
    }
    if CanReap(mine, other) {
      var dataset, app, nanos, listing, paths :|
        '@' !in dataset && Keys.ValidApp(app) &&
        FullName(dataset, SnapSuffix(other, app, nanos)) in Orphans(mine, listing, paths);
      assert OwnsSnapshot(mine, FullName(dataset, SnapSuffix(other, app, nanos)));
    }
  }

  lemma NothingInUse()
    ensures InUse([]) == {}
  {
  }

  lemma PrefixOf(instance: string)
    requires instance != "" && AllSafe(instance)
    ensures SnapPrefix(instance) == "sabon-" + instance + "-"
  {
    SanitizeSafe(instance);
  }

  /** Two instances called "a" and "a-b": each can destroy the other's snapshots. */
  lemma PrefixedInstance()
    ensures CanReap("a", "a-b") && CanReap("a-b", "a")
  {
    hide CanReap;
    PrefixOf("a");
    PrefixOf("a-b");
    var p, q := SnapPrefix("a"), SnapPrefix("a-b");
    assert p <= q && q[|p|..] == "b-";
    CanReapExactly("a", "a-b");
    CanReapExactly("a-b", "a");
  }

  /** Called "a" and "a-..", only the first can: no app may have two dots in a row. */
  lemma DottedInstance()
    ensures CanReap("a", "a-..") && !CanReap("a-..", "a")
  {
    hide CanReap;
    PrefixOf("a");
    PrefixOf("a-..");
    var p, q := SnapPrefix("a"), SnapPrefix("a-..");
    assert p <= q && q[|p|..] == "..-" && Keys.DotsAt("..-", 0);
    CanReapExactly("a", "a-..");
    CanReapExactly("a-..", "a");
  }

  /** A dataset mounted inside the snapshot directory of another: the snapshot its mover
      reads is destroyed. */
  lemma NestedMountIsReaped(instance: string, app: string, nanos: nat)
    ensures var mp := Abs(["x", ZFS_DIR, SNAPSHOT_DIR, "y"]);
            var s, d, snap := Source("data", mp), Dataset("tank", mp), SnapSuffix(instance, app, nanos);
            && OnZfs(s, [d])
            && FullName("tank", snap) in
                 Orphans(instance, [FullName("tank", snap)], [MountOf(s, Lookup(mp, [d]).value, snap).hostPath])
  {
    hide SnapSuffix, Orphans, MountOf, NameAfterPair, SnapshotNameFromPath;
    var a := ["x", ZFS_DIR, SNAPSHOT_DIR, "y"];
    var mp := Abs(a);
    var s, d, snap := Source("data", mp), Dataset("tank", mp), SnapSuffix(instance, app, nanos);
    NestedSegments();
    assert Lookup(mp, [d]) == Some(Match(d, "")) by {
      hide Segments, Abs;
      assert [d][..0] == [];
      assert LookupClean(mp, []) == None;
    }
    assert PairAt(a, 1);
    NameOfNested(instance, app, nanos);
    var path := MountOf(s, Lookup(mp, [d]).value, snap).hostPath;
    assert MountPaths([s], [d], snap) == [path];
    ReapedExactly(instance, app, nanos, [s], [d], 0, [FullName("tank", snap)], [path]);
  }

  lemma NestedSegments()
    ensures var a := ["x", ZFS_DIR, SNAPSHOT_DIR, "y"];
            AllProper(a) && Segments(Abs(a)) == a && Clean(Abs(a)) == Abs(a) && IsAbs(Abs(a))
  {
    hide Segments, Clean;
    SegmentsOfAbs(["x", ZFS_DIR, SNAPSHOT_DIR, "y"]);
  }

  lemma NameOfNested(instance: string, app: string, nanos: nat)
    ensures NameAfterPair(["x", ZFS_DIR, SNAPSHOT_DIR, "y"] + [ZFS_DIR]) == "y" != SnapSuffix(instance, app, nanos)
  {
    hide Sanitize;
    var s := ["x", ZFS_DIR, SNAPSHOT_DIR, "y"] + [ZFS_DIR];
    assert s[1..] == [ZFS_DIR, SNAPSHOT_DIR, "y", ZFS_DIR];
    assert s[0] != ZFS_DIR;
    assert SnapSuffix(instance, app, nanos)[0] == 's';
  }
}
