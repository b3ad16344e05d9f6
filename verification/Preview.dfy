/**
 validate's preview of the snapshot decision, and its agreement with the run:
 given the same provider answers, what is previewed is what the run does.
 */
module Preview {
  import opened Lists
  import opened SourceMounts
  import ZfsPaths
  import ZfsNames
  import ZfsSnapshot

  /** snapshot.Resolution. */
  datatype Resolution = Resolution(name: string, path: string, snapshottable: bool, detail: string)

  /** The providers a mode asks; None for a mode nobody registered. */
  function Candidates(mode: string, ps: seq<Provider>): Option<seq<Provider>> {
    if mode == "" || mode == "none" then Some([])
    else if mode == "auto" then Some(ps)
    else if ModeIndex(ps, mode) < |ps| then Some([ps[ModeIndex(ps, mode)]])
    else None
  }

  /** The first remark a usable provider makes about a source. */
  function Remark(cs: seq<Provider>, h: HostSource): string {
    if cs == [] then ""
    else
      var n := |cs| - 1;
      var before := Remark(cs[..n], h);
      if before == "" && cs[n].available then cs[n].detail(h) else before
  }

  function Reason(s: Source, vols: Volumes): string
    requires Known(s, vols)
  {
    if s.kind.Volume? then vols[s.ref].foreign else ""
  }

  /** The preview of one source: who would snapshot it, or why nobody would. */
  function Shown(cs: seq<Provider>, h: HostSource, foreign: string): Resolution {
    if foreign != "" then Resolution(h.name, h.path, false, foreign)
    else if FirstAble(cs, h) < |cs| then Resolution(h.name, h.path, true, cs[FirstAble(cs, h)].detail(h))
    else Resolution(h.name, h.path, false, Remark(cs, h))
  }

  ghost predicate Previewed(cs: seq<Provider>, sources: seq<Source>, vols: Volumes, res: seq<Resolution>) {
    && AllKnown(sources, vols) && |res| == |sources|
    && forall i | 0 <= i < |sources| :: res[i] == Shown(cs, OnHost(sources[i], vols), Reason(sources[i], vols))
  }

  /** Snapshotter.Resolve of a usable provider: one answer per source. */
  function Answers(p: Provider, hs: seq<HostSource>): seq<Resolution> {
    seq(|hs|, i requires 0 <= i < |hs| => Resolution(hs[i].name, hs[i].path, p.able(hs[i]), p.detail(hs[i])))
  }

  lemma {:induction false} FirstAbleSnoc(cs: seq<Provider>, p: Provider, h: HostSource)
    ensures FirstAble(cs, h) <= |cs|
    ensures FirstAble(cs + [p], h) ==
            if FirstAble(cs, h) < |cs| then FirstAble(cs, h)
            else if p.available && p.able(h) then |cs|
            else |cs| + 1
  {
    if cs == [] {
      assert cs + [p] == [p] && [p][1..] == [];
    } else {
      assert (cs + [p])[1..] == cs[1..] + [p];
      FirstAbleSnoc(cs[1..], p, h);
    }
  }

  /** One more provider changes the preview of one source as the inner loop does. */
  lemma ShownSnoc(cs: seq<Provider>, p: Provider, h: HostSource, foreign: string)
    ensures var r := Shown(cs, h, foreign);
            Shown(cs + [p], h, foreign) ==
            if foreign != "" || r.snapshottable || !p.available then r
            else if p.able(h) then r.(snapshottable := true, detail := p.detail(h))
            else if r.detail == "" then r.(detail := p.detail(h))
            else r
  {
    hide FirstAble;
    FirstAbleSnoc(cs, p, h);
    assert (cs + [p])[..|cs|] == cs;
  }

  lemma ShownNobody(h: HostSource, foreign: string)
    ensures Shown([], h, foreign) == Resolution(h.name, h.path, false, foreign)
  {
  }

  /** One provider's answers entered into the table, found by source name. */
  method Enter(p: Provider, ghost cs: seq<Provider>, hs: seq<HostSource>, at: map<string, nat>,
               foreign: map<string, string>, ghost reasons: seq<string>, res: seq<Resolution>)
    returns (res': seq<Resolution>)
    requires UniqueHosts(hs) && |res| == |reasons| == |hs| && p.available
    requires forall i | 0 <= i < |hs| :: hs[i].name in at && at[hs[i].name] == i
    requires forall i | 0 <= i < |hs| :: hs[i].name in foreign <==> reasons[i] != ""
    requires forall i | 0 <= i < |hs| :: res[i] == Shown(cs, hs[i], reasons[i])
    ensures |res'| == |hs| && forall i | 0 <= i < |hs| :: res'[i] == Shown(cs + [p], hs[i], reasons[i])
  {
    hide Shown;
    var rs := Answers(p, hs);
    res' := res;
    for k := 0 to |rs|
      invariant |res'| == |hs|
      invariant forall i | 0 <= i < k :: res'[i] == Shown(cs + [p], hs[i], reasons[i])
      invariant forall i | k <= i < |hs| :: res'[i] == res[i]
    {
      var i := at[rs[k].name];
      ShownSnoc(cs, p, hs[k], reasons[k]);
      if rs[k].name in foreign || res'[i].snapshottable {
        continue;
      }
      if rs[k].snapshottable {
        res' := res'[i := res'[i].(snapshottable := true, detail := rs[k].detail)];
      } else if res'[i].detail == "" {
        res' := res'[i := res'[i].(detail := rs[k].detail)];
      }
    }
  }

  /** The table before any provider is asked, and the index by name. */
  method Table(hs: seq<HostSource>, foreign: map<string, string>, ghost reasons: seq<string>)
    returns (res: seq<Resolution>, at: map<string, nat>)
    requires UniqueHosts(hs) && |reasons| == |hs|
    requires forall i | 0 <= i < |hs| :: hs[i].name in foreign <==> reasons[i] != ""
    requires forall i | 0 <= i < |hs| && hs[i].name in foreign :: foreign[hs[i].name] == reasons[i]
    ensures forall i | 0 <= i < |hs| :: hs[i].name in at && at[hs[i].name] == i
    ensures |res| == |hs| && forall i | 0 <= i < |hs| :: res[i] == Shown([], hs[i], reasons[i])
  {
    hide Shown;
    res, at := [], map[];
    for k := 0 to |hs|
      invariant |res| == k
      invariant forall i | 0 <= i < k :: hs[i].name in at && at[hs[i].name] == i
      invariant forall i | 0 <= i < k :: res[i] == Shown([], hs[i], reasons[i])
    {
      ShownNobody(hs[k], reasons[k]);
      var reason := if hs[k].name in foreign then foreign[hs[k].name] else "";
      res := res + [Resolution(hs[k].name, hs[k].path, false, reason)];
      at := at[hs[k].name := k];
    }
  }

  /** The loop over the candidates: outside auto, one that is not usable ends it. */
  method AskAll(mode: string, cs: seq<Provider>, hs: seq<HostSource>, foreign: map<string, string>,
                ghost reasons: seq<string>) returns (r: Result<seq<Resolution>>)
    requires UniqueHosts(hs) && |reasons| == |hs|
    requires forall i | 0 <= i < |hs| :: hs[i].name in foreign <==> reasons[i] != ""
    requires forall i | 0 <= i < |hs| && hs[i].name in foreign :: foreign[hs[i].name] == reasons[i]
    ensures r.Ok? <==> mode == "auto" || forall i | 0 <= i < |cs| :: cs[i].available
    ensures r.Ok? ==> |r.value| == |hs| && forall i | 0 <= i < |hs| :: r.value[i] == Shown(cs, hs[i], reasons[i])
    ensures r.Err? ==> r.error == ProviderUnusable
  {
    hide Shown, FirstAble, Remark;
    var res, at := Table(hs, foreign, reasons);
    for k := 0 to |cs|
      invariant |res| == |hs| && forall i | 0 <= i < |hs| :: res[i] == Shown(cs[..k], hs[i], reasons[i])
      invariant mode != "auto" ==> forall i | 0 <= i < k :: cs[i].available
    {
      assert cs[..k + 1] == cs[..k] + [cs[k]];
      if !cs[k].available {
        if mode != "auto" {
          return Err(ProviderUnusable);
        }
        AddUnavailable(cs[..k], cs[k], hs, reasons);
        continue;
      }
      res := Enter(cs[k], cs[..k], hs, at, foreign, reasons, res);
    }
    assert cs[..|cs|] == cs;
    r := Ok(res);
  }

  /** PreviewSnapshots. */
  method PreviewSnapshots(mode: string, ps: seq<Provider>, sources: seq<Source>, vols: Volumes)
    returns (r: Result<seq<Resolution>>)
    requires UniqueNames(sources)
    ensures !AllKnown(sources, vols) ==> r == Err(VolumeUnknown)
    ensures AllKnown(sources, vols) && mode in {"", "none"} ==> r.Ok? && Previewed([], sources, vols, r.value)
    ensures AllKnown(sources, vols) && mode == "auto" ==> r.Ok? && Previewed(ps, sources, vols, r.value)
    ensures AllKnown(sources, vols) && mode !in {"", "none", "auto"} ==> StrictPreview(mode, ps, sources, vols, r)
  {
    hide Shown, FirstAble, Remark, Previewed;
    var resolved := ResolveHostPaths(sources, vols);
    if resolved.Err? {
      return Err(VolumeUnknown);
    }
    var (hs, foreign) := resolved.value;
    assert UniqueHosts(hs);
    ModeIndexIsFirst(ps, mode);
    if Candidates(mode, ps).None? {
      return Err(if ps == [] then NoProviders else UnknownMode);
    }
    var candidates := Candidates(mode, ps).value;
    ghost var reasons := seq(|hs|, i requires 0 <= i < |hs| => Reason(sources[i], vols));
    r := AskAll(mode, candidates, hs, foreign, reasons);
    if r.Ok? {
      ShownIsPreviewed(candidates, sources, vols, hs, reasons, r.value);
    }
    if mode !in {"", "none", "auto"} {
      assert candidates[0] == ps[ModeIndex(ps, mode)];
      assert StrictOutcome(ps, ModeIndex(ps, mode), sources, vols, r);
    }
  }

  ghost predicate StrictOutcome(ps: seq<Provider>, k: nat, sources: seq<Source>, vols: Volumes,
                                r: Result<seq<Resolution>>)
    requires k < |ps|
  {
    if ps[k].available then r.Ok? && Previewed([ps[k]], sources, vols, r.value) else r == Err(ProviderUnusable)
  }

  lemma ShownIsPreviewed(cs: seq<Provider>, sources: seq<Source>, vols: Volumes, hs: seq<HostSource>,
                         reasons: seq<string>, res: seq<Resolution>)
    requires AllKnown(sources, vols) && |res| == |reasons| == |hs| == |sources|
    requires forall i | 0 <= i < |sources| ::
               hs[i] == OnHost(sources[i], vols) && reasons[i] == Reason(sources[i], vols)
    requires forall i | 0 <= i < |hs| :: res[i] == Shown(cs, hs[i], reasons[i])
    ensures Previewed(cs, sources, vols, res)
  {
    hide Shown;
  }

  /** A strict mode previews what its first registered provider would do, if that one is
      usable on this host. */
  ghost predicate StrictPreview(mode: string, ps: seq<Provider>, sources: seq<Source>, vols: Volumes,
                                r: Result<seq<Resolution>>)
  {
    if forall i | 0 <= i < |ps| :: ps[i].mode != mode then r == Err(if ps == [] then NoProviders else UnknownMode)
    else exists k :: IsFirstMode(ps, mode, k) && StrictOutcome(ps, k, sources, vols, r)
  }

  /** No provider up to the n-th remarks anything. */
  ghost predicate Silent(cs: seq<Provider>, n: int, h: HostSource) {
    forall k | 0 <= k < n && k < |cs| && cs[k].available :: cs[k].detail(h) == ""
  }

  /** It is the first remark of a usable provider, or empty if there is none. */
  ghost predicate FirstRemark(cs: seq<Provider>, h: HostSource, detail: string) {
    if detail == "" then Silent(cs, |cs|, h)
    else exists k :: 0 <= k < |cs| && cs[k].available && Silent(cs, k, h) && cs[k].detail(h) == detail
  }

  lemma SilentPart(cs: seq<Provider>, n: nat, k: int, h: HostSource)
    requires k <= n <= |cs|
    ensures Silent(cs[..n], k, h) <==> Silent(cs, k, h)
  {
    assert forall i | 0 <= i < k :: cs[..n][i] == cs[i];
  }

  lemma SilentSnoc(cs: seq<Provider>, k: nat, h: HostSource)
    requires k < |cs|
    ensures Silent(cs, k + 1, h) <==> Silent(cs, k, h) && (cs[k].available ==> cs[k].detail(h) == "")
  {
  }

  lemma {:induction false} RemarkIsFirst(cs: seq<Provider>, h: HostSource)
    ensures FirstRemark(cs, h, Remark(cs, h))
    decreases |cs|
  {
    hide Silent;
    if cs == [] {
      NobodySpeaks(h);
    } else {
      var n := |cs| - 1;
      RemarkIsFirst(cs[..n], h);
      SilentPart(cs, n, n, h);
      SilentSnoc(cs, n, h);
      if Remark(cs[..n], h) != "" {
        var k :| 0 <= k < n && cs[..n][k].available && Silent(cs[..n], k, h) && cs[k].detail(h) == Remark(cs[..n], h);
        SilentPart(cs, n, k, h);
        assert cs[k].available;
      }
    }
  }

  lemma NobodySpeaks(h: HostSource)
    ensures Silent([], 0, h)
  {
  }

  /** What a preview says of a source, on the fields: a foreign volume is never snapshottable
      and shows the reason; any other source is so exactly if some usable provider is able,
      and shows that first one's detail, else the first remark there is. */
  lemma PreviewSpelled(cs: seq<Provider>, sources: seq<Source>, vols: Volumes, res: seq<Resolution>, i: nat)
    requires Previewed(cs, sources, vols, res) && i < |sources|
    ensures var s := sources[i];
            var h := HostSource(s.name, if s.kind == Bind then s.ref else vols[s.ref].path);
            var foreign := s.kind == Volume && vols[s.ref].foreign != "";
            && res[i].name == s.name && res[i].path == h.path
            && (foreign ==> !res[i].snapshottable && res[i].detail == vols[s.ref].foreign)
            && (res[i].snapshottable <==> !foreign && exists k :: 0 <= k < |cs| && cs[k].available && cs[k].able(h))
            && (res[i].snapshottable ==> FirstUsable(cs, h, res[i].detail))
            && (!foreign && !res[i].snapshottable ==> FirstRemark(cs, h, res[i].detail))
  {
    hide FirstAble, Remark;
    var h := OnHost(sources[i], vols);
    FirstAbleIsFirst(cs, h);
    RemarkIsFirst(cs, h);
  }

  /** It is the detail of the first provider that is usable and able. */
  ghost predicate FirstUsable(cs: seq<Provider>, h: HostSource, detail: string) {
    exists k :: 0 <= k < |cs| && cs[k].available && cs[k].able(h) && cs[k].detail(h) == detail &&
      forall j | 0 <= j < k :: !(cs[j].available && cs[j].able(h))
  }

  lemma AddUnavailable(cs: seq<Provider>, p: Provider, hs: seq<HostSource>, reasons: seq<string>)
    requires !p.available && |reasons| == |hs|
    ensures forall i | 0 <= i < |hs| :: Shown(cs + [p], hs[i], reasons[i]) == Shown(cs, hs[i], reasons[i])
  {
    hide Shown;
    forall i | 0 <= i < |hs| ensures Shown(cs + [p], hs[i], reasons[i]) == Shown(cs, hs[i], reasons[i]) {
      ShownSnoc(cs, p, hs[i], reasons[i]);
    }
  }

  // ------------------------------------------------- agreement with the run

  lemma TargetInjective(a: string, b: string)
    requires Target(a) == Target(b)
    ensures a == b
  {
    assert Target(a)[|DATA_MOUNT| + 1..] == a && Target(b)[|DATA_MOUNT| + 1..] == b;
  }

  /** In auto mode the run mounts a snapshot at a source's path exactly when the source was
      previewed snapshottable, taken by the provider the preview names; else the live source. */
  lemma AutoPreviewAgrees(ps: seq<Provider>, sources: seq<Source>, vols: Volumes, res: seq<Resolution>,
                          ms: seq<Mount>, i: nat)
    requires UniqueNames(sources) && i < |sources|
    requires Previewed(ps, sources, vols, res) && AutoOk(ps, sources, vols, ms)
    ensures exists m :: m in ms && m.target == Target(sources[i].name)
    ensures var h := OnHost(sources[i], vols);
            forall m | m in ms && m.target == Target(sources[i].name) ::
              if res[i].snapshottable
              then FirstAble(ps, h) < |ps| && m == SnapMount(ps[FirstAble(ps, h)], h) &&
                   res[i].detail == ps[FirstAble(ps, h)].detail(h)
              else m == LiveMount(sources[i], true)
  {
    hide FirstAble, Remark, Target;
    var hs, foreign :| AutoList(ps, sources, vols, hs, foreign, ms);
    OnlyMountAt(ps, sources, vols, hs, foreign, ms, i);
    FirstAbleIsFirst(ps, hs[i]);
  }

  lemma OnlyMountAt(ps: seq<Provider>, sources: seq<Source>, vols: Volumes, hs: seq<HostSource>,
                    foreign: map<string, string>, ms: seq<Mount>, i: nat)
    requires UniqueNames(sources) && i < |sources| && AutoList(ps, sources, vols, hs, foreign, ms)
    ensures var mine := AutoMount(ps, sources[i], hs[i], foreign);
            && mine in ms && mine.target == Target(sources[i].name)
            && forall m | m in ms && m.target == Target(sources[i].name) :: m == mine
  {
    hide AutoMount, AutoMountList, Target;
    var l := AutoMountList(ps, sources, hs, foreign);
    AutoTargets(ps, sources, hs, foreign);
    assert l[i] in multiset(l) && l[i] in multiset(ms);
    forall m | m in ms && m.target == Target(sources[i].name) ensures m == l[i] {
      assert m in multiset(ms) && m in multiset(l);
      var j :| 0 <= j < |l| && l[j] == m;
      TargetInjective(sources[j].name, sources[i].name);
    }
  }

  // ------------------------------------------------------------- strict zfs

  type Listing = Option<seq<ZfsPaths.Dataset>>

  function ToZfs(hs: seq<HostSource>): seq<ZfsSnapshot.Source> {
    seq(|hs|, i requires 0 <= i < |hs| => ZfsSnapshot.Source(hs[i].name, hs[i].path))
  }

  /** The zfs provider answers Resolve from a listing of the host's datasets. */
  ghost predicate AnswersFrom(p: Provider, listing: Listing) {
    && (p.available <==> listing.Some?)
    && (listing.Some? ==> forall h :: p.able(h) <==> ZfsPaths.Lookup(h.path, listing.value).Some?)
  }

  ghost predicate TookSince(host: ZfsSnapshot.Host, start: nat)
    reads host
  {
    exists i :: start <= i < |host.trace| && host.trace[i].Take?
  }

  /** The mount of a source: its sub-path inside the snapshot of its dataset. */
  function ZfsMount(h: HostSource, suffix: string, ds: seq<ZfsPaths.Dataset>): Option<Mount> {
    match ZfsPaths.Lookup(h.path, ds)
    case None => None
    case Some(m) => Some(Mount(Bind, ZfsNames.ReadPath(m.dataset.mountpoint, suffix, m.sub), Target(h.name), true))
  }

  ghost predicate AllMounted(sources: seq<Source>, vols: Volumes, suffix: string, ds: seq<ZfsPaths.Dataset>,
                             ms: seq<Mount>)
  {
    && AllKnown(sources, vols) && |ms| == |sources|
    && forall i | 0 <= i < |sources| ::
         !IsForeign(sources[i], vols) && Some(ms[i]) == ZfsMount(OnHost(sources[i], vols), suffix, ds)
  }

  /** strictMounts with the zfs provider. */
  method StrictZfs(host: ZfsSnapshot.Host, suffix: string, sources: seq<Source>, vols: Volumes, listing: Listing,
                   failing: set<string>, stuck: set<string>) returns (r: Result<seq<Mount>>)
    requires UniqueNames(sources)
    modifies host
    ensures TookSince(host, |old(host.trace)|) <==> CommandReached(sources, vols, listing)
    ensures r.Ok? ==> listing.Some? && AllMounted(sources, vols, suffix, listing.value, r.value)
    ensures r.Err? ==> old(host.live) <= host.live <= old(host.live) + stuck
  {
    hide ZfsPaths.Lookup, ZfsNames.ReadPath, Target, ZfsSnapshot.Planned, ZfsSnapshot.MountOf, AllMounted;
    var resolved := ResolveHostPaths(sources, vols);
    if resolved.Err? {
      return Err(VolumeUnknown);
    }
    var (hs, foreign) := resolved.value;
    for i := 0 to |hs|
      invariant host.trace == old(host.trace) && host.live == old(host.live)
      invariant forall j | 0 <= j < i :: !IsForeign(sources[j], vols)
    {
      if hs[i].name in foreign {
        assert IsForeign(sources[i], vols);
        return Err(NotLocal);
      }
    }
    ReachedWhenLocal(sources, vols, listing, hs);
    var took := host.Snapshot(suffix, ToZfs(hs), listing, failing, stuck);
    if !took.Ok? {
      return Err(SnapshotFailed);
    }
    var ms := seq(|took.mounts|, i requires 0 <= i < |took.mounts| =>
      Mount(Bind, took.mounts[i].hostPath, Target(took.mounts[i].name), true));
    MountedAsPlanned(sources, vols, hs, suffix, listing.value, took.mounts, took.names, ms);
    r := Ok(ms);
  }

  /** What the provider planned is what the sources need. */
  lemma MountedAsPlanned(sources: seq<Source>, vols: Volumes, hs: seq<HostSource>, suffix: string,
                         ds: seq<ZfsPaths.Dataset>, mounts: seq<ZfsSnapshot.Mount>, names: seq<string>,
                         ms: seq<Mount>)
    requires AllKnown(sources, vols) && |hs| == |sources|
    requires forall i | 0 <= i < |sources| :: hs[i] == OnHost(sources[i], vols) && !IsForeign(sources[i], vols)
    requires ZfsSnapshot.Planned(ToZfs(hs), ds, suffix, mounts, names) && |ms| == |mounts|
    requires forall i | 0 <= i < |ms| :: ms[i] == Mount(Bind, mounts[i].hostPath, Target(mounts[i].name), true)
    ensures AllMounted(sources, vols, suffix, ds, ms)
  {
    hide ZfsPaths.Lookup, ZfsNames.ReadPath, Target;
    forall i | 0 <= i < |sources| ensures Some(ms[i]) == ZfsMount(OnHost(sources[i], vols), suffix, ds) {
      assert ToZfs(hs)[i] == ZfsSnapshot.Source(hs[i].name, hs[i].path);
      assert ZfsSnapshot.OnZfs(ToZfs(hs)[i], ds);
    }
  }

  ghost predicate CommandReached(sources: seq<Source>, vols: Volumes, listing: Listing) {
    && AllKnown(sources, vols) && listing.Some? && sources != []
    && (forall i | 0 <= i < |sources| :: !IsForeign(sources[i], vols))
    && (forall i | 0 <= i < |sources| :: ZfsPaths.Lookup(OnHost(sources[i], vols).path, listing.value).Some?)
  }

  lemma ReachedWhenLocal(sources: seq<Source>, vols: Volumes, listing: Listing, hs: seq<HostSource>)
    requires AllKnown(sources, vols) && |hs| == |sources|
    requires forall i | 0 <= i < |sources| :: hs[i] == OnHost(sources[i], vols) && !IsForeign(sources[i], vols)
    ensures CommandReached(sources, vols, listing) <==>
            listing.Some? && ZfsSnapshot.AllOnZfs(ToZfs(hs), listing.value) && ToZfs(hs) != []
  {
    hide ZfsPaths.Lookup;
    if listing.Some? {
      assert forall i | 0 <= i < |sources| ::
          ZfsSnapshot.OnZfs(ToZfs(hs)[i], listing.value) <==>
          ZfsPaths.Lookup(OnHost(sources[i], vols).path, listing.value).Some?;
    }
  }

  /** In strict zfs mode the run reaches the snapshot command exactly when validate accepts
      the host and previews every source snapshottable (and there is a source at all). */
  lemma StrictPreviewAgrees(p: Provider, sources: seq<Source>, vols: Volumes, listing: Listing)
    requires AnswersFrom(p, listing)
    ensures CommandReached(sources, vols, listing) <==>
            sources != [] && AllKnown(sources, vols) && p.available &&
            forall i | 0 <= i < |sources| ::
              Shown([p], OnHost(sources[i], vols), Reason(sources[i], vols)).snapshottable
  {
    hide ZfsPaths.Lookup, FirstAble;
    if AllKnown(sources, vols) {
      forall i | 0 <= i < |sources|
        ensures Shown([p], OnHost(sources[i], vols), Reason(sources[i], vols)).snapshottable <==>
                !IsForeign(sources[i], vols) && p.available && p.able(OnHost(sources[i], vols))
      {
        FirstAbleIsFirst([p], OnHost(sources[i], vols));
      }
    }
  }

  // ------------------------------------------- with the target's exclusions

  lemma RemainingKnown(sources: seq<Source>, vols: Volumes, volumes: seq<string>, paths: seq<string>)
    requires AllKnown(sources, vols)
    ensures AllKnown(Remaining(sources, volumes, paths), vols)
    ensures forall s | s in Remaining(sources, volumes, paths) :: Known(s, vols)
  {
    hide Remaining, Excluded;
    RemainingExactly(sources, volumes, paths);
    var rest := Remaining(sources, volumes, paths);
    forall j | 0 <= j < |rest| ensures Known(rest[j], vols) {
      assert rest[j] in rest && rest[j] in sources;
      var i :| 0 <= i < |sources| && sources[i] == rest[j];
    }
  }

  /** A run to a target leaves out the sources the target excludes; it reaches the snapshot
      command exactly when one is left and validate previewed all that are left snapshottable. */
  lemma StrictRunAgrees(p: Provider, sources: seq<Source>, vols: Volumes, listing: Listing, volumes: seq<string>,
                        paths: seq<string>, res: seq<Resolution>)
    requires AnswersFrom(p, listing) && p.available && Previewed([p], sources, vols, res)
    ensures var rest := Remaining(sources, volumes, paths);
            CommandReached(rest, vols, listing) <==>
            rest != [] && forall i | 0 <= i < |sources| && !Excluded(sources[i], volumes, paths) :: res[i].snapshottable
  {
    hide Remaining, Excluded, Shown, CommandReached, AnswersFrom;
    var rest := Remaining(sources, volumes, paths);
    RemainingExactly(sources, volumes, paths);
    RemainingKnown(sources, vols, volumes, paths);
    StrictPreviewAgrees(p, rest, vols, listing);
    if forall i | 0 <= i < |sources| && !Excluded(sources[i], volumes, paths) :: res[i].snapshottable {
      forall j | 0 <= j < |rest| ensures Shown([p], OnHost(rest[j], vols), Reason(rest[j], vols)).snapshottable {
        assert rest[j] in rest;
        var i :| 0 <= i < |sources| && sources[i] == rest[j];
        assert res[i].snapshottable;
      }
    }
    if forall j | 0 <= j < |rest| :: Shown([p], OnHost(rest[j], vols), Reason(rest[j], vols)).snapshottable {
      forall i | 0 <= i < |sources| && !Excluded(sources[i], volumes, paths) ensures res[i].snapshottable {
        assert sources[i] in rest;
        var j :| 0 <= j < |rest| && rest[j] == sources[i];
      }
    }
  }

  /** In auto mode a run mounts each source the target does not exclude as it was previewed,
      and nothing where an excluded one would be. */
  lemma AutoRunAgrees(ps: seq<Provider>, sources: seq<Source>, vols: Volumes, res: seq<Resolution>,
                      volumes: seq<string>, paths: seq<string>, ms: seq<Mount>, i: nat)
    requires UniqueNames(sources) && i < |sources| && Previewed(ps, sources, vols, res)
    requires AutoOk(ps, Remaining(sources, volumes, paths), vols, ms)
    ensures (exists m :: m in ms && m.target == Target(sources[i].name)) <==> !Excluded(sources[i], volumes, paths)
    ensures var h := OnHost(sources[i], vols);
            forall m | m in ms && m.target == Target(sources[i].name) ::
              if res[i].snapshottable
              then FirstAble(ps, h) < |ps| && m == Mount(Bind, ps[FirstAble(ps, h)].readAt(h), m.target, true)
              else m == Mount(sources[i].kind, sources[i].ref, m.target, true)
  {
    hide Remaining, Excluded, Shown, FirstAble, AutoOk, Target, UniqueNames;
    var rest := Remaining(sources, volumes, paths);
    RemainingExactly(sources, volumes, paths);
    RemainingKnown(sources, vols, volumes, paths);
    var shown := seq(|rest|, j requires 0 <= j < |rest| => Shown(ps, OnHost(rest[j], vols), Reason(rest[j], vols)));
    if Excluded(sources[i], volumes, paths) {
      forall m | m in ms ensures m.target != Target(sources[i].name) {
        var j := MountHasSource(ps, rest, vols, ms, m);
        assert rest[j] in rest;
        OtherName(sources, i, rest[j]);
      }
    } else {
      assert sources[i] in rest;
      var j :| 0 <= j < |rest| && rest[j] == sources[i];
      AutoPreviewAgrees(ps, rest, vols, shown, ms, j);
    }
  }

  /** A source other than the i-th has another target. */
  lemma OtherName(sources: seq<Source>, i: nat, s: Source)
    requires UniqueNames(sources) && i < |sources| && s in sources && s != sources[i]
    ensures Target(s.name) != Target(sources[i].name)
  {
    hide Target;
    var k :| 0 <= k < |sources| && sources[k] == s;
    if Target(s.name) == Target(sources[i].name) {
      TargetInjective(s.name, sources[i].name);
    }
  }

  lemma MountHasSource(ps: seq<Provider>, sources: seq<Source>, vols: Volumes, ms: seq<Mount>, m: Mount)
    returns (j: nat)
    requires AutoOk(ps, sources, vols, ms) && m in ms
    ensures j < |sources| && m.target == Target(sources[j].name)
  {
    hide AutoMount, AutoMountList, Target;
    var hs, foreign :| AutoList(ps, sources, vols, hs, foreign, ms);
    var l := AutoMountList(ps, sources, hs, foreign);
    AutoTargets(ps, sources, hs, foreign);
    assert m in multiset(ms) && m in multiset(l);
    j :| 0 <= j < |l| && l[j] == m;
  }
}
