/**
 Snapshot names: how an instance marks its own, and how a read path that a mover
 has mounted leads back to the snapshot behind it.
 */
module ZfsNames {
  import opened Paths
  import opened Decimal
  import Keys

  // ---------------------------------------------------------- string helpers

  function Index(s: string, sub: string): int {
    if sub <= s then 0
    else if s == "" then -1
    else
      var i := Index(s[1..], sub);
      if i < 0 then -1 else i + 1
  }

  lemma IndexFits(s: string, sub: string)
    ensures Index(s, sub) >= 0 ==> Index(s, sub) + |sub| <= |s|
  {
  }

  /** strings.Cut: what stands before the first separator. */
  function CutBefore(s: string, sep: char): string {
    if s == "" || s[0] == sep then "" else [s[0]] + CutBefore(s[1..], sep)
  }

  function CutAfter(s: string, sep: char): string {
    if s == "" then "" else if s[0] == sep then s[1..] else CutAfter(s[1..], sep)
  }

  lemma {:induction false} CutConcat(x: string, sep: char, y: string)
    requires sep !in x
    ensures CutBefore(x + [sep] + y, sep) == x && CutAfter(x + [sep] + y, sep) == y
    ensures CutBefore(x, sep) == x
  {
    if x == "" {
      assert x + [sep] + y == [sep] + y;
    } else {
      assert (x + [sep] + y)[1..] == x[1..] + [sep] + y;
      CutConcat(x[1..], sep, y);
      assert [x[0]] + x[1..] == x;
    }
  }

  // --------------------------------------------------------------- read paths

  const ZFS_DIR := ".zfs"
  const SNAPSHOT_DIR := "snapshot"
  const MARKER := "/.zfs/snapshot/"

  /** readPath: where a dataset's snapshot exposes `sub`. */
  function ReadPath(mountpoint: string, snap: string, sub: string): string {
    var base := JoinPath([mountpoint, ZFS_DIR, SNAPSHOT_DIR, snap]);
    if sub == "" then base else JoinPath([base, sub])
  }

  function SnapshotNameFromPath(p: string): string {
    var i := Index(p, MARKER);
    IndexFits(p, MARKER);
    if i < 0 then "" else CutBefore(p[i + |MARKER|..], '/')
  }

  /** The same on a list of segments: the one behind the first `.zfs`, `snapshot` pair. */
  function NameAfterPair(segs: seq<string>): string {
    if |segs| < 3 then ""
    else if segs[0] == ZFS_DIR && segs[1] == SNAPSHOT_DIR then segs[2]
    else NameAfterPair(segs[1..])
  }

  lemma {:induction false} IndexSkips(x: string, t: string)
    requires NoSlash(x)
    ensures Index(x + t, MARKER) == if Index(t, MARKER) < 0 then -1 else |x| + Index(t, MARKER)
  {
    if x == "" {
      assert x + t == t;
    } else {
      IndexSkips(x[1..], t);
      assert (x + t)[1..] == x[1..] + t && (x + t)[0] == x[0] != '/' == MARKER[0];
    }
  }

  lemma MarkerIsTerminated()
    ensures MARKER == "/" + Terminated([ZFS_DIR, SNAPSHOT_DIR])
    ensures Join([ZFS_DIR, SNAPSHOT_DIR]) + "/" == Terminated([ZFS_DIR, SNAPSHOT_DIR])
    ensures AllProper([ZFS_DIR, SNAPSHOT_DIR])
  {
    JoinTerminated([ZFS_DIR, SNAPSHOT_DIR]);
    assert [ZFS_DIR, SNAPSHOT_DIR][1..] == [SNAPSHOT_DIR] && [SNAPSHOT_DIR][1..] == [];
    assert Terminated([SNAPSHOT_DIR]) == SNAPSHOT_DIR + "/";
  }

  /** The marker starts a clean absolute path exactly when the pair starts its segments. */
  lemma MarkerStarts(segs: seq<string>)
    requires AllProper(segs)
    ensures MARKER <= Abs(segs) <==> |segs| >= 3 && segs[0] == ZFS_DIR && segs[1] == SNAPSHOT_DIR
    ensures MARKER <= Abs(segs) ==> Abs(segs)[|MARKER|..] == Join(segs[2..])
  {
    hide AllProper, Terminated, Join;
    var pair := [ZFS_DIR, SNAPSHOT_DIR];
    MarkerIsTerminated();
    JoinPrefix(pair, segs);
    assert MARKER <= Abs(segs) <==> Terminated(pair) <= Join(segs) by {
      assert MARKER[1..] == Terminated(pair) && Abs(segs)[1..] == Join(segs);
    }
    assert pair < segs <==> |segs| >= 3 && segs[0] == ZFS_DIR && segs[1] == SNAPSHOT_DIR by {
      if |segs| >= 3 && segs[0] == ZFS_DIR && segs[1] == SNAPSHOT_DIR {
        assert segs[..2] == pair;
      }
    }
    if pair < segs {
      assert Abs(segs) == MARKER + Join(segs[2..]);
    }
  }

  lemma CutJoin(segs: seq<string>)
    requires AllProper(segs) && segs != []
    ensures CutBefore(Join(segs), '/') == segs[0]
  {
    assert Proper(segs[0]);
    CutConcat(segs[0], '/', if |segs| == 1 then "" else Join(segs[1..]));
  }

  /** On clean absolute paths the string search and the segment search agree. */
  lemma {:induction false} NameFromSegments(segs: seq<string>)
    requires AllProper(segs)
    ensures SnapshotNameFromPath(Abs(segs)) == NameAfterPair(segs)
    decreases |segs|
  {
    hide AllProper, Join, CutBefore;
    MarkerStarts(segs);
    if MARKER <= Abs(segs) {
      ProperTail(segs, 2);
      CutJoin(segs[2..]);
    } else if |segs| <= 1 {
      ShortHasNoMarker(segs);
    } else {
      ProperTail(segs, 1);
      NameFromSegments(segs[1..]);
      SkipSegment(segs);
    }
  }

  lemma ProperTail(segs: seq<string>, n: nat)
    requires AllProper(segs) && n <= |segs|
    ensures AllProper(segs[n..])
  {
  }

  lemma ShortHasNoMarker(segs: seq<string>)
    requires AllProper(segs) && |segs| <= 1 && !(MARKER <= Abs(segs))
    ensures Index(Abs(segs), MARKER) == -1
  {
    var x := Join(segs);
    assert NoSlash(x) by {
      if segs != [] {
        assert Proper(segs[0]);
      }
    }
    IndexSkips(x, "");
    assert x + "" == x && Abs(segs)[1..] == x;
  }

  lemma DropConcat(u: string, t: string, n: nat)
    requires n <= |t|
    ensures (u + t)[|u| + n..] == t[n..]
  {
  }

  /** Without a match at its start, the search goes on behind the first segment. */
  lemma SkipSegment(segs: seq<string>)
    requires AllProper(segs) && |segs| >= 2 && !(MARKER <= Abs(segs))
    ensures SnapshotNameFromPath(Abs(segs)) == SnapshotNameFromPath(Abs(segs[1..]))
  {
    hide CutBefore, AllProper, Index;
    var x, t := segs[0], Abs(segs[1..]);
    var u := "/" + x;
    assert NoSlash(x) by { ProperAt(segs, 0); }
    assert Abs(segs) == u + t;
    IndexSkipsSlash(x, t);
    IndexFits(t, MARKER);
    if Index(t, MARKER) >= 0 {
      DropConcat(u, t, Index(t, MARKER) + |MARKER|);
    }
  }

  lemma ProperAt(segs: seq<string>, i: nat)
    requires AllProper(segs) && i < |segs|
    ensures Proper(segs[i])
  {
  }

  lemma IndexSkipsSlash(x: string, t: string)
    requires NoSlash(x) && !(MARKER <= "/" + x + t)
    ensures var i := Index(t, MARKER); Index("/" + x + t, MARKER) == if i < 0 then -1 else 1 + |x| + i
  {
    IndexSkips(x, t);
    assert ("/" + x + t)[1..] == x + t;
  }

  // ---------------------------------------------------- there and back again

  lemma JoinFour(mp: string, snap: string)
    requires mp != "" && snap != ""
    ensures JoinPath([mp, ZFS_DIR, SNAPSHOT_DIR, snap]) == Clean(mp + "/" + Join([ZFS_DIR, SNAPSHOT_DIR, snap]))
  {
    hide Clean;
    var l := [mp, ZFS_DIR, SNAPSHOT_DIR, snap];
    assert l[1..] == [ZFS_DIR, SNAPSHOT_DIR, snap] && l[1..][1..] == [SNAPSHOT_DIR, snap]
        && l[1..][1..][1..] == [snap] && [snap][1..] == [];
    assert NonEmpty([snap]) == [snap];
    assert NonEmpty([SNAPSHOT_DIR, snap]) == [SNAPSHOT_DIR, snap];
    assert NonEmpty([ZFS_DIR, SNAPSHOT_DIR, snap]) == [ZFS_DIR, SNAPSHOT_DIR, snap];
    assert NonEmpty(l) == l;
  }

  /** The read path of a snapshot, as segments. */
  function ReadSegments(mountpoint: string, snap: string, below: seq<string>): seq<string> {
    Segments(mountpoint) + [ZFS_DIR, SNAPSHOT_DIR, snap] + below
  }

  lemma ReadPathIsClean(mountpoint: string, snap: string, below: seq<string>)
    requires IsAbs(mountpoint) && Proper(snap) && AllProper(below)
    ensures AllProper(ReadSegments(mountpoint, snap, below))
    ensures ReadSegments(mountpoint, snap, below) == Segments(mountpoint) + [".zfs", "snapshot", snap] + below
    ensures ReadPath(mountpoint, snap, Join(below)) == Abs(ReadSegments(mountpoint, snap, below))
  {
    hide Segments, Clean, Join, NonEmpty;
    var tail, base := [ZFS_DIR, SNAPSHOT_DIR, snap], Segments(mountpoint) + [ZFS_DIR, SNAPSHOT_DIR, snap];
    JoinFour(mountpoint, snap);
    assert AllProper(tail);
    CleanAppend(mountpoint, tail);
    SegmentsProper(mountpoint);
    assert AllProper(base);
    BelowBase(base, below);
  }

  lemma BelowBase(base: seq<string>, below: seq<string>)
    requires AllProper(base) && AllProper(below)
    ensures var sub := Join(below);
            (if sub == "" then Abs(base) else JoinPath([Abs(base), sub])) == Abs(base + below)
  {
    hide Clean, Segments;
    SegmentsOfAbs(base);
    if below == [] {
      assert base + below == base;
    } else {
      assert Proper(below[0]);
      var l := [Abs(base), Join(below)];
      assert l[1..] == [Join(below)] && [Join(below)][1..] == [];
      assert NonEmpty([Join(below)]) == [Join(below)];
      assert NonEmpty(l) == l;
      assert Join(l) == Abs(base) + "/" + Join(below);
      CleanAppend(Abs(base), below);
    }
  }

  /** The mountpoint itself lies inside some dataset's snapshot directory. */
  predicate InsideSnapshot(segs: seq<string>) {
    exists i :: 0 <= i < |segs| - 1 && PairAt(segs, i)
  }

  predicate PairAt(segs: seq<string>, i: nat)
    requires i < |segs| - 1
  {
    segs[i] == ZFS_DIR && segs[i + 1] == SNAPSHOT_DIR
  }

  lemma {:induction false} NameBehindMountpoint(a: seq<string>, snap: string, below: seq<string>)
    requires !InsideSnapshot(a)
    ensures NameAfterPair(a + [ZFS_DIR, SNAPSHOT_DIR, snap] + below) == snap
    decreases |a|
  {
    var s := a + [ZFS_DIR, SNAPSHOT_DIR, snap] + below;
    if a != [] {
      assert s[1..] == a[1..] + [ZFS_DIR, SNAPSHOT_DIR, snap] + below;
      assert !InsideSnapshot(a[1..]) by {
        assert forall i | 0 <= i < |a| - 2 :: PairAt(a[1..], i) ==> PairAt(a, i + 1);
      }
      assert !(s[0] == ZFS_DIR && s[1] == SNAPSHOT_DIR) by {
        if |a| >= 2 {
          assert s[0] == a[0] && s[1] == a[1] && !PairAt(a, 0);
        }
      }
      NameBehindMountpoint(a[1..], snap, below);
    }
  }

  /** Inside a snapshot directory the first pair belongs to the outer snapshot. */
  lemma {:induction false} NameInsideSnapshot(a: seq<string>, snap: string, below: seq<string>)
    requires InsideSnapshot(a)
    ensures NameAfterPair(a + [ZFS_DIR, SNAPSHOT_DIR, snap] + below) == NameAfterPair(a + [ZFS_DIR])
    decreases |a|
  {
    var s := a + [ZFS_DIR, SNAPSHOT_DIR, snap] + below;
    if a[0] == ZFS_DIR && a[1] == SNAPSHOT_DIR {
    } else {
      assert s[1..] == a[1..] + [ZFS_DIR, SNAPSHOT_DIR, snap] + below;
      assert (a + [ZFS_DIR])[1..] == a[1..] + [ZFS_DIR];
      var i :| 0 <= i < |a| - 1 && PairAt(a, i);
      assert PairAt(a[1..], i - 1);
      NameInsideSnapshot(a[1..], snap, below);
    }
  }

  /** A mover's read path leads back to its snapshot exactly when the dataset is not itself
      mounted inside a snapshot directory, short of one whose snapshot has the same name. */
  lemma ReadPathRoundTrip(mountpoint: string, snap: string, below: seq<string>)
    requires IsAbs(mountpoint) && Proper(snap) && AllProper(below)
    ensures var a := Segments(mountpoint);
            SnapshotNameFromPath(ReadPath(mountpoint, snap, Join(below))) == snap <==>
              !InsideSnapshot(a) || NameAfterPair(a + [ZFS_DIR]) == snap
  {
    hide Segments, Clean, Join, NonEmpty, SnapshotNameFromPath, ReadPath, NameAfterPair, InsideSnapshot, AllProper;
    ReadPathIsClean(mountpoint, snap, below);
    NameFromSegments(ReadSegments(mountpoint, snap, below));
    if InsideSnapshot(Segments(mountpoint)) {
      NameInsideSnapshot(Segments(mountpoint), snap, below);
    } else {
      NameBehindMountpoint(Segments(mountpoint), snap, below);
    }
  }

  // ----------------------------------------------------------- whose it is

  predicate Safe(c: char) {
    'a' <= c <= 'z' || 'A' <= c <= 'Z' || '0' <= c <= '9' || c == '-' || c == '_' || c == '.' || c == ':'
  }

  predicate AllSafe(s: string) {
    forall i | 0 <= i < |s| :: Safe(s[i])
  }

  function Replace(s: string): string {
    if s == "" then "" else [if Safe(s[0]) then s[0] else '-'] + Replace(s[1..])
  }

  /** sanitize: only characters valid in a snapshot name, and never nothing. */
  function Sanitize(s: string): string {
    if s == "" then "app" else Replace(s)
  }

  function SnapPrefix(instance: string): string {
    "sabon-" + Sanitize(if instance == "" then "default" else instance) + "-"
  }

  /** snapSuffix, at a given time. */
  function SnapSuffix(instance: string, app: string, nanos: nat): string {
    SnapPrefix(instance) + Sanitize(app) + "-" + Format(nanos)
  }

  predicate OwnsSnapshot(instance: string, full: string) {
    '@' in full && SnapPrefix(instance) <= CutAfter(full, '@')
  }

  lemma {:induction false} ReplaceSafe(s: string)
    ensures |Replace(s)| == |s| && AllSafe(Replace(s)) && (AllSafe(s) ==> Replace(s) == s)
  {
    if s != "" {
      ReplaceSafe(s[1..]);
      assert AllSafe(s) ==> AllSafe(s[1..]);
      assert [s[0]] + s[1..] == s;
    }
  }

  lemma SanitizeSafe(s: string)
    ensures Sanitize(s) != "" && AllSafe(Sanitize(s)) && (s != "" && AllSafe(s) ==> Sanitize(s) == s)
  {
    ReplaceSafe(s);
  }

  lemma PrefixSafe(instance: string)
    ensures AllSafe(SnapPrefix(instance)) && |SnapPrefix(instance)| > 6
    ensures SnapPrefix(instance)[0] == 's' && SnapPrefix(instance)[|SnapPrefix(instance)| - 1] == '-'
  {
    SanitizeSafe(if instance == "" then "default" else instance);
    assert AllSafe("sabon-");
  }

  /** A snapshot name is one proper path segment. */
  lemma SuffixProper(instance: string, app: string, nanos: nat)
    ensures Proper(SnapSuffix(instance, app, nanos)) && '@' !in SnapSuffix(instance, app, nanos)
  {
    PrefixSafe(instance);
    SanitizeSafe(app);
    FormatValue(nanos);
    var s := SnapSuffix(instance, app, nanos);
    assert AllSafe(s) by {
      assert forall i | 0 <= i < |Format(nanos)| :: Safe(Format(nanos)[i]) by {
        assert forall i | 0 <= i < |Format(nanos)| :: IsDigit(Format(nanos)[i]);
      }
    }
    assert s[0] == 's';
    assert !Safe('/') && !Safe('@');
  }

  function FullName(dataset: string, suffix: string): string {
    dataset + "@" + suffix
  }

  lemma FullNameSplits(dataset: string, suffix: string)
    requires '@' !in dataset
    ensures '@' in FullName(dataset, suffix)
    ensures CutAfter(FullName(dataset, suffix), '@') == suffix && CutBefore(FullName(dataset, suffix), '@') == dataset
  {
    CutConcat(dataset, '@', suffix);
    assert FullName(dataset, suffix)[|dataset|] == '@';
  }

  /** An instance recognises every snapshot it takes. */
  lemma OwnsItsOwn(instance: string, dataset: string, app: string, nanos: nat)
    requires '@' !in dataset
    ensures OwnsSnapshot(instance, FullName(dataset, SnapSuffix(instance, app, nanos)))
  {
    FullNameSplits(dataset, SnapSuffix(instance, app, nanos));
  }

  predicate Comparable(p: string, q: string) {
    p <= q || q <= p
  }

  /** Whatever the app is called, an owned snapshot needs one prefix to start the other. */
  lemma OwnedMeansComparable(mine: string, other: string, dataset: string, app: string, nanos: nat)
    requires '@' !in dataset && OwnsSnapshot(mine, FullName(dataset, SnapSuffix(other, app, nanos)))
    ensures Comparable(SnapPrefix(mine), SnapPrefix(other))
    ensures SnapPrefix(mine) <= SnapPrefix(other) + Tail(app, nanos)
  {
    hide SnapPrefix, Sanitize, CutAfter;
    FullNameSplits(dataset, SnapSuffix(other, app, nanos));
    assert SnapSuffix(other, app, nanos) == SnapPrefix(other) + Tail(app, nanos);
  }

  /** What follows the prefix in a snapshot name. */
  function Tail(app: string, nanos: nat): string {
    Sanitize(app) + "-" + Format(nanos)
  }

  lemma {:induction false} ReplaceAt(s: string, i: nat)
    requires i < |s|
    ensures |Replace(s)| == |s| && Replace(s)[i] == (if Safe(s[i]) then s[i] else '-')
  {
    ReplaceSafe(s);
    if i > 0 {
      ReplaceAt(s[1..], i - 1);
    }
  }

  /** sanitize, character by character: what may stand in a snapshot name stays, all else
      becomes a dash, and no name becomes "app". */
  lemma SanitizeSpelled(s: string, i: nat)
    ensures Sanitize("") == "app"
    ensures s != "" ==> |Sanitize(s)| == |s|
    ensures i < |s| && (s[i] in "-_.:" || 'a' <= s[i] <= 'z' || 'A' <= s[i] <= 'Z' || '0' <= s[i] <= '9') ==>
              Sanitize(s)[i] == s[i]
    ensures i < |s| && s[i] !in "-_.:" && !('a' <= s[i] <= 'z' || 'A' <= s[i] <= 'Z' || '0' <= s[i] <= '9') ==>
              Sanitize(s)[i] == '-'
  {
    ReplaceSafe(s);
    if i < |s| {
      ReplaceAt(s, i);
    }
  }

  /** A snapshot is called after the instance, the app and the time, and owned by whoever
      finds its own prefix behind the `@`. */
  lemma SuffixSpelled(instance: string, app: string, nanos: nat, dataset: string, suffix: string)
    ensures SnapSuffix("", app, nanos) == "sabon-default-" + Sanitize(app) + "-" + Format(nanos)
    ensures instance != "" ==>
              var prefix := "sabon-" + Sanitize(instance) + "-";
              SnapSuffix(instance, app, nanos) == prefix + Sanitize(app) + "-" + Format(nanos)
    ensures '@' !in dataset ==> !OwnsSnapshot(instance, dataset)
    ensures '@' !in dataset && instance != "" ==>
              (OwnsSnapshot(instance, dataset + "@" + suffix) <==> "sabon-" + Sanitize(instance) + "-" <= suffix)
    ensures '@' !in dataset ==> (OwnsSnapshot("", dataset + "@" + suffix) <==> "sabon-default-" <= suffix)
  {
    hide CutAfter, Replace;
    DefaultPrefix();
    if '@' !in dataset {
      FullNameSplits(dataset, suffix);
    }
  }

  lemma DefaultPrefix()
    ensures SnapPrefix("") == "sabon-default-"
  {
    hide Replace;
    SanitizeSafe("default");
  }

  /** A valid app's name has no dots in a row once sanitised either. */
  lemma TailIsPlain(app: string, nanos: nat)
    requires Keys.ValidApp(app)
    ensures Keys.Plain(Tail(app, nanos))
  {
    hide Replace;
    SanitizeSafe(app);
    ReplaceSafe(app);
    FormatValue(nanos);
    var n, d, t := Sanitize(app), Format(nanos), Tail(app, nanos);
    forall i | 0 <= i < |t| - 1 ensures !Keys.DotsAt(t, i) {
      if i + 1 < |n| {
        ReplaceAt(app, i);
        ReplaceAt(app, i + 1);
        assert !Keys.DotsAt(app, i);
      } else {
        assert t[i + 1] == '-' || IsDigit(d[i - |n|]);
      }
    }
    assert AllSafe(n) && AllDigits(d);
  }

  /** p is the prefix of an instance that can take snapshots named with q for its own. */
  predicate Trespasses(p: string, q: string) {
    p <= q || (q <= p && Keys.Plain(p[|q|..]))
  }

  /** The instance owns some snapshot the other one takes for a valid app. */
  ghost predicate CanOwn(mine: string, other: string) {
    exists dataset, app, nanos ::
      '@' !in dataset && Keys.ValidApp(app) && OwnsSnapshot(mine, FullName(dataset, SnapSuffix(other, app, nanos)))
  }

  /** One instance takes a snapshot of another for its own exactly when its prefix starts the
      other's, or continues it without two dots in a row. */
  lemma OwnershipExactly(mine: string, other: string)
    ensures CanOwn(mine, other) <==> Trespasses(SnapPrefix(mine), SnapPrefix(other))
  {
    hide SnapPrefix, Sanitize, CutAfter, OwnsSnapshot, Keys.ValidApp, Keys.Plain;
    var p, q := SnapPrefix(mine), SnapPrefix(other);
    if CanOwn(mine, other) {
      var dataset, app, nanos :|
        '@' !in dataset && Keys.ValidApp(app) && OwnsSnapshot(mine, FullName(dataset, SnapSuffix(other, app, nanos)));
      OwnedMeansComparable(mine, other, dataset, app, nanos);
      TailIsPlain(app, nanos);
      Continues(p, q, Tail(app, nanos));
    }
    if Trespasses(p, q) {
      var app := Trespassed(mine, other);
      OwnsIfPrefix(mine, "tank", SnapSuffix(other, app, 0));
    }
  }

  lemma OwnsIfPrefix(instance: string, dataset: string, suffix: string)
    requires '@' !in dataset && SnapPrefix(instance) <= suffix
    ensures OwnsSnapshot(instance, FullName(dataset, suffix))
  {
    hide SnapPrefix, CutAfter;
    FullNameSplits(dataset, suffix);
  }

  lemma Continues(p: string, q: string, t: string)
    requires p <= q + t && Keys.Plain(t)
    ensures Trespasses(p, q)
  {
    if |q| < |p| {
      var r := p[|q|..];
      assert q == (q + t)[..|q|] && r == t[0..|r|];
      Keys.PlainPart(t, 0, |r|);
    } else {
      assert p == (q + t)[..|p|] == q[..|p|];
    }
  }

  /** An app whose snapshots the other instance would take for its own. */
  lemma Trespassed(mine: string, other: string) returns (app: string)
    requires Trespasses(SnapPrefix(mine), SnapPrefix(other))
    ensures Keys.ValidApp(app) && SnapPrefix(mine) <= SnapSuffix(other, app, 0)
  {
    hide SnapPrefix, Sanitize;
    var p, q := SnapPrefix(mine), SnapPrefix(other);
    if p <= q {
      app := "x";
      assert q <= SnapSuffix(other, app, 0);
    } else {
      app := p[|q|..];
      PrefixSafe(mine);
      assert AllSafe(app);
      SanitizeSafe(app);
      assert p == q + app;
      assert SnapSuffix(other, app, 0) == p + ("-" + Format(0));
    }
  }
}
