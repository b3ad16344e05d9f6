/**
 Where everything is mounted inside a mover: the sources below /data, the cache,
 the repository, the secrets and the target's own files. Validation rejects
 files by string tests on cleaned paths; here those tests are shown to mean
 "ancestor, descendant or equal", so that an accepted target never shadows one
 of sabon's own mounts.
 */
module MountTable {
  import opened Lists
  import opened Paths
  import Naming

  datatype TargetFile = TargetFile(source: string, target: string)

  datatype Target = Target(
    name: string, path: string, repo: string,
    moverLabels: set<string>,
    passwordFile: string, credentialsFile: string,
    files: seq<TargetFile>)

  const DATA := 0
  const REPO := 1
  const CACHE := 2
  const RESTORE := 3
  const PASSWORD := 4
  const CREDENTIALS := 5

  const RESERVED_COUNT := 6

  const PASSWORD_NAME := "sabon-restic-password"
  const CREDENTIALS_NAME := "sabon-aws-credentials"

  /** reservedMoverPaths. */
  function Reserved(r: nat): string
    requires r < RESERVED_COUNT
  {
    if r == DATA then "/data"
    else if r == REPO then "/repo"
    else if r == CACHE then "/cache"
    else if r == RESTORE then "/restore"
    else if r == PASSWORD then "/run/secrets/" + PASSWORD_NAME
    else "/run/secrets/" + CREDENTIALS_NAME
  }

  function ReservedSegments(r: nat): seq<string>
    requires r < RESERVED_COUNT
  {
    if r == DATA then ["data"]
    else if r == REPO then ["repo"]
    else if r == CACHE then ["cache"]
    else if r == RESTORE then ["restore"]
    else if r == PASSWORD then ["run", "secrets", PASSWORD_NAME]
    else ["run", "secrets", CREDENTIALS_NAME]
  }

  /** One path is the other or an ancestor of it. */
  predicate Related(a: seq<string>, b: seq<string>) {
    a <= b || b <= a
  }

  lemma ReservedThree(a: string, b: string, c: string)
    ensures Abs([a, b, c]) == "/" + a + "/" + b + "/" + c
  {
    assert [a, b, c][1..] == [b, c] && [b, c][1..] == [c];
    assert Join([b, c]) == b + "/" + c;
    assert Join([a, b, c]) == a + "/" + (b + "/" + c);
  }

  lemma OneProper(a: string)
    requires Proper(a)
    ensures AllProper([a]) && Abs([a]) == "/" + a
  {
  }

  lemma ThreeProper(a: string, b: string, c: string)
    requires Proper(a) && Proper(b) && Proper(c)
    ensures AllProper([a, b, c])
  {
  }

  lemma ReservedShort(r: nat)
    requires r < PASSWORD
    ensures Reserved(r) == Abs(ReservedSegments(r)) && AllProper(ReservedSegments(r))
  {
    hide Abs, AllProper;
    OneProper(Reserved(r)[1..]);
    assert Reserved(r) == "/" + Reserved(r)[1..];
  }

  lemma SecretNames()
    ensures Proper(PASSWORD_NAME) && Proper(CREDENTIALS_NAME) && PASSWORD_NAME != CREDENTIALS_NAME
  {
    assert PASSWORD_NAME[6] != CREDENTIALS_NAME[6];
  }

  lemma Secret(name: string)
    requires Proper(name)
    ensures "/run/secrets/" + name == Abs(["run", "secrets", name]) && AllProper(["run", "secrets", name])
  {
    hide Abs, AllProper;
    ReservedThree("run", "secrets", name);
    assert "/run/secrets/" == "/" + "run" + "/" + "secrets" + "/";
    ThreeProper("run", "secrets", name);
  }

  lemma ReservedSecret(r: nat)
    requires PASSWORD <= r < RESERVED_COUNT
    ensures Reserved(r) == Abs(ReservedSegments(r)) && AllProper(ReservedSegments(r))
  {
    hide Abs, AllProper, PASSWORD_NAME, CREDENTIALS_NAME, Proper;
    SecretNames();
    Secret(PASSWORD_NAME);
    Secret(CREDENTIALS_NAME);
  }

  lemma ReservedNotRoot(r: nat)
    requires r < RESERVED_COUNT
    ensures ReservedSegments(r) != []
  {
  }

  lemma ReservedPaths(r: nat)
    requires r < RESERVED_COUNT
    ensures Reserved(r) == Abs(ReservedSegments(r))
    ensures AllProper(ReservedSegments(r)) && ReservedSegments(r) != []
    ensures Segments(Reserved(r)) == ReservedSegments(r)
  {
    hide Segments, Reserved, ReservedSegments, Abs, AllProper;
    if r < PASSWORD {
      ReservedShort(r);
    } else {
      ReservedSecret(r);
    }
    ReservedNotRoot(r);
    SegmentsOfAbs(ReservedSegments(r));
  }

  lemma ReservedApart(r: nat, s: nat)
    requires r < RESERVED_COUNT && s < RESERVED_COUNT && r != s
    ensures !Related(ReservedSegments(r), ReservedSegments(s))
  {
    SecretNames();
    var a, b := ReservedSegments(r), ReservedSegments(s);
    assert a[0] != b[0] || a[2] != b[2];
  }

  // ------------------------------------------------------------- validation

  /** isCleanHostFile. */
  predicate CleanHostFile(p: string) {
    IsAbs(p) && Clean(p) == p && ':' !in p
  }

  /** Accepted are exactly the absolute paths written with proper segments only and without
      a colon. */
  lemma CleanHostFileExactly(p: string)
    ensures CleanHostFile(p) <==> ':' !in p && exists segs :: AllProper(segs) && p == Abs(segs)
  {
    hide Clean, Abs, AllProper;
    if CleanHostFile(p) {
      SegmentsProper(p);
    }
    if segs :| AllProper(segs) && p == Abs(segs) {
      SegmentsOfAbs(segs);
    }
  }

  /** The string tests of validateFiles on a cleaned target and a reserved path. */
  predicate Collides(dst: string, r: string) {
    dst == r || HasPrefix(dst, r + "/") || HasPrefix(r, dst + "/")
  }

  /** On clean absolute paths the string tests mean: equal, below or above. */
  lemma CollidesMeansRelated(a: seq<string>, b: seq<string>)
    requires AllProper(a) && AllProper(b) && a != [] && b != []
    ensures Collides(Abs(a), Abs(b)) <==> Related(a, b)
  {
    hide Abs;
    PrefixMeansBelow(a, b);
    PrefixMeansBelow(b, a);
    if Abs(a) == Abs(b) {
      AbsInjective(a, b);
    }
    assert a <= b <==> a == b || a < b;
    assert b <= a <==> a == b || b < a;
  }

  /** A file that may be mounted: its target is away from every path sabon mounts itself. */
  ghost predicate FileOk(f: TargetFile) {
    && CleanHostFile(f.source)
    && ':' !in f.target && IsAbs(f.target) && Segments(f.target) != []
    && forall r | 0 <= r < RESERVED_COUNT :: !Related(Segments(f.target), ReservedSegments(r))
  }

  ghost predicate FilesOk(files: seq<TargetFile>) {
    && (forall i | 0 <= i < |files| :: FileOk(files[i]))
    && forall i, j | 0 <= i < j < |files| :: Segments(files[i].target) != Segments(files[j].target)
  }

  method CollidesWithReserved(dst: string, ghost segs: seq<string>) returns (hit: bool)
    requires AllProper(segs) && segs != [] && dst == Abs(segs)
    ensures hit <==> exists r :: 0 <= r < RESERVED_COUNT && Related(segs, ReservedSegments(r))
  {
    hide Abs, Related, Reserved, ReservedSegments, Collides;
    hit := false;
    for r := 0 to RESERVED_COUNT
      invariant !hit && forall s | 0 <= s < r :: !Related(segs, ReservedSegments(s))
    {
      ReservedPaths(r);
      CollidesMeansRelated(segs, ReservedSegments(r));
      if Collides(dst, Reserved(r)) {
        return true;
      }
    }
  }

  /** The checks on one file that do not depend on the others. */
  method CheckFile(f: TargetFile) returns (ok: bool, dst: string)
    ensures ok <==> FileOk(f)
    ensures ok ==> dst == Clean(f.target) == Abs(Segments(f.target)) && AllProper(Segments(f.target))
  {
    hide Segments, Clean, Related;
    ok, dst := false, "";
    if f.source == "" || f.target == "" || !CleanHostFile(f.source) || ':' in f.target || !IsAbs(f.target) {
      return;
    }
    SegmentsProper(f.target);
    dst := Clean(f.target);
    if dst == "/" {
      return;
    }
    var hit := CollidesWithReserved(dst, Segments(f.target));
    ok := !hit;
  }

  /** validateFiles: accepts exactly the files that may be mounted together; the index of
      the first one that may not. */
  method ValidateFiles(files: seq<TargetFile>) returns (ok: bool, bad: nat)
    ensures ok <==> FilesOk(files)
    ensures !ok ==> bad < |files| && FilesOk(files[..bad]) && !FilesOk(files[..bad + 1])
  {
    hide FileOk, Abs, Segments, Clean;
    var seen: set<string> := {};
    for i := 0 to |files|
      invariant FilesOk(files[..i])
      invariant forall d :: d in seen <==> exists j :: 0 <= j < i && d == Abs(Segments(files[j].target))
      invariant forall j | 0 <= j < i :: AllProper(Segments(files[j].target))
    {
      var fine, dst := CheckFile(files[i]);
      if !fine || dst in seen {
        SameTarget(files, i, fine, dst, seen);
        return false, i;
      }
      SameTarget(files, i, fine, dst, seen);
      seen := seen + {dst};
    }
    assert files[..|files|] == files;
    return true, 0;
  }

  lemma SameTarget(files: seq<TargetFile>, i: nat, fine: bool, dst: string, seen: set<string>)
    requires i < |files|
    requires fine ==> dst == Abs(Segments(files[i].target)) && AllProper(Segments(files[i].target))
    requires forall d :: d in seen <==> exists j :: 0 <= j < i && d == Abs(Segments(files[j].target))
    requires forall j | 0 <= j < i :: AllProper(Segments(files[j].target))
    ensures fine ==> (dst in seen <==> exists j :: 0 <= j < i && Segments(files[j].target) == Segments(files[i].target))
  {
    hide Abs, Segments, AllProper;
    if fine && dst in seen {
      var j :| 0 <= j < i && dst == Abs(Segments(files[j].target));
      AbsInjective(Segments(files[j].target), Segments(files[i].target));
    }
  }

  ghost predicate TargetOk(t: Target) {
    && t.name != "" && (t.path == "") != (t.repo == "")
    && (forall k | k in t.moverLabels :: !("sabon." <= k))
    && (t.passwordFile != "" ==> CleanHostFile(t.passwordFile))
    && (t.credentialsFile != "" ==> CleanHostFile(t.credentialsFile))
    && FilesOk(t.files)
  }

  ghost predicate TargetsOk(ts: seq<Target>) {
    && (forall i | 0 <= i < |ts| :: TargetOk(ts[i]))
    && forall i, j | 0 <= i < j < |ts| :: ts[i].name != ts[j].name
  }

  /** File.Validate. */
  method Validate(ts: seq<Target>) returns (ok: bool)
    ensures ok <==> TargetsOk(ts)
  {
    hide FilesOk, CleanHostFile;
    var seen: set<string> := {};
    for i := 0 to |ts|
      invariant forall j | 0 <= j < i :: TargetOk(ts[j])
      invariant forall j, k | 0 <= j < k < i :: ts[j].name != ts[k].name
      invariant forall x :: x in seen <==> exists j :: 0 <= j < i && ts[j].name == x
    {
      var t := ts[i];
      if t.name == "" || t.name in seen {
        return false;
      }
      seen := seen + {t.name};
      if (t.path == "") == (t.repo == "") {
        return false;
      }
      if exists k :: k in t.moverLabels && "sabon." <= k {
        return false;
      }
      if t.passwordFile != "" && !CleanHostFile(t.passwordFile) {
        return false;
      }
      if t.credentialsFile != "" && !CleanHostFile(t.credentialsFile) {
        return false;
      }
      var fine, bad := ValidateFiles(t.files);
      if !fine {
        return false;
      }
    }
    return true;
  }

  // -------------------------------------------------------- the mount table

  /** What a mount is for: one of sabon's own paths, a file of the target, a source. */
  datatype Mount = Own(r: nat) | File(i: nat) | Src(i: nat)

  /** What a mover is started for: a backup, a restore in place or into a directory, or an
      action on the repository alone. */
  datatype Use = ForBackup | InPlace | Staged | RepoOnly

  predicate HasSources(use: Use) {
    use.ForBackup? || use.InPlace?
  }

  /** How many of n sources a use mounts at a place in the list: a backup puts them first, a
      restore in place behind the cache and the secrets. */
  function CountIf(use: Use, here: Use, n: nat): nat {
    if use == here then n else 0
  }

  /** The mounts in order, then the binds. */
  function Table(names: seq<string>, t: Target, use: Use): seq<Mount> {
    SourceMounts(CountIf(use, ForBackup, |names|))
    + OwnIf(true, CACHE) + OwnIf(t.passwordFile != "", PASSWORD) + OwnIf(t.credentialsFile != "", CREDENTIALS)
    + FileMounts(|t.files|) + SourceMounts(CountIf(use, InPlace, |names|))
    + OwnIf(t.path != "", REPO) + OwnIf(use.Staged?, RESTORE)
  }

  function OwnIf(used: bool, r: nat): seq<Mount> {
    if used then [Own(r)] else []
  }

  function FileMounts(n: nat): seq<Mount> {
    seq(n, i requires 0 <= i < n => File(i))
  }

  function SourceMounts(n: nat): seq<Mount> {
    seq(n, i requires 0 <= i < n => Src(i))
  }

  predicate InTable(m: Mount, names: seq<string>, t: Target, use: Use) {
    match m
    case Own(r) => (r == CACHE || (r == PASSWORD && t.passwordFile != "")
                    || (r == CREDENTIALS && t.credentialsFile != "")
                    || (r == REPO && t.path != "") || (r == RESTORE && use.Staged?))
    case File(i) => i < |t.files|
    case Src(i) => HasSources(use) && i < |names|
  }

  /** The table holds what it should, */
  lemma TableMembers(names: seq<string>, t: Target, use: Use, m: Mount)
    ensures m in Table(names, t, use) <==> InTable(m, names, t, use)
  {
    hide FileMounts, SourceMounts;
    SeqMembers(|t.files|);
    SeqMembers(CountIf(use, ForBackup, |names|));
    SeqMembers(CountIf(use, InPlace, |names|));
  }

  /** and nothing twice. */
  lemma TableDistinct(names: seq<string>, t: Target, use: Use)
    ensures Distinct(Table(names, t, use))
  {
    hide FileMounts, SourceMounts, Distinct;
    var first, later := SourceMounts(CountIf(use, ForBackup, |names|)), SourceMounts(CountIf(use, InPlace, |names|));
    SeqMembers(|t.files|);
    SeqMembers(CountIf(use, ForBackup, |names|));
    SeqMembers(CountIf(use, InPlace, |names|));
    var a, b := OwnIf(true, CACHE), OwnIf(t.passwordFile != "", PASSWORD);
    var c := OwnIf(t.credentialsFile != "", CREDENTIALS);
    var d, e, f := FileMounts(|t.files|), OwnIf(t.path != "", REPO), OwnIf(use.Staged?, RESTORE);
    DistinctConcat(first, a);
    DistinctConcat(first + a, b);
    DistinctConcat(first + a + b, c);
    DistinctConcat(first + a + b + c, d);
    DistinctConcat(first + a + b + c + d, later);
    DistinctConcat(first + a + b + c + d + later, e);
    DistinctConcat(first + a + b + c + d + later + e, f);
  }

  lemma SeqMembers(n: nat)
    ensures forall m :: m in FileMounts(n) <==> m.File? && m.i < n
    ensures forall m :: m in SourceMounts(n) <==> m.Src? && m.i < n
    ensures Distinct(FileMounts(n)) && Distinct(SourceMounts(n)) && |SourceMounts(n)| == n
  {
    forall m ensures m in FileMounts(n) <==> m.File? && m.i < n {
      assert m.File? && m.i < n ==> FileMounts(n)[m.i] == m;
    }
    forall m ensures m in SourceMounts(n) <==> m.Src? && m.i < n {
      assert m.Src? && m.i < n ==> SourceMounts(n)[m.i] == m;
    }
  }

  function SourcePath(name: string): string {
    Reserved(DATA) + "/" + name
  }

  /** The path a mount is mounted at. */
  function At(m: Mount, names: seq<string>, t: Target): string {
    match m
    case Own(r) => if r < RESERVED_COUNT then Reserved(r) else ""
    case File(i) => if i < |t.files| then t.files[i].target else ""
    case Src(i) => if i < |names| then SourcePath(names[i]) else ""
  }

  /** The paths of a list of mounts, in order. */
  ghost predicate Placed(paths: seq<string>, ms: seq<Mount>, names: seq<string>, t: Target) {
    |paths| == |ms| && forall i | 0 <= i < |paths| :: paths[i] == At(ms[i], names, t)
  }

  lemma PlaceMore(paths: seq<string>, ms: seq<Mount>, more: seq<string>, ns: seq<Mount>, names: seq<string>, t: Target)
    requires Placed(paths, ms, names, t) && Placed(more, ns, names, t)
    ensures Placed(paths + more, ms + ns, names, t)
  {
    hide At;
  }

  method AddOwn(paths: seq<string>, ghost ms: seq<Mount>, used: bool, r: nat, ghost names: seq<string>, ghost t: Target)
    returns (paths': seq<string>)
    requires r < RESERVED_COUNT && Placed(paths, ms, names, t)
    ensures Placed(paths', ms + OwnIf(used, r), names, t)
  {
    hide Reserved;
    paths' := paths;
    if used {
      PlaceMore(paths, ms, [Reserved(r)], [Own(r)], names, t);
      paths' := paths + [Reserved(r)];
    } else {
      assert ms + [] == ms;
    }
  }

  /** The paths below /data of all sources, if the use has them at this place. */
  function DataPaths(here: bool, names: seq<string>): seq<string> {
    if here then seq(|names|, i requires 0 <= i < |names| => "/data/" + names[i]) else []
  }

  function FilePaths(files: seq<TargetFile>): seq<string> {
    seq(|files|, i requires 0 <= i < |files| => files[i].target)
  }

  function OnlyIf(used: bool, path: string): seq<string> {
    if used then [path] else []
  }

  /** The same paths, written out. */
  function Spelled(names: seq<string>, t: Target, use: Use): seq<string> {
    DataPaths(use == ForBackup, names)
    + ["/cache"] + OnlyIf(t.passwordFile != "", "/run/secrets/sabon-restic-password")
    + OnlyIf(t.credentialsFile != "", "/run/secrets/sabon-aws-credentials")
    + FilePaths(t.files) + DataPaths(use == InPlace, names)
    + OnlyIf(t.path != "", "/repo") + OnlyIf(use == Staged, "/restore")
  }

  lemma OwnPlaced(used: bool, r: nat, path: string, names: seq<string>, t: Target)
    requires r < RESERVED_COUNT && path == Reserved(r)
    ensures Placed(OnlyIf(used, path), OwnIf(used, r), names, t)
  {
    hide Reserved;
  }

  lemma SourcePathIs(name: string)
    ensures SourcePath(name) == "/data/" + name
  {
  }

  lemma SourcesPlaced(use: Use, here: Use, names: seq<string>, t: Target)
    ensures Placed(DataPaths(use == here, names), SourceMounts(CountIf(use, here, |names|)), names, t)
  {
    hide SourcePath;
    forall i | 0 <= i < |names| ensures "/data/" + names[i] == SourcePath(names[i]) {
      SourcePathIs(names[i]);
    }
  }

  lemma FilesPlaced(names: seq<string>, t: Target)
    ensures Placed(FilePaths(t.files), FileMounts(|t.files|), names, t)
  {
  }

  lemma SpelledPlaced(names: seq<string>, t: Target, use: Use)
    ensures Placed(Spelled(names, t, use), Table(names, t, use), names, t)
  {
    var password, credentials := "/run/secrets/sabon-restic-password", "/run/secrets/sabon-aws-credentials";
    PasswordPath();
    CredentialsPath();
    DirectoryPaths();
    hide Placed, FileMounts, SourceMounts, OwnIf, OnlyIf, DataPaths, FilePaths, Reserved;
    var a, a' := DataPaths(use == ForBackup, names), SourceMounts(CountIf(use, ForBackup, |names|));
    var b, b' := ["/cache"], OwnIf(true, CACHE);
    var c, c' := OnlyIf(t.passwordFile != "", password), OwnIf(t.passwordFile != "", PASSWORD);
    var d, d' := OnlyIf(t.credentialsFile != "", credentials), OwnIf(t.credentialsFile != "", CREDENTIALS);
    var e, e' := FilePaths(t.files), FileMounts(|t.files|);
    var f, f' := DataPaths(use == InPlace, names), SourceMounts(CountIf(use, InPlace, |names|));
    var g, g' := OnlyIf(t.path != "", "/repo"), OwnIf(t.path != "", REPO);
    var h, h' := OnlyIf(use == Staged, "/restore"), OwnIf(use.Staged?, RESTORE);
    SourcesPlaced(use, ForBackup, names, t);
    CachePlaced(names, t);
    OwnPlaced(t.passwordFile != "", PASSWORD, password, names, t);
    OwnPlaced(t.credentialsFile != "", CREDENTIALS, credentials, names, t);
    FilesPlaced(names, t);
    SourcesPlaced(use, InPlace, names, t);
    OwnPlaced(t.path != "", REPO, "/repo", names, t);
    OwnPlaced(use == Staged, RESTORE, "/restore", names, t);
    PlaceMore(a, a', b, b', names, t);
    PlaceMore(a + b, a' + b', c, c', names, t);
    PlaceMore(a + b + c, a' + b' + c', d, d', names, t);
    PlaceMore(a + b + c + d, a' + b' + c' + d', e, e', names, t);
    PlaceMore(a + b + c + d + e, a' + b' + c' + d' + e', f, f', names, t);
    PlaceMore(a + b + c + d + e + f, a' + b' + c' + d' + e' + f', g, g', names, t);
    PlaceMore(a + b + c + d + e + f + g, a' + b' + c' + d' + e' + f' + g', h, h', names, t);
  }

  lemma PasswordPath()
    ensures Reserved(PASSWORD) == "/run/secrets/sabon-restic-password"
  {
    assert "/run/secrets/" + PASSWORD_NAME == "/run/secrets/sabon-restic-password";
  }

  lemma CredentialsPath()
    ensures Reserved(CREDENTIALS) == "/run/secrets/sabon-aws-credentials"
  {
    assert "/run/secrets/" + CREDENTIALS_NAME == "/run/secrets/sabon-aws-credentials";
  }

  lemma DirectoryPaths()
    ensures Reserved(REPO) == "/repo" && Reserved(RESTORE) == "/restore"
  {
  }

  lemma CachePlaced(names: seq<string>, t: Target)
    ensures Placed(["/cache"], OwnIf(true, CACHE), names, t)
  {
  }

  lemma PlacedOnce(paths: seq<string>, paths': seq<string>, ms: seq<Mount>, names: seq<string>, t: Target)
    requires Placed(paths, ms, names, t) && Placed(paths', ms, names, t)
    ensures paths == paths'
  {
    hide At;
  }

  /** The mounts of a mover: cacheAndRepo, with the sources of the job where the use has
      them, and the restore directory. */
  method MoverMounts(names: seq<string>, t: Target, use: Use) returns (paths: seq<string>)
    ensures Placed(paths, Table(names, t, use), names, t)
    ensures paths ==
            DataPaths(use == ForBackup, names)
            + ["/cache"] + OnlyIf(t.passwordFile != "", "/run/secrets/sabon-restic-password")
            + OnlyIf(t.credentialsFile != "", "/run/secrets/sabon-aws-credentials")
            + FilePaths(t.files) + DataPaths(use == InPlace, names)
            + OnlyIf(t.path != "", "/repo") + OnlyIf(use == Staged, "/restore")
  {
    hide Placed, FileMounts, SourceMounts, OwnIf, DataPaths, FilePaths, OnlyIf, Table, Fixtures, Reserved;
    ghost var h := SourceMounts(CountIf(use, ForBackup, |names|));
    paths := AddSources(names, t, CountIf(use, ForBackup, |names|));
    var secrets := CacheAndSecrets(names, t);
    ghost var c := Fixtures(t);
    PlaceMore(paths, h, secrets, c, names, t);
    ghost var l := SourceMounts(CountIf(use, InPlace, |names|));
    var later := AddSources(names, t, CountIf(use, InPlace, |names|));
    PlaceMore(paths + secrets, h + c, later, l, names, t);
    paths := AddOwn(paths + secrets + later, h + c + l, t.path != "", REPO, names, t);
    ghost var r := OwnIf(t.path != "", REPO);
    paths := AddOwn(paths, h + c + l + r, use.Staged?, RESTORE, names, t);
    TableParts(names, t, use);
    SpelledPlaced(names, t, use);
    PlacedOnce(paths, Spelled(names, t, use), Table(names, t, use), names, t);
  }

  lemma TableParts(names: seq<string>, t: Target, use: Use)
    ensures Table(names, t, use) ==
            SourceMounts(CountIf(use, ForBackup, |names|)) + Fixtures(t) + SourceMounts(CountIf(use, InPlace, |names|))
            + OwnIf(t.path != "", REPO) + OwnIf(use.Staged?, RESTORE)
  {
    hide SourceMounts, OwnIf, FileMounts;
  }

  ghost function Fixtures(t: Target): seq<Mount> {
    OwnIf(true, CACHE) + OwnIf(t.passwordFile != "", PASSWORD) + OwnIf(t.credentialsFile != "", CREDENTIALS)
    + FileMounts(|t.files|)
  }

  method CacheAndSecrets(ghost names: seq<string>, t: Target) returns (paths: seq<string>)
    ensures Placed(paths, Fixtures(t), names, t)
  {
    hide Placed, FileMounts, OwnIf;
    NothingPlaced(names, t);
    ghost var c, p := OwnIf(true, CACHE), OwnIf(t.passwordFile != "", PASSWORD);
    ghost var a := OwnIf(t.credentialsFile != "", CREDENTIALS);
    paths := AddOwn([], [], true, CACHE, names, t);
    assert [] + c == c;
    paths := AddOwn(paths, c, t.passwordFile != "", PASSWORD, names, t);
    paths := AddOwn(paths, c + p, t.credentialsFile != "", CREDENTIALS, names, t);
    var files := AddFiles(names, t);
    PlaceMore(paths, c + p + a, files, FileMounts(|t.files|), names, t);
    paths := paths + files;
  }

  lemma NothingPlaced(names: seq<string>, t: Target)
    ensures Placed([], [], names, t)
  {
  }

  method AddFiles(ghost names: seq<string>, t: Target) returns (paths: seq<string>)
    ensures Placed(paths, FileMounts(|t.files|), names, t)
  {
    paths := [];
    for k := 0 to |t.files|
      invariant |paths| == k && forall i | 0 <= i < k :: paths[i] == At(File(i), names, t)
    {
      paths := paths + [t.files[k].target];
    }
  }

  method AddSources(names: seq<string>, ghost t: Target, n: nat) returns (paths: seq<string>)
    requires n <= |names|
    ensures Placed(paths, SourceMounts(n), names, t)
  {
    paths := [];
    for k := 0 to n
      invariant |paths| == k && forall i | 0 <= i < k :: paths[i] == At(Src(i), names, t)
    {
      paths := paths + [SourcePath(names[k])];
    }
  }

  // ------------------------------------------------------ nothing is shadowed

  /** Names of sources: pairwise distinct and of safe characters, as a Namer gives them. */
  ghost predicate NamesOk(names: seq<string>) {
    && (forall i, j | 0 <= i < j < |names| :: names[i] != names[j])
    && forall i | 0 <= i < |names| :: names[i] != "" && Naming.AllSafe(names[i])
  }

  /** Two mounts get along: different paths, and one above the other only among files. */
  ghost predicate Apart(m: Mount, n: Mount, names: seq<string>, t: Target) {
    var a, b := Segments(At(m, names, t)), Segments(At(n, names, t));
    a != b && (Related(a, b) ==> m.File? && n.File?)
  }

  /** No mount shadows another. */
  ghost predicate NoShadow(names: seq<string>, t: Target, use: Use) {
    forall m, n | InTable(m, names, t, use) && InTable(n, names, t, use) && m != n :: Apart(m, n, names, t)
  }

  /** No source is called "..", and one called "." is alone. */
  predicate Clear(names: seq<string>) {
    ".." !in names && ("." in names ==> |names| == 1)
  }

  lemma SourceSegments(name: string)
    requires Naming.AllSafe(name) && name != ""
    ensures Segments(SourcePath(name)) == if name == "." then ["data"] else if name == ".." then [] else ["data", name]
    ensures name !in {".", ".."} ==> Proper(name)
  {
    hide Split;
    SplitConcat("/data", name);
    SplitConcat("", "data");
    SplitOne("data");
    SplitOne(name);
    SplitEmpty();
    assert "" + "/" + "data" == "/data";
    var segs := [""] + ["data"] + [name];
    assert Split(SourcePath(name)) == segs;
    ResolveThree(true, "data", name);
  }

  lemma ResolveThree(rooted: bool, d: string, name: string)
    requires Proper(d)
    ensures Resolve(rooted, [], [""] + [d] + [name]) == Push(rooted, [d], name)
  {
    var segs := [""] + [d] + [name];
    assert segs[1..] == [d] + [name] && ([d] + [name])[1..] == [name] && [name][1..] == [];
    assert Push(rooted, [], "") == [] && Push(rooted, [], d) == [d];
    assert Resolve(rooted, [], segs) == Resolve(rooted, [], [d] + [name]);
    assert Resolve(rooted, [], [d] + [name]) == Resolve(rooted, [d], [name]);
    assert Resolve(rooted, [d], [name]) == Resolve(rooted, Push(rooted, [d], name), []);
  }

  lemma OwnAndFile(f: TargetFile, r: nat)
    requires FileOk(f) && r < RESERVED_COUNT
    ensures !Related(Segments(f.target), Segments(Reserved(r)))
  {
    ReservedPaths(r);
  }

  lemma OwnAndOwn(r: nat, s: nat)
    requires r < RESERVED_COUNT && s < RESERVED_COUNT && r != s
    ensures !Related(Segments(Reserved(r)), Segments(Reserved(s)))
  {
    ReservedPaths(r);
    ReservedPaths(s);
    ReservedApart(r, s);
  }

  lemma SourceApart(segs: seq<string>, name: string)
    requires Naming.AllSafe(name) && name !in {"", ".."}
    requires !Related(segs, ["data"])
    ensures !Related(segs, Segments(SourcePath(name)))
  {
    SourceSegments(name);
  }

  lemma SourcesApart(x: string, y: string)
    requires Naming.AllSafe(x) && Naming.AllSafe(y) && x != y && x !in {"", ".", ".."} && y !in {"", ".", ".."}
    ensures !Related(Segments(SourcePath(x)), Segments(SourcePath(y)))
  {
    SourceSegments(x);
    SourceSegments(y);
    assert ["data", x][1] == x && ["data", y][1] == y;
  }

  /** Every pair, with the mount that can be a source second. */
  lemma PairApart(m: Mount, n: Mount, names: seq<string>, t: Target, use: Use)
    requires NamesOk(names) && FilesOk(t.files) && (!HasSources(use) || Clear(names))
    requires InTable(m, names, t, use) && InTable(n, names, t, use) && m != n
    requires m.Own? || (m.File? && !n.Own?) || (m.Src? && n.Src?)
    ensures Apart(m, n, names, t)
  {
    hide Segments, FileOk, SourcePath, Related, Reserved;
    RelatedToItself(Segments(At(m, names, t)));
    if n.Src? {
      assert names[n.i] != ".." by {
        assert names[n.i] in names;
      }
    }
    if m.Own? && n.Own? {
      OwnAndOwn(m.r, n.r);
    } else if m.Own? && n.File? {
      OwnAndFile(t.files[n.i], m.r);
      RelatedIsSymmetric(Segments(t.files[n.i].target), Segments(Reserved(m.r)));
    } else if m.Own? {
      ReservedPaths(m.r);
      ReservedApart(m.r, DATA);
      SourceApart(Segments(Reserved(m.r)), names[n.i]);
    } else if m.File? && n.Src? {
      OwnAndFile(t.files[m.i], DATA);
      ReservedPaths(DATA);
      SourceApart(Segments(t.files[m.i].target), names[n.i]);
    } else if m.Src? {
      assert names[m.i] in names && names[n.i] in names;
      SourcesApart(names[m.i], names[n.i]);
    }
  }

  lemma RelatedToItself(a: seq<string>)
    ensures Related(a, a)
  {
  }

  lemma RelatedIsSymmetric(a: seq<string>, b: seq<string>)
    ensures Related(a, b) <==> Related(b, a)
  {
  }

  lemma ApartIsSymmetric(m: Mount, n: Mount, names: seq<string>, t: Target)
    ensures Apart(m, n, names, t) <==> Apart(n, m, names, t)
  {
  }

  /** For every accepted target and all names a Namer gives, the mounts of a mover have
      different paths and none is above another, two `files` entries excepted, exactly when
      no source is called ".." and none called "." has company. A mover without sources is
      always fine. */
  lemma ShadowsExactly(names: seq<string>, t: Target, use: Use)
    requires NamesOk(names) && TargetOk(t)
    ensures NoShadow(names, t, use) <==> !HasSources(use) || Clear(names)
  {
    hide FilesOk, Segments, At, Apart;
    if !HasSources(use) || Clear(names) {
      forall m, n | InTable(m, names, t, use) && InTable(n, names, t, use) && m != n
        ensures Apart(m, n, names, t)
      {
        if m.Own? || (m.File? && !n.Own?) || (m.Src? && n.Src?) {
          PairApart(m, n, names, t, use);
        } else {
          PairApart(n, m, names, t, use);
          ApartIsSymmetric(m, n, names, t);
        }
      }
    } else {
      var m, n := Shadowed(names, t, use);
    }
  }

  /** So the paths a mover is started with stay different after cleaning, and only one of
      two files can lie above the other. */
  lemma MoverPathsApart(names: seq<string>, t: Target, use: Use, paths: seq<string>, i: nat, j: nat)
    requires NamesOk(names) && TargetOk(t) && (!HasSources(use) || Clear(names))
    requires Placed(paths, Table(names, t, use), names, t) && i < j < |paths|
    ensures Clean(paths[i]) != Clean(paths[j])
    ensures var ms := Table(names, t, use);
            Related(Segments(paths[i]), Segments(paths[j])) ==> ms[i].File? && ms[j].File?
  {
    hide Table, TargetOk, Related, Segments, Clean, At, Reserved;
    var ms := Table(names, t, use);
    TableDistinct(names, t, use);
    TableMembers(names, t, use, ms[i]);
    TableMembers(names, t, use, ms[j]);
    ShadowsExactly(names, t, use);
    assert Apart(ms[i], ms[j], names, t);
    AbsolutePath(ms[i], names, t, use);
    AbsolutePath(ms[j], names, t, use);
    CleanIsIdempotent(paths[i]);
    CleanIsIdempotent(paths[j]);
  }

  lemma AbsolutePath(m: Mount, names: seq<string>, t: Target, use: Use)
    requires TargetOk(t) && InTable(m, names, t, use)
    ensures IsAbs(At(m, names, t))
  {
    if m.File? {
      assert FileOk(t.files[m.i]);
    }
  }

  lemma Shadowed(names: seq<string>, t: Target, use: Use) returns (m: Mount, n: Mount)
    requires NamesOk(names) && !Clear(names) && HasSources(use)
    ensures InTable(m, names, t, use) && InTable(n, names, t, use) && m != n && !Apart(m, n, names, t)
  {
    hide Segments;
    if ".." in names {
      var i :| 0 <= i < |names| && names[i] == "..";
      SourceSegments("..");
      m, n := Src(i), Own(CACHE);
    } else {
      var i :| 0 <= i < |names| && names[i] == ".";
      var j := if i == 0 then 1 else 0;
      SourceSegments(".");
      SourceSegments(names[j]);
      assert names[j] in names;
      m, n := Src(i), Src(j);
    }
  }

  /** The names of a session are fit for the table. */
  lemma SessionIsOk(bases: seq<string>, names: seq<string>)
    requires Naming.Session(bases, names)
    ensures NamesOk(names)
    ensures (forall k | 0 <= k < |bases| :: bases[k] !in {".", ".."}) ==> Clear(names)
  {
    hide Naming.Session;
    Naming.SessionNames(bases, names);
    SameLength(bases, names);
  }

  lemma SameLength(bases: seq<string>, names: seq<string>)
    requires Naming.Session(bases, names)
    ensures |bases| == |names|
  {
  }

  /** A volume called ".." keeps its name and is mounted over everything. */
  lemma DotDotShadows(t: Target)
    requires TargetOk(t)
    ensures Naming.Session([".."], [".."]) && !NoShadow([".."], t, ForBackup)
  {
    hide NoShadow, TargetOk;
    var n := [".."];
    FirstOfItsName(n, 0);
    SessionIsOk(n, n);
    ShadowsExactly(n, t, ForBackup);
  }

  /** One called "." is mounted over the volume beside it. */
  lemma DotShadows(t: Target)
    requires TargetOk(t)
    ensures Naming.Session([".", "db"], [".", "db"]) && !NoShadow([".", "db"], t, ForBackup)
  {
    hide NoShadow, TargetOk, Naming.Session, NamesOk;
    DotSession();
    SessionIsOk([".", "db"], [".", "db"]);
    ShadowsExactly([".", "db"], t, ForBackup);
  }

  lemma DotSession()
    ensures Naming.Session([".", "db"], [".", "db"])
  {
    hide Naming.PickedAt;
    var n := [".", "db"];
    assert |"."| != |"db"|;
    FirstOfItsName(n, 0);
    FirstOfItsName(n, 1);
  }

  lemma FirstOfItsName(names: seq<string>, k: nat)
    requires k < |names| && Naming.AllSafe(names[k]) && names[k] != "" && names[k] !in names[..k]
    ensures Naming.PickedAt(names, names, k)
  {
    Naming.SquashIsSafe(names[k], false);
    assert Naming.FirstFree(AsSet(names[..k]), names[k], names[k], 0);
  }
}
