/**
 Where a source lives on ZFS and where its snapshot can be read: the dataset
 lookup, the read path inside `.zfs/snapshot`, and the way back from a read path
 to the snapshot's name.
 */
module ZfsPaths {
  import opened Lists
  import opened Paths

  datatype Dataset = Dataset(name: string, mountpoint: string)

  datatype Match = Match(dataset: Dataset, sub: string)

  // ------------------------------------------------------------- the lookup

  /** The sub-path of a clean path below one dataset, by string tests. */
  function SubPath(path: string, d: Dataset): Option<string> {
    var mp := Clean(d.mountpoint);
    if mp == path then Some("")
    else if mp == "/" then Some(TrimPrefix(path, "/"))
    else if HasPrefix(path, mp + "/") then Some(TrimPrefix(path, mp + "/"))
    else None
  }

  /** The best match so far, replaced only by a longer mountpoint. */
  function Better(path: string, best: Option<Match>, d: Dataset): Option<Match> {
    match SubPath(path, d)
    case None => best
    case Some(sub) =>
      if best.None? || |Clean(d.mountpoint)| > |Clean(best.value.dataset.mountpoint)|
      then Some(Match(d, sub)) else best
  }

  function LookupClean(path: string, ds: seq<Dataset>): Option<Match> {
    if ds == [] then None
    else Better(path, LookupClean(path, ds[..|ds| - 1]), ds[|ds| - 1])
  }

  function Lookup(path: string, ds: seq<Dataset>): Option<Match> {
    LookupClean(Clean(path), ds)
  }

  /** datasetFor: one pass that keeps the best match so far. */
  method DatasetFor(path: string, ds: seq<Dataset>) returns (found: Option<Match>)
    ensures found == Lookup(path, ds)
  {
    var p := Clean(path);
    found := None;
    for i := 0 to |ds|
      invariant found == LookupClean(p, ds[..i])
    {
      assert ds[..i + 1][..i] == ds[..i];
      found := Better(p, found, ds[i]);
    }
    assert ds[..|ds|] == ds;
  }

  /** The dataset's mountpoint is the path or one of its ancestors. */
  predicate Covers(d: Dataset, path: string) {
    IsAbs(d.mountpoint) && Segments(d.mountpoint) <= Segments(path)
  }

  lemma RelativeNeverMatches(path: string, d: Dataset)
    requires IsAbs(path) && !IsAbs(d.mountpoint)
    ensures SubPath(path, d) == None
  {
    RelativeStaysRelative(d.mountpoint);
    var mp := Clean(d.mountpoint);
    assert (mp + "/")[0] == mp[0];
  }

  lemma JoinProperNotEmpty(segs: seq<string>)
    requires AllProper(segs) && segs != []
    ensures Join(segs) != ""
  {
    assert Proper(segs[0]);
  }

  /** The string tests find a dataset exactly when its mountpoint is an ancestor of the
      path or the path itself, and what they leave over is the path below it. */
  lemma SubPathMeansBelow(b: seq<string>, d: Dataset)
    requires AllProper(b)
    ensures SubPath(Abs(b), d).Some? <==> IsAbs(d.mountpoint) && Segments(d.mountpoint) <= b
    ensures SubPath(Abs(b), d).Some? ==> SubPath(Abs(b), d).value == Join(b[|Segments(d.mountpoint)|..])
  {
    hide Join, AllProper, Resolve, Split;
    if !IsAbs(d.mountpoint) {
      RelativeNeverMatches(Abs(b), d);
    } else {
      SegmentsProper(d.mountpoint);
      AbsoluteSubPath(Segments(d.mountpoint), b, d);
    }
  }

  lemma AbsoluteSubPath(a: seq<string>, b: seq<string>, d: Dataset)
    requires AllProper(a) && AllProper(b) && Clean(d.mountpoint) == Abs(a)
    ensures SubPath(Abs(b), d).Some? <==> a <= b
    ensures SubPath(Abs(b), d).Some? ==> SubPath(Abs(b), d).value == Join(b[|a|..])
  {
    hide AllProper, Resolve, Split, Clean;
    if Abs(a) == Abs(b) {
      AbsInjective(a, b);
    } else if a == [] {
      assert Abs(a) == "/";
      assert TrimPrefix(Abs(b), "/") == Join(b);
      assert b[0..] == b;
    } else {
      AbsNotRoot(a);
      PrefixMeansBelow(a, b);
      assert a <= b && |a| == |b| ==> a == b;
    }
  }

  lemma AbsNotRoot(a: seq<string>)
    requires AllProper(a) && a != []
    ensures Abs(a) != "/"
  {
    JoinProperNotEmpty(a);
  }

  lemma LongerIsDeeper(a: seq<string>, c: seq<string>)
    requires AllProper(a) && AllProper(c) && a < c
    ensures |Abs(a)| < |Abs(c)|
  {
    hide AllProper;
    if a == [] {
      JoinProperNotEmpty(c);
    } else {
      JoinPrefix(a, c);
    }
  }

  /** What the lookup returns, in terms of ancestors only: it finds something exactly when
      some dataset covers the path, and then the first of the deepest ones. */
  ghost predicate IsDeepest(found: Option<Match>, path: string, ds: seq<Dataset>) {
    if found.None? then forall i | 0 <= i < |ds| :: !Covers(ds[i], path)
    else
      exists i :: 0 <= i < |ds| && IsFirstDeepest(i, path, ds) &&
        found.value == Match(ds[i], Join(Segments(path)[|Segments(ds[i].mountpoint)|..]))
  }

  ghost predicate IsFirstDeepest(i: int, path: string, ds: seq<Dataset>)
    requires 0 <= i < |ds|
  {
    && Covers(ds[i], path)
    && (forall j | 0 <= j < |ds| && Covers(ds[j], path) :: Depth(ds[j]) <= Depth(ds[i]))
    && (forall j | 0 <= j < i && Covers(ds[j], path) :: Depth(ds[j]) < Depth(ds[i]))
  }

  function Depth(d: Dataset): nat {
    |Segments(d.mountpoint)|
  }

  lemma CompareByLength(d: Dataset, e: Dataset, path: string)
    requires IsAbs(path) && Covers(d, path) && Covers(e, path)
    ensures |Clean(d.mountpoint)| > |Clean(e.mountpoint)| <==> Depth(d) > Depth(e)
  {
    hide Resolve, Split, Join, AllProper;
    var a, c := Segments(d.mountpoint), Segments(e.mountpoint);
    SegmentsProper(d.mountpoint);
    SegmentsProper(e.mountpoint);
    if |a| < |c| {
      assert a < c;
      LongerIsDeeper(a, c);
    } else if |c| < |a| {
      assert c < a;
      LongerIsDeeper(c, a);
    } else {
      assert a == c;
    }
  }

  /** For absolute paths the lookup finds the deepest dataset that covers the path. */
  lemma {:induction false} LookupFindsDeepest(path: string, ds: seq<Dataset>)
    requires IsAbs(path)
    ensures IsDeepest(Lookup(path, ds), path, ds)
    decreases |ds|
  {
    hide Covers, Segments, Clean, SubPath, Depth;
    if ds != [] {
      var n := |ds| - 1;
      LookupFindsDeepest(path, ds[..n]);
      DeepestSnoc(path, ds[..n], ds[n], Lookup(path, ds[..n]));
      assert ds[..n] + [ds[n]] == ds;
    }
  }

  lemma DeepestSnoc(path: string, ds: seq<Dataset>, d: Dataset, best: Option<Match>)
    requires IsAbs(path) && IsDeepest(best, path, ds)
    ensures IsDeepest(Better(Clean(path), best, d), path, ds + [d])
  {
    hide Segments, Clean, SubPath, Depth, Join;
    var n, all := |ds|, ds + [d];
    assert all[n] == d && forall j | 0 <= j < n :: all[j] == ds[j];
    SubPathOf(path, d);
    if best.Some? {
      var i :| 0 <= i < n && IsFirstDeepest(i, path, ds) &&
        best.value == Match(ds[i], Join(Segments(path)[|Segments(ds[i].mountpoint)|..]));
      if Covers(d, path) {
        CompareByLength(d, ds[i], path);
        if Depth(d) > Depth(ds[i]) {
          assert IsFirstDeepest(n, path, all);
        } else {
          assert IsFirstDeepest(i, path, all);
        }
      } else {
        assert IsFirstDeepest(i, path, all);
      }
    } else if Covers(d, path) {
      assert IsFirstDeepest(n, path, all);
    }
  }

  lemma SubPathOf(path: string, d: Dataset)
    requires IsAbs(path)
    ensures SubPath(Clean(path), d).Some? <==> Covers(d, path)
    ensures Covers(d, path) ==> SubPath(Clean(path), d) == Some(Join(Segments(path)[|Segments(d.mountpoint)|..]))
  {
    SegmentsProper(path);
    SubPathMeansBelow(Segments(path), d);
  }

  /** Joining the mountpoint found with the sub-path gives the cleaned path back. */
  lemma LookupRebuilds(path: string, ds: seq<Dataset>)
    requires IsAbs(path) && Lookup(path, ds).Some?
    ensures var m := Lookup(path, ds).value; JoinPath([m.dataset.mountpoint, m.sub]) == Clean(path)
  {
    hide Resolve, Split, Lookup, JoinPath, Join, Proper, Depth;
    LookupFindsDeepest(path, ds);
    var m := Lookup(path, ds).value;
    var i :| 0 <= i < |ds| && IsFirstDeepest(i, path, ds) &&
      m == Match(ds[i], Join(Segments(path)[|Segments(ds[i].mountpoint)|..]));
    var mp, a, b := m.dataset.mountpoint, Segments(m.dataset.mountpoint), Segments(path);
    SegmentsProper(path);
    SegmentsProper(mp);
    JoinPathBelow(mp, b[|a|..]);
    assert a + b[|a|..] == b;
  }

  /** path.Join of an absolute path with segments below it. */
  lemma JoinPathBelow(mp: string, rest: seq<string>)
    requires IsAbs(mp) && AllProper(rest)
    ensures JoinPath([mp, Join(rest)]) == Abs(Segments(mp) + rest)
  {
    hide Resolve, Split, Segments, NonEmpty, AllProper, Clean;
    NonEmptyTwo(mp, Join(rest));
    if rest == [] {
      SegmentsProper(mp);
      assert Segments(mp) + [] == Segments(mp);
    } else {
      JoinProperNotEmpty(rest);
      assert Join([mp, Join(rest)]) == mp + "/" + Join(rest) by {
        assert [mp, Join(rest)][1..] == [Join(rest)];
      }
      CleanAppend(mp, rest);
    }
  }

  lemma NonEmptyTwo(x: string, y: string)
    requires x != ""
    ensures NonEmpty([x, y]) == if y == "" then [x] else [x, y]
  {
    assert [x, y][1..] == [y] && [y][1..] == [];
    assert NonEmpty([y]) == if y == "" then [] else [y];
  }
}
