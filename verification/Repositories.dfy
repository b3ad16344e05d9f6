/**
 Which repository an app has in a target, and when two of them are the same. The
 orchestrator locks "<target>|<app>", so a lock protects a repository only if no
 other target or app names it; this says exactly which configurations see to it.
 */
module Repositories {
  import opened Paths
  import opened Keys

  /** A target's repository setting: a directory, a fixed location, a location with one "{app}"
      in it, or any other text. Environment references are already expanded. */
  datatype Place =
    | Directory(path: string)
    | Fixed(url: string)
    | Templated(pre: string, post: string)
    | Pattern(text: string)

  datatype Repository = Local(path: string) | Remote(url: string)

  const HOLE := "{app}"

  function RepositoryOf(p: Place, app: string): Repository {
    match p
    case Directory(path) => Local(JoinPath([path, app]))
    case Fixed(url) => Remote(url)
    case Templated(pre, post) => Remote(pre + app + post)
    case Pattern(text) => Remote(Substitute(text, app))
  }

  // -------------------------------------------------------- replacing {app}

  predicate HoleAt(s: string, i: nat) {
    i + 5 <= |s| && s[i..i + 5] == HOLE
  }

  predicate HasHole(s: string) {
    exists i :: 0 <= i < |s| && HoleAt(s, i)
  }

  /** strings.ReplaceAll of "{app}". */
  function Substitute(s: string, app: string): string
    decreases |s|
  {
    if s == "" then ""
    else if HoleAt(s, 0) then app + Substitute(s[5..], app)
    else [s[0]] + Substitute(s[1..], app)
  }

  lemma NoHoleBehind(s: string)
    requires s != "" && !HasHole(s)
    ensures !HasHole(s[1..]) && !HoleAt(s, 0)
  {
    forall i | 0 <= i < |s[1..]| ensures !HoleAt(s[1..], i) {
      assert !HoleAt(s, i + 1);
    }
  }

  lemma SubstituteStep(s: string, app: string)
    requires s != "" && !HoleAt(s, 0)
    ensures Substitute(s, app) == [s[0]] + Substitute(s[1..], app)
  {
  }

  lemma SubstituteHole(post: string, app: string)
    ensures Substitute(HOLE + post, app) == app + Substitute(post, app)
  {
    var s := HOLE + post;
    assert s[0..5] == HOLE && s[5..] == post;
  }

  lemma {:induction false} SubstituteFixed(s: string, app: string)
    requires !HasHole(s)
    ensures Substitute(s, app) == s
    decreases |s|
  {
    hide HasHole, HoleAt;
    if s != "" {
      NoHoleBehind(s);
      SubstituteFixed(s[1..], app);
    }
  }

  /** Replacing keeps the text up to the first hole, fills the hole, and goes on behind it; a
      template with one hole is filled there. */
  lemma SubstituteTemplate(pre: string, post: string, app: string)
    requires !HasHole(pre)
    ensures Substitute(pre, app) == pre
    ensures Substitute(pre + "{app}" + post, app) == pre + app + Substitute(post, app)
    ensures !HasHole(post) ==>
              RepositoryOf(Pattern(pre + "{app}" + post), app) == RepositoryOf(Templated(pre, post), app)
  {
    hide HasHole, Substitute;
    SubstituteFixed(pre, app);
    SubstituteFirst(pre, post, app);
    if !HasHole(post) {
      SubstituteFixed(post, app);
    }
  }

  lemma {:induction false} SubstituteFirst(pre: string, post: string, app: string)
    requires !HasHole(pre)
    ensures Substitute(pre + HOLE + post, app) == pre + app + Substitute(post, app)
    decreases |pre|
  {
    hide HasHole, HoleAt, Substitute, HOLE;
    if pre == "" {
      SubstituteHole(post, app);
      assert pre + HOLE + post == HOLE + post && pre + app == app;
    } else {
      NoEarlyHole(pre, post);
      NoHoleBehind(pre);
      SubstituteStep(pre + HOLE + post, app);
      SubstituteFirst(pre[1..], post, app);
      assert (pre + HOLE + post)[1..] == pre[1..] + HOLE + post;
      assert [pre[0]] + (pre[1..] + app + Substitute(post, app)) == pre + app + Substitute(post, app);
    }
  }

  lemma NoEarlyHole(pre: string, post: string)
    requires pre != "" && !HasHole(pre)
    ensures !HoleAt(pre + HOLE + post, 0)
  {
    var s := pre + HOLE + post;
    if |pre| >= 5 {
      assert s[0..5] == pre[0..5] && !HoleAt(pre, 0);
    } else {
      assert s[|pre|] == '{' && s[0..5][|pre|] == '{' && HOLE[|pre|] != '{';
    }
  }

  // ------------------------------------------------------------ directories

  predicate NoDot(segs: seq<string>) {
    forall i | 0 <= i < |segs| :: segs[i] != "."
  }

  lemma {:induction false} ResolveNoDot(rooted: bool, out: seq<string>, segs: seq<string>)
    requires NoDot(out)
    ensures NoDot(Resolve(rooted, out, segs))
    decreases |segs|
  {
    if segs != [] {
      ResolveNoDot(rooted, Push(rooted, out, segs[0]), segs[1..]);
    }
  }

  lemma SegmentsNoDot(p: string)
    ensures NoDot(Segments(p))
  {
    ResolveNoDot(IsAbs(p), [], Split(p));
  }

  /** A cleaned path determines whether it is absolute, and its segments. */
  lemma CleanDetermines(p: string, q: string)
    requires Clean(p) == Clean(q)
    ensures IsAbs(p) == IsAbs(q) && Segments(p) == Segments(q)
  {
    hide Segments, Resolve, Split, Join;
    RelativeSpelling(p);
    RelativeSpelling(q);
    if IsAbs(p) {
      SegmentsProper(p);
    }
    if IsAbs(q) {
      SegmentsProper(q);
    }
    if IsAbs(p) && IsAbs(q) {
      AbsInjective(Segments(p), Segments(q));
    }
  }

  /** A relative path's cleaned form is relative and splits into its segments. */
  lemma RelativeSpelling(p: string)
    ensures IsAbs(p) ==> IsAbs(Clean(p))
    ensures !IsAbs(p) ==> !IsAbs(Clean(p)) && Segments(p) == (if Clean(p) == "." then [] else Split(Clean(p)))
  {
    if !IsAbs(p) {
      RelativeStaysRelative(p);
      SplitNoSlash(p);
      ResolveFilled(false, [], Split(p));
      ResolveNoDot(false, [], Split(p));
      var segs := Segments(p);
      if segs != [] {
        assert forall i | 0 <= i < |segs| :: Filled(segs[i]);
        assert forall i | 0 <= i < |segs| :: NoSlash(segs[i]);
        SplitJoin(segs);
        SplitOne(".");
      }
    }
  }

  /** Where an app's repository lies below a directory: an app called "." has the directory
      itself. */
  function Below(path: string, app: string): seq<string> {
    if app == "." then Segments(path) else Segments(path) + [app]
  }

  lemma DirectoryOfApp(path: string, app: string)
    requires path != "" && ValidApp(app)
    ensures var d := path + "/" + app;
            JoinPath([path, app]) == Clean(d) && IsAbs(d) == IsAbs(path) && Segments(d) == Below(path, app)
  {
    hide Split, Clean;
    NonEmptyPair(path, app);
    NotDots(app);
    SplitConcat(path, app);
    SplitOne(app);
    ResolveConcat(IsAbs(path), [], Split(path), [app]);
  }

  lemma NonEmptyPair(x: string, y: string)
    requires x != "" && y != ""
    ensures JoinPath([x, y]) == Clean(x + "/" + y)
  {
    hide Clean;
    assert [x, y][1..] == [y] && [y][1..] == [];
    assert NonEmpty([y]) == [y];
    assert NonEmpty([x, y]) == [x, y];
    assert Join([x, y]) == x + "/" + y;
  }

  lemma NotDots(app: string)
    requires ValidApp(app)
    ensures app != "" && app != ".." && NoSlash(app)
  {
    if |app| == 2 {
      assert !DotsAt(app, 0);
    }
  }

  /** Two directories put some apps' repositories in one place exactly when they are the same
      directory or one is an app's directory in the other. */
  predicate DirectoriesMeet(p: string, q: string) {
    IsAbs(p) == IsAbs(q) &&
    (Segments(p) == Segments(q) || IsAppIn(Segments(p), Segments(q)) || IsAppIn(Segments(q), Segments(p)))
  }

  predicate IsAppIn(a: seq<string>, b: seq<string>) {
    a != [] && a[..|a| - 1] == b && ValidApp(a[|a| - 1])
  }

  ghost predicate Meet(p: Place, q: Place) {
    exists a, b :: ValidApp(a) && ValidApp(b) && RepositoryOf(p, a) == RepositoryOf(q, b)
  }

  lemma BelowMeets(p: string, a: string, q: string, b: string)
    requires ValidApp(a) && ValidApp(b) && Below(p, a) == Below(q, b)
    ensures Segments(p) == Segments(q) || IsAppIn(Segments(p), Segments(q)) || IsAppIn(Segments(q), Segments(p))
  {
    hide Segments, ValidApp;
    var s, t := Segments(p), Segments(q);
    if a != "." && b != "." {
      assert s == (s + [a])[..|s|] && t == (t + [b])[..|t|];
    } else if a != "." {
      assert t[..|t| - 1] == s && t[|t| - 1] == a;
    } else if b != "." {
      assert s[..|s| - 1] == t && s[|s| - 1] == b;
    }
  }

  lemma DirectoriesMeetExactly(p: string, q: string)
    requires p != "" && q != ""
    ensures Meet(Directory(p), Directory(q)) <==> DirectoriesMeet(p, q)
  {
    hide Segments, ValidApp, JoinPath, Clean;
    if Meet(Directory(p), Directory(q)) {
      var a, b :| ValidApp(a) && ValidApp(b) && RepositoryOf(Directory(p), a) == RepositoryOf(Directory(q), b);
      DirectoryOfApp(p, a);
      DirectoryOfApp(q, b);
      CleanDetermines(p + "/" + a, q + "/" + b);
      BelowMeets(p, a, q, b);
    }
    if DirectoriesMeet(p, q) {
      var a, b := MeetingApps(p, q);
      DirectoryOfApp(p, a);
      DirectoryOfApp(q, b);
      SameClean(p + "/" + a, q + "/" + b);
      assert RepositoryOf(Directory(p), a) == RepositoryOf(Directory(q), b);
    }
  }

  lemma SameClean(p: string, q: string)
    requires IsAbs(p) == IsAbs(q) && Segments(p) == Segments(q)
    ensures Clean(p) == Clean(q)
  {
  }

  lemma MeetingApps(p: string, q: string) returns (a: string, b: string)
    requires DirectoriesMeet(p, q)
    ensures ValidApp(a) && ValidApp(b) && Below(p, a) == Below(q, b)
  {
    hide Segments;
    var s, t := Segments(p), Segments(q);
    if s == t {
      a, b := "x", "x";
    } else if IsAppIn(s, t) {
      a, b := ".", s[|s| - 1];
      assert s == t + [b];
      SegmentsNoDot(p);
    } else {
      a, b := t[|t| - 1], ".";
      assert t == s + [a];
      SegmentsNoDot(q);
    }
  }

  // -------------------------------------------------------------- templates

  predicate Ends(s: string, q: string) {
    |q| <= |s| && s[|s| - |q|..] == q
  }

  function Front(s: string, q: string): string
    requires Ends(s, q)
  {
    s[..|s| - |q|]
  }

  /** x is an app and the beginning of y, of which an app is left over. */
  predicate OverlapAt(x: string, y: string, n: nat)
    requires n <= |x|
  {
    ValidApp(x[..n]) && x[n..] <= y && ValidApp(y[|x| - n..])
  }

  predicate Overlap(x: string, y: string) {
    exists n :: 0 <= n <= |x| && OverlapAt(x, y, n)
  }

  ghost predicate Fills(q1: string, x: string, q2: string) {
    exists a, b :: ValidApp(a) && ValidApp(b) && a + q1 == x + b + q2
  }

  /** One text can be read both as an app before q1 and as x, an app and q2. */
  predicate CanFill(q1: string, x: string, q2: string) {
    || (Ends(q2, q1) && Plain(x) && Plain(Front(q2, q1)))
    || (Ends(q1, q2) && ((Plain(x) && Plain(Front(q1, q2))) || Overlap(x, Front(q1, q2))))
  }

  lemma PlainAround(x: string, y: string)
    requires Plain(x) && Plain(y)
    ensures ValidApp(x + "x" + y)
  {
    var s := x + "x" + y;
    forall i | 0 <= i < |s| - 1 ensures !DotsAt(s, i) {
      if i + 1 < |x| {
        assert !DotsAt(x, i);
      } else if i > |x| {
        assert !DotsAt(y, i - |x| - 1);
      }
    }
  }

  lemma FillsIf(q1: string, x: string, q2: string)
    requires CanFill(q1, x, q2)
    ensures Fills(q1, x, q2)
  {
    hide ValidApp, Plain, Overlap, Fills;
    if Ends(q2, q1) && Plain(x) && Plain(Front(q2, q1)) {
      FillsWider(q1, x, Front(q2, q1));
      assert q2 == Front(q2, q1) + q1;
    } else {
      var y := Front(q1, q2);
      assert q1 == y + q2;
      if Plain(x) && Plain(y) {
        FillsBoth(x, y, q2);
      } else {
        FillsOverlapping(x, y, q2);
      }
    }
  }

  lemma FillsWider(q1: string, x: string, y: string)
    requires Plain(x) && Plain(y)
    ensures Fills(q1, x, y + q1)
  {
    hide ValidApp, Plain;
    NoText();
    PlainAround(x, y);
    PlainAround("", "");
    var a, b := x + "x" + y, "" + "x" + "";
    assert a + q1 == x + b + (y + q1);
  }

  lemma FillsBoth(x: string, y: string, q2: string)
    requires Plain(x) && Plain(y)
    ensures Fills(y + q2, x, q2)
  {
    hide ValidApp, Plain;
    NoText();
    PlainAround(x, "");
    PlainAround("", y);
    var a, b := x + "x" + "", "" + "x" + y;
    assert a + (y + q2) == x + b + q2;
  }

  lemma FillsOverlapping(x: string, y: string, q2: string)
    requires Overlap(x, y)
    ensures Fills(y + q2, x, q2)
  {
    hide ValidApp;
    var n :| 0 <= n <= |x| && OverlapAt(x, y, n);
    var a, w, b := x[..n], x[n..], y[|x| - n..];
    assert x == a + w && y == w + b;
    assert a + (y + q2) == x + b + q2;
  }

  lemma NoText()
    ensures Plain("")
  {
  }

  lemma OnlyIfFills(q1: string, x: string, q2: string, a: string, b: string)
    requires ValidApp(a) && ValidApp(b) && a + q1 == x + b + q2
    ensures CanFill(q1, x, q2)
  {
    hide ValidApp, Plain, Overlap;
    if |q1| <= |q2| {
      SameEnd(a, q1, x + b, q2);
      var y := Front(q2, q1);
      assert q2 == y + q1 && x + b + q2 == (x + b + y) + q1;
      SameTail(a, x + b + y, q1);
      OuterParts(a, x, b, y);
    } else {
      SameEnd(x + b, q2, a, q1);
      var y := Front(q1, q2);
      assert q1 == y + q2 && a + q1 == (a + y) + q2;
      SameTail(a + y, x + b, q2);
      ReadTwice(a, y, x, b);
    }
  }

  /** The shorter of two endings of one text ends the longer. */
  lemma SameEnd(u: string, q: string, v: string, r: string)
    requires u + q == v + r && |q| <= |r|
    ensures Ends(r, q)
  {
    var s := u + q;
    assert r == s[|s| - |r|..] && q == s[|s| - |q|..];
    assert r[|r| - |q|..] == s[|s| - |q|..];
  }

  lemma OuterParts(a: string, x: string, b: string, y: string)
    requires ValidApp(a) && a == x + b + y
    ensures Plain(x) && Plain(y)
  {
    PlainPart(a, 0, |x|);
    PlainPart(a, |x| + |b|, |a|);
    assert a[0..|x|] == x && a[|x| + |b|..|a|] == y;
  }

  lemma SameTail(s: string, t: string, q: string)
    requires s + q == t + q
    ensures s == t
  {
    assert s == (s + q)[..|s|] && t == (t + q)[..|t|];
  }

  lemma ReadTwice(a: string, y: string, x: string, b: string)
    requires ValidApp(a) && ValidApp(b) && a + y == x + b
    ensures (Plain(x) && Plain(y)) || Overlap(x, y)
  {
    var s := a + y;
    assert x == s[..|x|] && b == s[|x|..] && a == s[..|a|] && y == s[|a|..];
    if |x| <= |a| {
      assert x == a[..|x|] && y == b[|a| - |x|..];
      PlainPart(a, 0, |x|);
      PlainPart(b, |a| - |x|, |b|);
      assert a[0..|x|] == x && b[|a| - |x|..|b|] == y;
    } else {
      var n := |a|;
      assert x[..n] == a && x[n..] == s[n..|x|] && y[|x| - n..] == b;
      assert x[n..] <= y;
      assert OverlapAt(x, y, n);
    }
  }

  lemma FillsExactly(q1: string, x: string, q2: string)
    ensures Fills(q1, x, q2) <==> CanFill(q1, x, q2)
  {
    hide CanFill, ValidApp;
    if Fills(q1, x, q2) {
      var a, b :| ValidApp(a) && ValidApp(b) && a + q1 == x + b + q2;
      OnlyIfFills(q1, x, q2, a, b);
    }
    if CanFill(q1, x, q2) {
      FillsIf(q1, x, q2);
    }
  }

  predicate TemplatesMeet(p1: string, q1: string, p2: string, q2: string) {
    (p1 <= p2 && CanFill(q1, p2[|p1|..], q2)) || (p2 <= p1 && CanFill(q2, p1[|p2|..], q1))
  }

  lemma LongerPrefix(p1: string, q1: string, p2: string, q2: string, a: string, b: string)
    requires p1 <= p2
    ensures p1 + a + q1 == p2 + b + q2 <==> a + q1 == p2[|p1|..] + b + q2
  {
    var x := p2[|p1|..];
    assert p2 == p1 + x;
    assert p1 + a + q1 == p1 + (a + q1) && p2 + b + q2 == p1 + (x + b + q2);
    assert (p1 + (a + q1))[|p1|..] == a + q1 && (p1 + (x + b + q2))[|p1|..] == x + b + q2;
  }

  lemma PrefixesMeet(p1: string, q1: string, p2: string, q2: string)
    requires p1 <= p2
    ensures Meet(Templated(p1, q1), Templated(p2, q2)) <==> Fills(q1, p2[|p1|..], q2)
  {
    hide ValidApp;
    var x := p2[|p1|..];
    forall a, b ensures p1 + a + q1 == p2 + b + q2 <==> a + q1 == x + b + q2 {
      LongerPrefix(p1, q1, p2, q2, a, b);
    }
    if Meet(Templated(p1, q1), Templated(p2, q2)) {
      var a, b :| ValidApp(a) && ValidApp(b) &&
        RepositoryOf(Templated(p1, q1), a) == RepositoryOf(Templated(p2, q2), b);
      assert a + q1 == x + b + q2;
    }
    if Fills(q1, x, q2) {
      var a, b :| ValidApp(a) && ValidApp(b) && a + q1 == x + b + q2;
      assert RepositoryOf(Templated(p1, q1), a) == RepositoryOf(Templated(p2, q2), b);
    }
  }

  lemma MeetIsSymmetric(p: Place, q: Place)
    ensures Meet(p, q) <==> Meet(q, p)
  {
    hide RepositoryOf, ValidApp;
  }

  lemma TemplatesMeetExactly(p1: string, q1: string, p2: string, q2: string)
    ensures Meet(Templated(p1, q1), Templated(p2, q2)) <==> TemplatesMeet(p1, q1, p2, q2)
  {
    hide Meet, CanFill;
    MeetIsSymmetric(Templated(p1, q1), Templated(p2, q2));
    if p1 <= p2 {
      PrefixesMeet(p1, q1, p2, q2);
      FillsExactly(q1, p2[|p1|..], q2);
    }
    if p2 <= p1 {
      PrefixesMeet(p2, q2, p1, q1);
      FillsExactly(q2, p1[|p2|..], q1);
    }
    if !(p1 <= p2) && !(p2 <= p1) {
      NoCommonStart(p1, q1, p2, q2);
    }
  }

  lemma NoCommonStart(p1: string, q1: string, p2: string, q2: string)
    requires !(p1 <= p2) && !(p2 <= p1)
    ensures !Meet(Templated(p1, q1), Templated(p2, q2))
  {
    hide ValidApp;
    forall a, b ensures p1 + a + q1 != p2 + b + q2 {
      assert p1 + a + q1 == p1 + (a + q1) && p2 + b + q2 == p2 + (b + q2);
      Starts(p1, a + q1, p2, b + q2);
    }
  }

  lemma Starts(p1: string, u: string, p2: string, v: string)
    ensures p1 + u == p2 + v ==> p1 <= p2 || p2 <= p1
  {
    var s := p1 + u;
    if p1 + u == p2 + v {
      assert p1 == s[..|p1|] && p2 == s[..|p2|];
    }
  }

  predicate FixedMeets(url: string, pre: string, post: string) {
    && |pre| + |post| <= |url| && pre <= url && Ends(url, post)
    && ValidApp(url[|pre|..|url| - |post|])
  }

  lemma FixedMeetsExactly(url: string, pre: string, post: string)
    ensures Meet(Fixed(url), Templated(pre, post)) <==> FixedMeets(url, pre, post)
  {
    if FixedMeets(url, pre, post) {
      var b := url[|pre|..|url| - |post|];
      assert url == pre + b + post;
      assert RepositoryOf(Fixed(url), b) == RepositoryOf(Templated(pre, post), b);
    }
    if Meet(Fixed(url), Templated(pre, post)) {
      var a, b :| ValidApp(a) && ValidApp(b) && RepositoryOf(Fixed(url), a) == RepositoryOf(Templated(pre, post), b);
      assert url == pre + b + post;
      assert url[|pre|..|url| - |post|] == b && url[|url| - |post|..] == post;
    }
  }

  // ---------------------------------------------------------- configurations

  predicate CanMeet(p: Place, q: Place) {
    match (p, q)
    case (Directory(x), Directory(y)) => DirectoriesMeet(x, y)
    case (Fixed(x), Fixed(y)) => x == y
    case (Fixed(x), Templated(pre, post)) => FixedMeets(x, pre, post)
    case (Templated(pre, post), Fixed(x)) => FixedMeets(x, pre, post)
    case (Templated(p1, q1), Templated(p2, q2)) => TemplatesMeet(p1, q1, p2, q2)
    case _ => false
  }

  predicate Sensible(p: Place) {
    p.Directory? ==> p.path != ""
  }

  /** At most one "{app}". */
  predicate Usable(p: Place) {
    Sensible(p) && !p.Pattern?
  }

  lemma SomeApp()
    ensures ValidApp("x")
  {
  }

  /** Two targets share some repository exactly under a condition on their settings. */
  lemma MeetExactly(p: Place, q: Place)
    requires Usable(p) && Usable(q)
    ensures Meet(p, q) <==> CanMeet(p, q)
  {
    hide DirectoriesMeet, TemplatesMeet, FixedMeets, ValidApp;
    SomeApp();
    if p.Directory? && q.Directory? {
      DirectoriesMeetExactly(p.path, q.path);
    } else if p.Fixed? && q.Fixed? {
      assert p.url == q.url ==> RepositoryOf(p, "x") == RepositoryOf(q, "x");
    } else if p.Fixed? && q.Templated? {
      FixedMeetsExactly(p.url, q.pre, q.post);
    } else if p.Templated? && q.Fixed? {
      FixedMeetsExactly(q.url, p.pre, p.post);
      MeetIsSymmetric(p, q);
    } else if p.Templated? && q.Templated? {
      TemplatesMeetExactly(p.pre, p.post, q.pre, q.post);
    }
  }

  /** Within one target: different apps have different repositories. */
  ghost predicate AppsApart(p: Place) {
    forall a, b | ValidApp(a) && ValidApp(b) && RepositoryOf(p, a) == RepositoryOf(p, b) :: a == b
  }

  /** The setting mentions the app. */
  predicate MentionsApp(p: Place) {
    match p
    case Fixed(_) => false
    case Pattern(text) => HasHole(text)
    case _ => true
  }

  /** That holds exactly if the setting mentions the app, however often. */
  lemma AppsApartExactly(p: Place)
    requires Sensible(p)
    ensures AppsApart(p) <==> MentionsApp(p)
  {
    hide ValidApp, JoinPath, HasHole, Substitute;
    if !MentionsApp(p) {
      TwoApps();
      if p.Pattern? {
        SubstituteFixed(p.text, "x");
        SubstituteFixed(p.text, "y");
      }
      assert RepositoryOf(p, "x") == RepositoryOf(p, "y");
    } else {
      forall a, b | ValidApp(a) && ValidApp(b) && RepositoryOf(p, a) == RepositoryOf(p, b) ensures a == b {
        if p.Pattern? {
          SubstituteTells(p.text, a, b);
        } else {
          OneApp(p, a, b);
        }
      }
    }
  }

  lemma HoleBehind(s: string)
    requires s != "" && HasHole(s) && !HoleAt(s, 0)
    ensures HasHole(s[1..])
  {
    var i :| 0 <= i < |s| && HoleAt(s, i);
    assert s[1..][i - 1..i + 4] == s[i..i + 5];
    assert HoleAt(s[1..], i - 1);
  }

  /** A longer app makes a longer location. */
  lemma {:induction false} SubstituteLonger(s: string, a: string, b: string)
    requires |a| < |b|
    ensures |Substitute(s, a)| <= |Substitute(s, b)|
    ensures HasHole(s) ==> |Substitute(s, a)| < |Substitute(s, b)|
    decreases |s|
  {
    hide HasHole;
    if s == "" {
      NoHoleInNothing();
    } else if HoleAt(s, 0) {
      SubstituteLonger(s[5..], a, b);
    } else {
      SubstituteLonger(s[1..], a, b);
      if HasHole(s) {
        HoleBehind(s);
      }
    }
  }

  lemma NoHoleInNothing()
    ensures !HasHole("")
  {
  }

  lemma {:induction false} SubstituteSameLength(s: string, a: string, b: string)
    requires |a| == |b| && HasHole(s) && Substitute(s, a) == Substitute(s, b)
    ensures a == b
    decreases |s|
  {
    hide HasHole;
    if s == "" {
      NoHoleInNothing();
    } else if HoleAt(s, 0) {
      assert a == Substitute(s, a)[..|a|] && b == Substitute(s, b)[..|b|];
    } else {
      HoleBehind(s);
      assert Substitute(s[1..], a) == Substitute(s, a)[1..] && Substitute(s[1..], b) == Substitute(s, b)[1..];
      SubstituteSameLength(s[1..], a, b);
    }
  }

  /** A location that mentions the app, at least once, tells which app it is for. */
  lemma SubstituteTells(s: string, a: string, b: string)
    requires HasHole(s) && Substitute(s, a) == Substitute(s, b)
    ensures a == b
  {
    hide HasHole, Substitute;
    if |a| < |b| {
      SubstituteLonger(s, a, b);
    } else if |b| < |a| {
      SubstituteLonger(s, b, a);
    } else {
      SubstituteSameLength(s, a, b);
    }
  }

  lemma TwoApps()
    ensures ValidApp("x") && ValidApp("y") && "x" != "y"
  {
    assert "x"[0] != "y"[0];
  }

  lemma OneApp(p: Place, a: string, b: string)
    requires Usable(p) && MentionsApp(p) && ValidApp(a) && ValidApp(b) && RepositoryOf(p, a) == RepositoryOf(p, b)
    ensures a == b
  {
    hide ValidApp, JoinPath, Segments, Clean;
    if p.Directory? {
      DirectoryOfApp(p.path, a);
      DirectoryOfApp(p.path, b);
      CleanDetermines(p.path + "/" + a, p.path + "/" + b);
      var s := Segments(p.path);
      if a != "." && b != "." {
        assert (s + [a])[|s|] == a && (s + [b])[|s|] == b;
      }
    } else {
      var s, t := p.pre + a + p.post, p.pre + b + p.post;
      assert a == s[|p.pre|..|s| - |p.post|] && b == t[|p.pre|..|t| - |p.post|];
    }
  }

  /** A repository belongs to one target and one app: what the lock keys rely on. */
  ghost predicate OneOwnerEach(ps: seq<Place>) {
    forall i, j, a, b | 0 <= i < |ps| && 0 <= j < |ps| && ValidApp(a) && ValidApp(b) &&
                        RepositoryOf(ps[i], a) == RepositoryOf(ps[j], b) :: i == j && a == b
  }

  predicate Disjoint(ps: seq<Place>) {
    && (forall i | 0 <= i < |ps| :: MentionsApp(ps[i]))
    && forall i, j | 0 <= i < j < |ps| :: !CanMeet(ps[i], ps[j])
  }

  /** Every repository has one owner exactly when every target's setting mentions the app and no two
      can meet. */
  lemma OneOwnerExactly(ps: seq<Place>)
    requires forall i | 0 <= i < |ps| :: Usable(ps[i])
    ensures OneOwnerEach(ps) <==> Disjoint(ps)
  {
    hide ValidApp, RepositoryOf, CanMeet, MentionsApp;
    forall i | 0 <= i < |ps| ensures AppsApart(ps[i]) <==> MentionsApp(ps[i]) {
      AppsApartExactly(ps[i]);
    }
    forall i, j | 0 <= i < j < |ps| ensures Meet(ps[i], ps[j]) <==> CanMeet(ps[i], ps[j]) {
      MeetExactly(ps[i], ps[j]);
    }
    forall i, j | 0 <= i < j < |ps| ensures Meet(ps[i], ps[j]) <==> Meet(ps[j], ps[i]) {
      MeetIsSymmetric(ps[i], ps[j]);
    }
  }
}
