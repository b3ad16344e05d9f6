/**
 Keys made by joining names with a bar: "<app>|<target>" for schedules and, with
 "|<action>" behind it, for run history. Nothing escapes a bar inside a name, so
 two pairs can share a key; this says exactly when.
 */
module Keys {

  function Key(app: string, target: string): string {
    app + "|" + target
  }

  predicate DotsAt(s: string, i: nat)
    requires i + 1 < |s|
  {
    s[i] == '.' && s[i + 1] == '.'
  }

  /** No path separators and no "..". */
  predicate Plain(s: string) {
    '/' !in s && '\\' !in s && forall i | 0 <= i < |s| - 1 :: !DotsAt(s, i)
  }

  /** ValidAppName. */
  predicate ValidApp(app: string) {
    app != "" && Plain(app)
  }

  /** A name is refused if it is empty or has a slash, a backslash or two dots in a row
      anywhere in it. */
  lemma ValidAppExactly(app: string)
    ensures !ValidApp(app) <==>
            app == "" || exists a, b, c :: app == a + b + c && b in ["/", "\\", ".."]
  {
    if !ValidApp(app) && app != "" {
      if i :| 0 <= i < |app| - 1 && DotsAt(app, i) {
        assert app == app[..i] + ".." + app[i + 2..];
      } else {
        var i :| 0 <= i < |app| && (app[i] == '/' || app[i] == '\\');
        assert app == app[..i] + [app[i]] + app[i + 1..];
        assert [app[i]] in ["/", "\\", ".."];
      }
    }
    if a, b, c :| app == a + b + c && b in ["/", "\\", ".."] {
      if b == ".." {
        assert DotsAt(app, |a|);
      } else {
        assert app[|a|] == b[0];
      }
    }
  }

  /** u ends with a bar and t, behind text that can end an app's name. */
  predicate EndsWith(u: string, t: string) {
    && |u| > |t| && u[|u| - |t|..] == t && u[|u| - |t| - 1] == '|'
    && Plain(u[..|u| - |t| - 1])
  }

  lemma SameTarget(a: string, b: string, t: string)
    requires Key(a, t) == Key(b, t)
    ensures a == b
  {
    assert |a| == |b|;
    assert a == Key(a, t)[..|a|] && b == Key(b, t)[..|b|];
  }

  lemma PlainPart(s: string, i: nat, j: nat)
    requires Plain(s) && i <= j <= |s|
    ensures Plain(s[i..j])
  {
    forall k | 0 <= k < |s[i..j]| - 1 ensures !DotsAt(s[i..j], k) {
      assert !DotsAt(s, i + k);
    }
  }

  /** A shared key makes the longer target end with the shorter. */
  lemma SharedKeyEnds(a: string, t: string, b: string, u: string)
    requires Plain(a) && Key(a, t) == Key(b, u) && |t| < |u|
    ensures EndsWith(u, t)
  {
    var key, n := Key(a, t), |u| - |t| - 1;
    var k := |b| + 1;
    assert key[k..] == u && |a| == k + n;
    assert u[n + 1..] == key[k + n + 1..] == t;
    assert u[n] == key[k + n] == '|';
    assert u[..n] == key[k..k + n] == a[k..k + n];
    PlainPart(a, k, k + n);
  }

  lemma SharedKeyFrom(u: string, t: string) returns (a: string, b: string)
    requires EndsWith(u, t)
    ensures ValidApp(a) && ValidApp(b) && Key(a, t) == Key(b, u) && a != b
  {
    var s := u[..|u| - |t| - 1];
    a, b := "x|" + s, "x";
    forall i | 0 <= i < |a| - 1 ensures !DotsAt(a, i) {
      if i >= 2 {
        assert !DotsAt(s, i - 2);
      }
    }
    assert u == s + "|" + t;
    assert Key(a, t) == "x|" + s + "|" + t && Key(b, u) == "x" + "|" + (s + "|" + t);
  }

  ghost predicate Share(t: string, u: string) {
    exists a, b :: ValidApp(a) && ValidApp(b) && (a != b || t != u) && Key(a, t) == Key(b, u)
  }

  /** Two targets give some pair of apps the same key exactly when the name of one ends
      with a bar and the name of the other. */
  lemma ShareExactly(t: string, u: string)
    ensures Share(t, u) <==> EndsWith(u, t) || EndsWith(t, u)
  {
    hide ValidApp, Plain, EndsWith;
    if Share(t, u) {
      var a, b :| ValidApp(a) && ValidApp(b) && (a != b || t != u) && Key(a, t) == Key(b, u);
      PlainApp(a);
      PlainApp(b);
      if |t| < |u| {
        SharedKeyEnds(a, t, b, u);
      } else if |u| < |t| {
        SharedKeyEnds(b, u, a, t);
      } else {
        assert t == Key(a, t)[|a| + 1..] && u == Key(b, u)[|b| + 1..] && |a| == |b|;
        SameTarget(a, b, t);
      }
    }
    if EndsWith(u, t) {
      var a, b := SharedKeyFrom(u, t);
    }
    if EndsWith(t, u) {
      var a, b := SharedKeyFrom(t, u);
    }
  }

  lemma PlainApp(a: string)
    requires ValidApp(a)
    ensures Plain(a)
  {
  }

  /** Keys of valid apps over a set of targets are unambiguous. */
  ghost predicate Unambiguous(targets: set<string>) {
    forall a, b, t, u | t in targets && u in targets && ValidApp(a) && ValidApp(b) && Key(a, t) == Key(b, u) ::
      a == b && t == u
  }

  predicate NoEndings(targets: set<string>) {
    forall t, u | t in targets && u in targets :: !EndsWith(u, t)
  }

  /** A configuration's keys are unambiguous exactly when no target's name ends with a bar
      and another target's name. */
  lemma UnambiguousExactly(targets: set<string>)
    ensures Unambiguous(targets) <==> NoEndings(targets)
  {
    hide ValidApp, EndsWith, Key;
    if NoEndings(targets) {
      forall a, b, t, u | t in targets && u in targets && ValidApp(a) && ValidApp(b) && Key(a, t) == Key(b, u)
        ensures a == b && t == u
      {
        ShareExactly(t, u);
      }
    }
    if Unambiguous(targets) {
      forall t, u | t in targets && u in targets ensures !EndsWith(u, t) {
        ShareExactly(t, u);
      }
    }
  }

  /** With targets named without bars there is no ambiguity. */
  lemma NoBarsIsEnough(targets: set<string>)
    requires forall t | t in targets :: '|' !in t
    ensures Unambiguous(targets)
  {
    hide Unambiguous;
    UnambiguousExactly(targets);
  }

  /** "a" and "b|a": the app "x|b" on the first has the key of the app "x" on the second. */
  lemma AmbiguousKeys()
    ensures ValidApp("x|b") && ValidApp("x") && Key("x|b", "a") == Key("x", "b|a")
    ensures !Unambiguous({"a", "b|a"})
  {
    assert Key("x|b", "a") == "x|b|a" == Key("x", "b|a");
    assert "x|b" != "x" by {
      assert |"x|b"| != |"x"|;
    }
    assert "a" in {"a", "b|a"} && "b|a" in {"a", "b|a"};
  }
}
