/**
 Slash-separated paths, and what string tests on them mean. `Clean`
 and `JoinPath` are Go's path.Clean and path.Join, given through the list of path
 segments. For absolute paths the cleaned string and the segment list are two
 spellings of the same thing.
 */
module Paths {

  function Split(s: string): (segs: seq<string>)
    ensures segs != []
  {
    if s == "" then [""]
    else
      var rest := Split(s[1..]);
      if s[0] == '/' then [""] + rest else [[s[0]] + rest[0]] + rest[1..]
  }

  function Join(segs: seq<string>): string {
    if segs == [] then ""
    else if |segs| == 1 then segs[0]
    else segs[0] + "/" + Join(segs[1..])
  }

  /** One segment at a time: empty ones and "." go, ".." takes its parent with it. */
  function Push(rooted: bool, out: seq<string>, seg: string): seq<string> {
    if seg == "" || seg == "." then out
    else if seg != ".." then out + [seg]
    else if out != [] && out[|out| - 1] != ".." then out[..|out| - 1]
    else if rooted then out
    else out + [seg]
  }

  function Resolve(rooted: bool, out: seq<string>, segs: seq<string>): seq<string>
    decreases |segs|
  {
    if segs == [] then out else Resolve(rooted, Push(rooted, out, segs[0]), segs[1..])
  }

  predicate IsAbs(p: string) {
    p != "" && p[0] == '/'
  }

  /** The cleaned path's segments. */
  function Segments(p: string): seq<string> {
    Resolve(IsAbs(p), [], Split(p))
  }

  function Clean(p: string): string {
    var segs := Segments(p);
    if IsAbs(p) then Abs(segs) else if segs == [] then "." else Join(segs)
  }

  /** The clean absolute path with the given segments. */
  function Abs(segs: seq<string>): string {
    "/" + Join(segs)
  }

  /** path.Join of two or more elements, empty ones left out. */
  function JoinPath(elems: seq<string>): string {
    var some := NonEmpty(elems);
    if some == [] then "" else Clean(Join(some))
  }

  function NonEmpty(elems: seq<string>): seq<string> {
    if elems == [] then []
    else (if elems[0] == "" then [] else [elems[0]]) + NonEmpty(elems[1..])
  }

  // --------------------------------------------------------- proper segments

  predicate NoSlash(seg: string) {
    '/' !in seg
  }

  /** A segment that a cleaned absolute path can have. */
  predicate Proper(seg: string) {
    seg != "" && seg != "." && seg != ".." && NoSlash(seg)
  }

  predicate AllProper(segs: seq<string>) {
    forall i | 0 <= i < |segs| :: Proper(segs[i])
  }

  lemma {:induction false} SplitNoSlash(s: string)
    ensures forall i | 0 <= i < |Split(s)| :: NoSlash(Split(s)[i])
  {
    if s != "" {
      SplitNoSlash(s[1..]);
      var rest := Split(s[1..]);
      assert NoSlash(rest[0]);
    }
  }

  lemma {:induction false} SplitOne(s: string)
    requires NoSlash(s)
    ensures Split(s) == [s]
  {
    if s != "" {
      SplitOne(s[1..]);
      assert [s[0]] + s[1..] == s;
    }
  }

  lemma SplitCons(c: char, s: string)
    ensures Split([c] + s) ==
            if c == '/' then [""] + Split(s) else [[c] + Split(s)[0]] + Split(s)[1..]
  {
    assert ([c] + s)[1..] == s;
  }

  lemma {:induction false} SplitConcat(s: string, t: string)
    ensures Split(s + "/" + t) == Split(s) + Split(t)
  {
    hide Split;
    if s == "" {
      SplitCons('/', t);
      SplitEmpty();
      assert s + "/" + t == ['/'] + t;
    } else {
      var c, r := s[0], s[1..];
      SplitConcat(r, t);
      SplitCons(c, r);
      SplitCons(c, r + "/" + t);
      assert s == [c] + r && s + "/" + t == [c] + (r + "/" + t);
      var rest := Split(r);
      assert (rest + Split(t))[0] == rest[0] && (rest + Split(t))[1..] == rest[1..] + Split(t);
      assert [""] + (rest + Split(t)) == [""] + rest + Split(t);
    }
  }

  lemma SplitEmpty()
    ensures Split("") == [""]
  {
  }

  lemma {:induction false} SplitJoin(segs: seq<string>)
    requires segs != [] && forall i | 0 <= i < |segs| :: NoSlash(segs[i])
    ensures Split(Join(segs)) == segs
    decreases |segs|
  {
    if |segs| == 1 {
      SplitOne(segs[0]);
    } else {
      SplitJoin(segs[1..]);
      SplitConcat(segs[0], Join(segs[1..]));
      SplitOne(segs[0]);
      assert [segs[0]] + segs[1..] == segs;
    }
  }

  lemma {:induction false} ResolveConcat(rooted: bool, out: seq<string>, a: seq<string>, b: seq<string>)
    ensures Resolve(rooted, out, a + b) == Resolve(rooted, Resolve(rooted, out, a), b)
    decreases |a|
  {
    if a == [] {
      assert a + b == b;
    } else {
      assert (a + b)[1..] == a[1..] + b;
      ResolveConcat(rooted, Push(rooted, out, a[0]), a[1..], b);
    }
  }

  lemma {:induction false} ResolveProper(out: seq<string>, segs: seq<string>)
    requires AllProper(out) && forall i | 0 <= i < |segs| :: NoSlash(segs[i])
    ensures AllProper(Resolve(true, out, segs))
    decreases |segs|
  {
    if segs != [] {
      ResolveProper(Push(true, out, segs[0]), segs[1..]);
    }
  }

  lemma {:induction false} ResolveKeepsProper(rooted: bool, out: seq<string>, segs: seq<string>)
    requires AllProper(segs)
    ensures Resolve(rooted, out, segs) == out + segs
    decreases |segs|
  {
    if segs != [] {
      assert Proper(segs[0]);
      ResolveKeepsProper(rooted, out + [segs[0]], segs[1..]);
      assert out + [segs[0]] + segs[1..] == out + segs;
    }
  }

  /** Cleaning an absolute path leaves proper segments only. */
  lemma SegmentsProper(p: string)
    requires IsAbs(p)
    ensures AllProper(Segments(p)) && Clean(p) == Abs(Segments(p))
  {
    SplitNoSlash(p);
    ResolveProper([], Split(p));
  }

  /** A clean absolute path and its segments determine each other. */
  lemma SegmentsOfAbs(segs: seq<string>)
    requires AllProper(segs)
    ensures IsAbs(Abs(segs)) && Segments(Abs(segs)) == segs && Clean(Abs(segs)) == Abs(segs)
  {
    var p := Abs(segs);
    assert p == "" + "/" + Join(segs);
    SplitConcat("", Join(segs));
    assert Split("") == [""];
    if segs == [] {
      assert Split(p) == [""] + [""];
      assert Resolve(true, [], [""] + [""]) == [] by {
        assert ([""] + [""])[1..] == [""];
      }
    } else {
      assert forall i | 0 <= i < |segs| :: NoSlash(segs[i]) by {
        assert forall i | 0 <= i < |segs| :: Proper(segs[i]);
      }
      SplitJoin(segs);
      ResolveConcat(true, [], [""], segs);
      assert Resolve(true, [], [""]) == [];
      ResolveKeepsProper(true, [], segs);
      assert [] + segs == segs;
    }
  }

  lemma CleanIsIdempotent(p: string)
    requires IsAbs(p)
    ensures IsAbs(Clean(p)) && Clean(Clean(p)) == Clean(p) && Segments(Clean(p)) == Segments(p)
  {
    SegmentsProper(p);
    SegmentsOfAbs(Segments(p));
  }

  /** Appending proper segments to an absolute path, cleaned. */
  lemma CleanAppend(p: string, segs: seq<string>)
    requires IsAbs(p) && segs != [] && AllProper(segs)
    ensures Clean(p + "/" + Join(segs)) == Abs(Segments(p) + segs)
  {
    var q := p + "/" + Join(segs);
    assert IsAbs(q);
    SplitConcat(p, Join(segs));
    assert forall i | 0 <= i < |segs| :: NoSlash(segs[i]) by {
      assert forall i | 0 <= i < |segs| :: Proper(segs[i]);
    }
    SplitJoin(segs);
    ResolveConcat(true, [], Split(p), segs);
    ResolveKeepsProper(true, Segments(p), segs);
  }

  // ------------------------------------------------------ prefixes, ancestors

  predicate HasPrefix(s: string, prefix: string) {
    prefix <= s
  }

  function TrimPrefix(s: string, prefix: string): string {
    if prefix <= s then s[|prefix|..] else s
  }

  /** The first segments of two slash-terminated strings can be read off. */
  lemma FirstSegment(x: string, u: string, y: string, v: string)
    requires NoSlash(x) && NoSlash(y)
    ensures x + "/" + u <= y + "/" + v <==> x == y && u <= v
  {
    var s, t := x + "/" + u, y + "/" + v;
    assert s[|x|] == '/' && t[|y|] == '/';
    assert forall i | 0 <= i < |x| :: s[i] == x[i] != '/';
    assert forall i | 0 <= i < |y| :: t[i] == y[i] != '/';
    assert s <= t ==> |x| == |y| by {
      assert s <= t ==> t[|x|] == s[|x|] && (|y| < |s| ==> s[|y|] == t[|y|]);
    }
    assert |x| == |y| ==> (s <= t <==> x == y && u <= v) by {
      assert x == s[..|x|] && y == t[..|y|] && u == s[|x| + 1..] && v == t[|y| + 1..];
    }
  }

  /** The segments, each with a slash behind it. */
  function Terminated(segs: seq<string>): string {
    if segs == [] then "" else segs[0] + "/" + Terminated(segs[1..])
  }

  lemma {:induction false} JoinTerminated(segs: seq<string>)
    requires segs != []
    ensures Join(segs) + "/" == Terminated(segs)
    decreases |segs|
  {
    if |segs| > 1 {
      JoinTerminated(segs[1..]);
      assert Join(segs) + "/" == segs[0] + "/" + (Join(segs[1..]) + "/");
    } else {
      assert Terminated(segs[1..]) == "";
    }
  }

  lemma {:induction false} TerminatedConcat(a: seq<string>, b: seq<string>)
    ensures Terminated(a + b) == Terminated(a) + Terminated(b)
    decreases |a|
  {
    if a == [] {
      assert a + b == b;
    } else {
      assert (a + b)[1..] == a[1..] + b;
      TerminatedConcat(a[1..], b);
    }
  }

  lemma {:induction false} TerminatedPrefix(a: seq<string>, b: seq<string>)
    requires AllProper(a) && AllProper(b)
    ensures Terminated(a) <= Terminated(b) <==> a <= b
    decreases |a|
  {
    if a != [] && b != [] {
      assert Proper(a[0]) && Proper(b[0]);
      TerminatedPrefix(a[1..], b[1..]);
      FirstSegment(a[0], Terminated(a[1..]), b[0], Terminated(b[1..]));
      assert a == [a[0]] + a[1..] && b == [b[0]] + b[1..];
    } else if a != [] {
      assert Terminated(a) != "";
    }
  }

  lemma JoinBelow(a: seq<string>, rest: seq<string>)
    requires a != [] && rest != []
    ensures Join(a + rest) == Join(a) + "/" + Join(rest)
  {
    hide Terminated, Join;
    JoinTerminated(a);
    JoinTerminated(rest);
    JoinTerminated(a + rest);
    TerminatedConcat(a, rest);
    assert Join(a + rest) + "/" == (Join(a) + "/" + Join(rest)) + "/";
    assert forall x: string, y: string :: x + "/" == y + "/" ==> x == y by {
      forall x: string, y: string | x + "/" == y + "/" ensures x == y {
        assert (x + "/")[..|x|] == x && (y + "/")[..|y|] == y;
      }
    }
  }

  lemma JoinNotBelow(a: seq<string>, b: seq<string>)
    requires AllProper(a) && AllProper(b) && a != [] && Join(a) + "/" <= Join(b)
    ensures a < b
  {
    hide AllProper, Terminated, Join;
    JoinTerminated(a);
    if b == [] {
      JoinEmpty();
    } else {
      JoinTerminated(b);
      assert Terminated(a) <= Terminated(b) && |Terminated(a)| < |Terminated(b)|;
      TerminatedPrefix(a, b);
      assert |a| == |b| ==> a == b;
    }
  }

  lemma JoinEmpty()
    ensures Join([]) == ""
  {
  }

  lemma JoinPrefix(a: seq<string>, b: seq<string>)
    requires AllProper(a) && AllProper(b) && a != []
    ensures Join(a) + "/" <= Join(b) <==> a < b
    ensures a < b ==> Join(b) == Join(a) + "/" + Join(b[|a|..])
  {
    hide AllProper, Join;
    if a < b {
      assert b == a + b[|a|..];
      JoinBelow(a, b[|a|..]);
    } else if Join(a) + "/" <= Join(b) {
      JoinNotBelow(a, b);
    }
  }

  /** The string test for "below": on clean absolute paths it is the proper prefix relation
      on segment lists, and trimming the prefix leaves the segments below. */
  lemma PrefixMeansBelow(a: seq<string>, b: seq<string>)
    requires AllProper(a) && AllProper(b) && a != []
    ensures HasPrefix(Abs(b), Abs(a) + "/") <==> a < b
    ensures a < b ==> TrimPrefix(Abs(b), Abs(a) + "/") == Join(b[|a|..])
  {
    JoinPrefix(a, b);
    assert Abs(a) + "/" == "/" + (Join(a) + "/");
    if Abs(a) + "/" <= Abs(b) {
      assert (Abs(a) + "/")[1..] == Join(a) + "/" && Abs(b)[1..] == Join(b);
    }
    if a < b {
      assert Abs(b) == Abs(a) + "/" + Join(b[|a|..]);
    }
  }

  lemma AbsInjective(a: seq<string>, b: seq<string>)
    requires AllProper(a) && AllProper(b) && Abs(a) == Abs(b)
    ensures a == b
  {
    SegmentsOfAbs(a);
    SegmentsOfAbs(b);
  }

  // ---------------------------------------------------------- relative paths

  /** A segment that any cleaned path can have. */
  predicate Filled(seg: string) {
    seg != "" && NoSlash(seg)
  }

  predicate AllFilled(segs: seq<string>) {
    forall i | 0 <= i < |segs| :: Filled(segs[i])
  }

  lemma PushFilled(rooted: bool, out: seq<string>, seg: string)
    requires AllFilled(out) && NoSlash(seg)
    ensures AllFilled(Push(rooted, out, seg))
  {
  }

  lemma {:induction false} ResolveFilled(rooted: bool, out: seq<string>, segs: seq<string>)
    requires AllFilled(out) && forall i | 0 <= i < |segs| :: NoSlash(segs[i])
    ensures AllFilled(Resolve(rooted, out, segs))
    decreases |segs|
  {
    hide Push, AllFilled;
    if segs != [] {
      PushFilled(rooted, out, segs[0]);
      ResolveFilled(rooted, Push(rooted, out, segs[0]), segs[1..]);
    }
  }

  lemma RelativeStaysRelative(p: string)
    requires !IsAbs(p)
    ensures Clean(p) != "" && !IsAbs(Clean(p))
  {
    SplitNoSlash(p);
    ResolveFilled(IsAbs(p), [], Split(p));
    var segs := Segments(p);
    if segs != [] {
      assert Filled(segs[0]);
      assert Clean(p)[0] == segs[0][0];
    }
  }

  // --------------------------------------------------------- path by path

  lemma OneMore(rooted: bool, out: seq<string>, x: string)
    ensures Resolve(rooted, out, [x]) ==
            if x == "" || x == "." then out
            else if x != ".." then out + [x]
            else if out != [] && out[|out| - 1] != ".." then out[..|out| - 1]
            else if rooted then out
            else out + [".."]
  {
    assert [x][1..] == [];
    assert Resolve(rooted, Push(rooted, out, x), []) == Push(rooted, out, x);
  }

  /** What a further element does to a path: nothing if it is empty or ".", one segment more
      if it is a name, one less if it is "..", which is lost at the root and kept at the
      start of a relative path. */
  lemma SegmentsStep(p: string, x: string)
    requires p != "" && NoSlash(x)
    ensures IsAbs(p + "/" + x) == IsAbs(p)
    ensures var a := Segments(p);
            Segments(p + "/" + x) ==
            if x == "" || x == "." then a
            else if x != ".." then a + [x]
            else if a != [] && a[|a| - 1] != ".." then a[..|a| - 1]
            else if IsAbs(p) then a
            else a + [".."]
  {
    hide Split, Resolve, Push;
    SplitConcat(p, x);
    SplitOne(x);
    ResolveConcat(IsAbs(p), [], Split(p), [x]);
    OneMore(IsAbs(p), Segments(p), x);
  }

  /** Where paths begin. */
  lemma SegmentsStart(x: string)
    requires Proper(x)
    ensures Segments("/") == [] && Segments("") == [] && Segments(".") == []
    ensures Segments("/" + x) == [x] && Segments(x) == [x] && Segments("..") == [".."]
  {
    hide Resolve, Push;
    SplitOne("");
    SplitOne(".");
    SplitOne("..");
    SplitOne(x);
    SplitConcat("", "");
    SplitConcat("", x);
    assert "" + "/" + "" == "/" && "" + "/" + x == "/" + x;
    OneMore(false, [], "");
    OneMore(false, [], ".");
    OneMore(false, [], "..");
    OneMore(false, [], x);
    OneMore(true, [], "");
    OneMore(true, [], x);
    ResolveConcat(true, [], [""], [""]);
    ResolveConcat(true, [], [""], [x]);
  }

  /** How segments are spelled. */
  lemma CleanSpelled(p: string)
    ensures IsAbs(p) && Segments(p) == [] ==> Clean(p) == "/"
    ensures !IsAbs(p) && Segments(p) == [] ==> Clean(p) == "."
    ensures |Segments(p)| == 1 ==> Clean(p) == (if IsAbs(p) then "/" else "") + Segments(p)[0]
    ensures |Segments(p)| > 1 ==> var a := Segments(p);
              Clean(p) == (if IsAbs(p) then "/" else "") + Join(a[..|a| - 1]) + "/" + a[|a| - 1]
  {
    hide Segments;
    var a := Segments(p);
    if |a| > 1 {
      JoinBelow(a[..|a| - 1], [a[|a| - 1]]);
      assert a == a[..|a| - 1] + [a[|a| - 1]];
    }
  }
}
