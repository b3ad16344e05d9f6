/**
 Mount names: readable base names, and a Namer that hands out safe names no two
 of which are equal. The suffix loop of Pick ends by counting: the candidates it
 tries are pairwise distinct, so at most |seen| of them can be taken.
 */
module Naming {
  import opened Lists
  import opened Decimal
  import opened Paths

  const INT64_MAX := 0x7FFF_FFFF_FFFF_FFFF

  // ------------------------------------------------------------------ itoa

  function Pow10(p: nat): nat {
    if p == 0 then 1 else 10 * Pow10(p - 1)
  }

  lemma Pow10Of20()
    ensures INT64_MAX < Pow10(20)
  {
    assert Pow10(5) == 100_000;
    assert Pow10(10) == 10_000_000_000;
    assert Pow10(15) == 1_000_000_000_000_000;
  }

  /** The digits of a positive number end with its remainder by ten. */
  function Digits(n: nat): string {
    if n == 0 then "" else Format(n)
  }

  lemma DigitsStep(n: nat)
    requires n > 0
    ensures Digits(n) == Digits(n / 10) + [Digit(n % 10)]
  {
  }

  /** itoa: digits from the back of a 20-byte buffer, which always suffices. */
  method Itoa(n: int) returns (s: string)
    requires n <= INT64_MAX
    ensures s == if n < 0 then "" else Format(n)
  {
    if n == 0 {
      return "0";
    }
    var b := new char[20];
    hide Pow10, Digits, Format, Digit;
    var p, i := b.Length, n;
    Pow10Of20();
    DigitsAre(n);
    while i > 0
      invariant 0 <= p <= b.Length
      invariant i > 0 ==> i < Pow10(p)
      invariant Written(n, i, b[p..])
    {
      Pow10Step(p, i);
      WrittenStep(n, i, b[p..]);
      WriteDigit(b, p, i % 10);
      p, i := p - 1, i / 10;
    }
    s := b[p..];
  }

  method WriteDigit(b: array<char>, p: nat, d: nat)
    requires 0 < p <= b.Length && d < 10
    modifies b
    ensures b[p - 1..] == [Digit(d)] + old(b[p..])
  {
    b[p - 1] := Digit(d);
  }

  /** What the buffer holds once the digits of i are still to come. */
  ghost predicate Written(n: int, i: int, tail: string) {
    if n < 0 then i < 0 && tail == "" else i >= 0 && Digits(n) == Digits(i) + tail
  }

  lemma WrittenStep(n: int, i: int, tail: string)
    requires Written(n, i, tail) && i > 0
    ensures Written(n, i / 10, [Digit(i % 10)] + tail)
  {
    hide Digits;
    DigitsStep(i);
    assert Digits(i / 10) + [Digit(i % 10)] + tail == Digits(i / 10) + ([Digit(i % 10)] + tail);
  }

  lemma DigitsAre(n: int)
    ensures Digits(0) == "" && (n > 0 ==> Digits(n) == Format(n))
  {
  }

  lemma Pow10Step(p: nat, i: nat)
    requires 0 < i < Pow10(p)
    ensures p > 0 && i / 10 < Pow10(p - 1)
  {
  }

  // ------------------------------------------------------------ safe names

  predicate Safe(c: char) {
    ('a' <= c <= 'z') || ('A' <= c <= 'Z') || ('0' <= c <= '9') || c == '.' || c == '_' || c == '-'
  }

  predicate AllSafe(s: string) {
    forall i | 0 <= i < |s| :: Safe(s[i])
  }

  /** Every run of unsafe characters becomes one dash. */
  function Squash(s: string, inRun: bool): string {
    if s == "" then ""
    else if Safe(s[0]) then [s[0]] + Squash(s[1..], false)
    else (if inRun then "" else "-") + Squash(s[1..], true)
  }

  /** Squashing leaves safe characters, and changes nothing where all are safe. */
  lemma {:induction false} SquashIsSafe(s: string, inRun: bool)
    ensures AllSafe(Squash(s, inRun))
    ensures AllSafe(s) ==> Squash(s, inRun) == s
  {
    if s != "" {
      SquashIsSafe(s[1..], false);
      SquashIsSafe(s[1..], true);
      assert AllSafe(s) ==> AllSafe(s[1..]);
      assert s == [s[0]] + s[1..];
    }
  }

  ghost predicate AllUnsafe(s: string) {
    forall i | 0 <= i < |s| :: !Safe(s[i])
  }

  predicate LetterOrDigit(c: char) {
    'a' <= c <= 'z' || 'A' <= c <= 'Z' || '0' <= c <= '9'
  }

  /** Letters, digits, dots, dashes and underscores stay, and every run of other characters
      becomes one dash. */
  lemma SquashRun(x: string, run: string, y: string)
    requires forall i | 0 <= i < |x| :: LetterOrDigit(x[i]) || x[i] in ".-_"
    requires forall i | 0 <= i < |run| :: !LetterOrDigit(run[i]) && run[i] !in ".-_"
    requires run != "" && (y == "" || LetterOrDigit(y[0]) || y[0] in ".-_")
    ensures Squash(x, false) == x
    ensures Squash(x + run + y, false) == x + "-" + Squash(y, false)
  {
    hide Squash;
    SquashIsSafe(x, false);
    SquashMiddle(x, run, y);
  }

  lemma {:induction false} SquashMiddle(x: string, run: string, y: string)
    requires AllSafe(x) && run != "" && AllUnsafe(run) && (y == "" || Safe(y[0]))
    ensures Squash(x + run + y, false) == x + "-" + Squash(y, false)
    decreases |x|
  {
    hide Safe;
    if x == "" {
      assert x + run + y == run + y && (run + y)[1..] == run[1..] + y && (run + y)[0] == run[0];
      SquashRest(run[1..], y);
    } else {
      SquashMiddle(x[1..], run, y);
      assert (x + run + y)[1..] == x[1..] + run + y && (x + run + y)[0] == x[0];
      assert x == [x[0]] + x[1..];
    }
  }

  lemma {:induction false} SquashRest(run: string, y: string)
    requires AllUnsafe(run) && (y == "" || Safe(y[0]))
    ensures Squash(run + y, true) == Squash(y, false)
    decreases |run|
  {
    if run == "" {
      assert run + y == y;
    } else {
      SquashRest(run[1..], y);
      assert (run + y)[1..] == run[1..] + y;
    }
  }

  function SafeBase(base: string): (r: string)
    ensures r != "" && AllSafe(r)
    ensures base != "" && AllSafe(base) ==> r == base
    ensures base == "" ==> r == "data"
  {
    SquashIsSafe(base, false);
    var r := Squash(base, false);
    if r == "" then "data" else r
  }

  /** The i-th name Pick tries. */
  function Candidate(base: string, i: nat): string {
    if i == 0 then base else base + "-" + Format(i)
  }

  lemma CandidateInjective(base: string, i: nat, j: nat)
    requires Candidate(base, i) == Candidate(base, j)
    ensures i == j
  {
    if i > 0 && j > 0 {
      assert Candidate(base, i)[|base| + 1..] == Format(i) && Candidate(base, j)[|base| + 1..] == Format(j);
      FormatInjective(i, j);
    }
  }

  function Tried(base: string, n: nat): set<string> {
    if n == 0 then {} else Tried(base, n - 1) + {Candidate(base, n - 1)}
  }

  lemma {:induction false} TriedAreDistinct(base: string, n: nat)
    ensures |Tried(base, n)| == n
    ensures forall x | x in Tried(base, n) :: exists i :: 0 <= i < n && x == Candidate(base, i)
  {
    hide Candidate;
    if n > 0 {
      TriedAreDistinct(base, n - 1);
      NotTried(base, n - 1);
    }
  }

  lemma NotTried(base: string, n: nat)
    requires forall x | x in Tried(base, n) :: exists i :: 0 <= i < n && x == Candidate(base, i)
    ensures Candidate(base, n) !in Tried(base, n)
  {
    hide Candidate;
    if Candidate(base, n) in Tried(base, n) {
      var i :| 0 <= i < n && Candidate(base, n) == Candidate(base, i);
      CandidateInjective(base, n, i);
    }
  }

  /** Pigeonhole: candidates that are all taken cannot outnumber the taken names. */
  lemma Pigeonhole(base: string, seen: set<string>, n: nat)
    requires forall i | 0 <= i < n :: Candidate(base, i) in seen
    ensures n <= |seen|
  {
    TriedAreDistinct(base, n);
    SubsetSize(Tried(base, n), seen);
  }

  lemma CandidateSafe(base: string, i: nat)
    requires base != "" && AllSafe(base)
    ensures AllSafe(Candidate(base, i)) && Candidate(base, i) != ""
    ensures i > 0 ==> Candidate(base, i) !in {".", ".."}
  {
    FormatValue(i);
    assert forall k | 0 <= k < |Format(i)| :: Safe(Format(i)[k]) by {
      assert forall k | 0 <= k < |Format(i)| :: IsDigit(Format(i)[k]);
    }
    if i > 0 {
      assert Candidate(base, i)[|base|] == '-';
    }
  }

  /** The first candidate that is free. */
  ghost predicate FirstFree(seen: set<string>, base: string, name: string, i: nat) {
    && name == Candidate(SafeBase(base), i) && name !in seen
    && forall j | 0 <= j < i :: Candidate(SafeBase(base), j) in seen
  }

  /** The first free name with a number behind a taken one. */
  ghost predicate Numbered(seen: set<string>, b: string, name: string, i: int) {
    && 1 <= i <= |seen| && name == b + "-" + Format(i) && name !in seen
    && forall j | 1 <= j < i :: b + "-" + Format(j) in seen
  }

  lemma FreeSpelled(seen: set<string>, base: string, name: string, i: nat)
    requires FirstFree(seen, base, name, i) && i <= |seen|
    ensures if i == 0 then name == SafeBase(base) && name !in seen
            else SafeBase(base) in seen && Numbered(seen, SafeBase(base), name, i)
  {
    var b := SafeBase(base);
    hide SafeBase, Format;
    if i > 0 {
      assert Candidate(b, 0) in seen;
      forall j | 1 <= j < i ensures b + "-" + Format(j) in seen {
        assert Candidate(b, j) in seen;
      }
    }
  }

  // -------------------------------------------------------------- sessions

  /** Names handed out one after another, each the first free candidate of its base. */
  ghost predicate Session(bases: seq<string>, names: seq<string>) {
    |bases| == |names| && forall k | 0 <= k < |names| :: PickedAt(bases, names, k)
  }

  ghost predicate PickedAt(bases: seq<string>, names: seq<string>, k: nat)
    requires k < |names| == |bases|
  {
    exists i :: 0 <= i <= k && FirstFree(AsSet(names[..k]), bases[k], names[k], i)
  }

  class Namer {
    var seen: set<string>
    ghost var bases: seq<string>
    ghost var names: seq<string>

    ghost predicate Valid()
      reads this
    {
      Session(bases, names) && seen == AsSet(names)
    }

    constructor ()
      ensures Valid() && names == []
    {
      seen, bases, names := {}, [], [];
    }

    /** Pick. The map of names cannot outgrow a 64-bit counter. */
    method Pick(base: string) returns (name: string)
      requires Valid() && |seen| < INT64_MAX
      modifies this
      ensures Valid() && bases == old(bases) + [base] && names == old(names) + [name]
      ensures seen == old(seen) + {name}
      ensures exists i :: 0 <= i <= |old(seen)| && FirstFree(old(seen), base, name, i)
      ensures SafeBase(base) !in old(seen) ==> name == SafeBase(base)
      ensures SafeBase(base) in old(seen) ==> exists i :: Numbered(old(seen), SafeBase(base), name, i)
    {
      hide Session;
      var b := SafeBase(base);
      name := b;
      var i := 0;
      while name in seen
        invariant unchanged(this)
        invariant name == Candidate(b, i) && i <= |seen|
        invariant forall j | 0 <= j < i :: Candidate(b, j) in seen
        decreases |seen| - i
      {
        Pigeonhole(b, seen, i + 1);
        i := i + 1;
        var digits := Itoa(i);
        name := b + "-" + digits;
      }
      assert FirstFree(seen, base, name, i);
      FreeSpelled(seen, base, name, i);
      Extend(bases, names, base, name, i);
      seen := seen + {name};
      bases, names := bases + [base], names + [name];
    }
  }

  lemma Extend(bases: seq<string>, names: seq<string>, base: string, name: string, i: nat)
    requires Session(bases, names) && i <= |AsSet(names)| && FirstFree(AsSet(names), base, name, i)
    ensures Session(bases + [base], names + [name])
    ensures AsSet(names + [name]) == AsSet(names) + {name}
  {
    hide FirstFree;
    SetSize(names);
    var bs, ns := bases + [base], names + [name];
    forall k | 0 <= k < |ns| ensures PickedAt(bs, ns, k) {
      if k < |names| {
        assert PickedAt(bases, names, k);
        var m :| 0 <= m <= k && FirstFree(AsSet(names[..k]), bases[k], names[k], m);
        assert ns[..k] == names[..k] && bs[k] == bases[k] && ns[k] == names[k];
        assert FirstFree(AsSet(ns[..k]), bs[k], ns[k], m);
      } else {
        assert ns[..k] == names && bs[k] == base && ns[k] == name;
        assert FirstFree(AsSet(ns[..k]), bs[k], ns[k], i);
      }
    }
  }

  /** Over any calls of Pick the names are pairwise distinct, safe and not empty; a name is
      a proper path segment unless the caller's own text was "." or "..". */
  lemma SessionNames(bases: seq<string>, names: seq<string>)
    requires Session(bases, names)
    ensures forall j, k | 0 <= j < k < |names| :: names[j] != names[k]
    ensures forall k | 0 <= k < |names| :: names[k] != "" && AllSafe(names[k])
    ensures forall k | 0 <= k < |names| :: !Proper(names[k]) ==> names[k] == bases[k] && bases[k] in {".", ".."}
  {
    hide SafeBase, Candidate;
    forall k | 0 <= k < |names|
      ensures forall j | 0 <= j < k :: names[j] != names[k]
      ensures names[k] != "" && AllSafe(names[k])
      ensures !Proper(names[k]) ==> names[k] == bases[k] && bases[k] in {".", ".."}
    {
      assert PickedAt(bases, names, k);
      var i :| 0 <= i <= k && FirstFree(AsSet(names[..k]), bases[k], names[k], i);
      CandidateSafe(SafeBase(bases[k]), i);
      assert forall j | 0 <= j < k :: names[j] in AsSet(names[..k]) by {
        assert forall j | 0 <= j < k :: names[..k][j] == names[j];
      }
      ImproperBase(bases[k], names[k], i);
    }
  }

  lemma ImproperBase(base: string, name: string, i: nat)
    requires name == Candidate(SafeBase(base), i)
    ensures name in {".", ".."} ==> base == name
  {
    if name in {".", ".."} {
      CandidateSafe(SafeBase(base), i);
      assert i == 0 && name == SafeBase(base);
      SquashDots(base, false);
    }
  }

  lemma {:induction false} SquashDots(s: string, inRun: bool)
    ensures (forall i | 0 <= i < |Squash(s, inRun)| :: Squash(s, inRun)[i] == '.') && !inRun ==> Squash(s, inRun) == s
  {
    if s != "" {
      SquashDots(s[1..], false);
      var r, rest := Squash(s, inRun), Squash(s[1..], false);
      if Safe(s[0]) {
        assert r[1..] == rest;
        assert (forall i | 0 <= i < |r| :: r[i] == '.') ==> forall i | 0 <= i < |rest| :: rest[i] == r[i + 1];
        assert s == [s[0]] + s[1..];
      } else if !inRun {
        assert r[0] == '-';
      }
    }
  }

  // ------------------------------------------------------------- base names

  function TrimRightSlash(s: string): string {
    if s != "" && s[|s| - 1] == '/' then TrimRightSlash(s[..|s| - 1]) else s
  }

  function AfterLastSlash(s: string): string {
    if s == "" || s[|s| - 1] == '/' then "" else AfterLastSlash(s[..|s| - 1]) + [s[|s| - 1]]
  }

  /** path.Base. */
  function Base(p: string): string {
    if p == "" then "."
    else
      var b := AfterLastSlash(TrimRightSlash(p));
      if b == "" then "/" else b
  }

  predicate Edge(c: char) {
    c == '-' || c == '.' || c == '_'
  }

  function TrimLeft(s: string): string {
    if s != "" && Edge(s[0]) then TrimLeft(s[1..]) else s
  }

  function TrimRight(s: string): string {
    if s != "" && Edge(s[|s| - 1]) then TrimRight(s[..|s| - 1]) else s
  }

  function BaseName(dest: string, src: string): string {
    var b := Base(TrimRightSlash(dest));
    var c := if b == "" || b == "/" || b == "." then Base(TrimRightSlash(src)) else b;
    var t := TrimRight(TrimLeft(Squash(c, false)));
    if t == "" then "data" else t
  }

  /** A name that starts and ends with a letter or digit. */
  predicate Tidy(s: string) {
    s != "" && AllSafe(s) && !Edge(s[0]) && !Edge(s[|s| - 1])
  }

  lemma {:induction false} TrimLeftTidy(s: string)
    requires AllSafe(s)
    ensures AllSafe(TrimLeft(s)) && (TrimLeft(s) != "" ==> !Edge(TrimLeft(s)[0]))
  {
    if s != "" && Edge(s[0]) {
      TrimLeftTidy(s[1..]);
    }
  }

  lemma {:induction false} TrimRightTidy(s: string)
    requires AllSafe(s) && (s != "" ==> !Edge(s[0]))
    ensures TrimRight(s) != "" ==> Tidy(TrimRight(s))
  {
    if s != "" && Edge(s[|s| - 1]) {
      TrimRightTidy(s[..|s| - 1]);
    }
  }

  /** BaseName always gives a proper path segment of safe characters. */
  lemma BaseNameTidy(dest: string, src: string)
    ensures Tidy(BaseName(dest, src)) && Proper(BaseName(dest, src))
  {
    hide Squash, TrimLeft, TrimRight, Base, TrimRightSlash;
    var b := Base(TrimRightSlash(dest));
    var c := if b == "" || b == "/" || b == "." then Base(TrimRightSlash(src)) else b;
    SquashIsSafe(c, false);
    TrimLeftTidy(Squash(c, false));
    TrimRightTidy(TrimLeft(Squash(c, false)));
    var r := BaseName(dest, src);
    assert Tidy(r);
  }

  lemma {:induction false} LastSegment(d: string, x: string)
    requires NoSlash(x)
    ensures AfterLastSlash(d + "/" + x) == x
    decreases |x|
  {
    var s := d + "/" + x;
    if x != "" {
      var n := |x| - 1;
      LastSegment(d, x[..n]);
      assert s[..|s| - 1] == d + "/" + x[..n];
      assert x == x[..n] + [x[n]];
    }
  }

  ghost predicate AllEdge(s: string) {
    forall i | 0 <= i < |s| :: s[i] in "-._"
  }

  function Slashes(k: nat): string {
    seq(k, i => '/')
  }

  lemma {:induction false} TrimSlashes(s: string, k: nat)
    requires s == "" || s[|s| - 1] != '/'
    ensures TrimRightSlash(s + Slashes(k)) == s
    decreases k
  {
    var t := s + Slashes(k);
    if k == 0 {
      assert t == s;
    } else {
      TrimSlashes(s, k - 1);
      assert t[..|t| - 1] == s + Slashes(k - 1);
    }
  }

  lemma {:induction false} TrimLeftEdges(l: string, x: string)
    requires AllEdge(l) && (x == "" || !Edge(x[0]))
    ensures TrimLeft(l + x) == x
    decreases |l|
  {
    if l == "" {
      assert l + x == x;
    } else {
      TrimLeftEdges(l[1..], x);
      assert (l + x)[1..] == l[1..] + x;
    }
  }

  lemma {:induction false} TrimRightEdges(x: string, r: string)
    requires AllEdge(r) && (x == "" || !Edge(x[|x| - 1]))
    ensures TrimRight(x + r) == x
    decreases |r|
  {
    if r == "" {
      assert x + r == x;
    } else {
      var n := |r| - 1;
      TrimRightEdges(x, r[..n]);
      assert (x + r)[..|x + r| - 1] == x + r[..n];
    }
  }

  /** Squashed, the text is the tidy x between edges; without an x it is edges only. */
  ghost predicate Around(y: string, l: string, x: string, r: string) {
    Squash(y, false) == l + x + r && AllEdge(l) && AllEdge(r) && (if x == "" then r == "" else Tidy(x))
  }

  lemma TrimAround(y: string, l: string, x: string, r: string)
    requires Around(y, l, x, r)
    ensures TrimRight(TrimLeft(Squash(y, false))) == x
  {
    hide Squash;
    assert l + x + r == l + (x + r);
    TrimLeftEdges(l, x + r);
    TrimRightEdges(x, r);
  }

  lemma LastOfPath(dir: string, y: string, k: nat)
    requires NoSlash(y) && y != ""
    ensures Base(TrimRightSlash(dir + "/" + y + Slashes(k))) == y
  {
    var p := dir + "/" + y;
    assert p[|p| - 1] == y[|y| - 1];
    TrimSlashes(p, k);
    assert TrimRightSlash(p) == p;
    LastSegment(dir, y);
  }

  /** The name of a destination is its last segment, whatever slashes end it: squashed and
      without the dashes, dots and underscores around it, or "data" if nothing is left. */
  lemma BaseNameSpelled(dir: string, y: string, k: nat, src: string, l: string, x: string, r: string)
    requires NoSlash(y) && y !in {"", "."} && Around(y, l, x, r)
    ensures BaseName(dir + "/" + y + Slashes(k), src) == if x == "" then "data" else x
  {
    hide Base, TrimRightSlash, Squash, TrimLeft, TrimRight, Around;
    LastOfPath(dir, y, k);
    TrimAround(y, l, x, r);
  }

  /** A destination without a name of its own takes the source's last segment. */
  lemma BaseNameOfSource(dest: string, dir: string, y: string, k: nat, l: string, x: string, r: string)
    requires dest == "." || dest == Slashes(|dest|)
    requires NoSlash(y) && y != "" && Around(y, l, x, r)
    ensures BaseName(dest, dir + "/" + y + Slashes(k)) == if x == "" then "data" else x
  {
    hide Squash, TrimLeft, TrimRight, Around;
    NoBase(dest);
    hide Base, TrimRightSlash;
    LastOfPath(dir, y, k);
    TrimAround(y, l, x, r);
  }

  lemma NoBase(dest: string)
    requires dest == "." || dest == Slashes(|dest|)
    ensures Base(TrimRightSlash(dest)) == "."
  {
    if dest == "." {
      assert AfterLastSlash(".") == AfterLastSlash("") + ".";
    } else {
      TrimSlashes("", |dest|);
      assert "" + Slashes(|dest|) == dest;
    }
  }

  /** A destination whose last segment is tidy keeps it as its name. */
  lemma BaseNameKeepsTidy(dir: string, x: string, src: string)
    requires Tidy(x)
    ensures BaseName(dir + "/" + x, src) == x
  {
    hide Squash, BaseName;
    SquashIsSafe(x, false);
    assert "" + x + "" == x && dir + "/" + x + Slashes(0) == dir + "/" + x;
    BaseNameSpelled(dir, x, 0, src, "", x, "");
  }
}
