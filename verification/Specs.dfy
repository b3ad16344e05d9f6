/**
 The label and target schema as far as a run needs it: retention policies and
 their rendering as restic flags, and per-target overrides.
 */
module Specs {
  import opened Lists
  import opened Decimal

  datatype Retention = Retention(
    last: int, hourly: int, daily: int, weekly: int, monthly: int, yearly: int, within: string)

  /** Retention.Empty. */
  predicate IsEmpty(r: Retention) {
    r.last == 0 && r.hourly == 0 && r.daily == 0 && r.weekly == 0 && r.monthly == 0 && r.yearly == 0 && r.within == ""
  }

  datatype Unit = Last | Hourly | Daily | Weekly | Monthly | Yearly

  /** One keep rule of `restic forget`. */
  datatype Keep = Count(unit: Unit, n: int) | Within(span: string)

  function Field(r: Retention, u: Unit): int {
    match u
    case Last => r.last
    case Hourly => r.hourly
    case Daily => r.daily
    case Weekly => r.weekly
    case Monthly => r.monthly
    case Yearly => r.yearly
  }

  function CountOf(r: Retention, u: Unit): seq<Keep> {
    if Field(r, u) > 0 then [Count(u, Field(r, u))] else []
  }

  /** The keep rules a policy stands for: its positive counts and its time span. */
  function Keeps(r: Retention): seq<Keep> {
    CountOf(r, Last) + CountOf(r, Hourly) + CountOf(r, Daily)
    + CountOf(r, Weekly) + CountOf(r, Monthly) + CountOf(r, Yearly)
    + (if r.within != "" then [Within(r.within)] else [])
  }

  /** A rule the policy stands for: a positive count of its own, or its time span. */
  predicate Stands(r: Retention, k: Keep) {
    match k
    case Count(u, n) => n == Field(r, u) && n > 0
    case Within(d) => d == r.within && d != ""
  }

  lemma CountMember(r: Retention, u: Unit, k: Keep)
    ensures k in CountOf(r, u) <==> k == Count(u, Field(r, u)) && Field(r, u) > 0
  {
  }

  lemma KeepsMember(r: Retention, k: Keep)
    ensures k in Keeps(r) <==> Stands(r, k)
  {
    hide CountOf;
    CountMember(r, Last, k);
    CountMember(r, Hourly, k);
    CountMember(r, Daily, k);
    CountMember(r, Weekly, k);
    CountMember(r, Monthly, k);
    CountMember(r, Yearly, k);
  }

  /** A policy yields exactly the rules of its positive fields, so every rule keeps something,
      and none exactly when no field is positive and no span is set. */
  lemma KeepsExactly(r: Retention)
    ensures forall k :: k in Keeps(r) <==> Stands(r, k)
    ensures Keeps(r) == [] <==> (forall u :: Field(r, u) <= 0) && r.within == ""
  {
    hide Keeps, Field;
    forall k ensures k in Keeps(r) <==> Stands(r, k) {
      KeepsMember(r, k);
    }
    assert Keeps(r) == [] ==> forall u :: !Stands(r, Count(u, Field(r, u)));
    assert Keeps(r) == [] ==> !Stands(r, Within(r.within));
    assert Keeps(r) != [] ==> Keeps(r)[0] in Keeps(r);
  }

  /** An empty policy yields no rule; negative counts are not empty and yield none either. */
  lemma EmptyHasNoKeeps(r: Retention)
    ensures IsEmpty(r) ==> Keeps(r) == []
    ensures Keeps(r) == [] && !IsEmpty(r) <==>
            r.within == "" && (forall u :: Field(r, u) <= 0) && exists u :: Field(r, u) < 0
  {
    KeepsExactly(r);
    if IsEmpty(r) {
      forall u ensures Field(r, u) == 0 {
      }
    }
    if (forall u :: Field(r, u) <= 0) && r.within == "" && !IsEmpty(r) {
      assert Field(r, Last) < 0 || Field(r, Hourly) < 0 || Field(r, Daily) < 0 || Field(r, Weekly) < 0 ||
             Field(r, Monthly) < 0 || Field(r, Yearly) < 0;
    }
  }

  // ------------------------------------------------------------- rendering

  function FlagOf(u: Unit): string {
    match u
    case Last => "--keep-last"
    case Hourly => "--keep-hourly"
    case Daily => "--keep-daily"
    case Weekly => "--keep-weekly"
    case Monthly => "--keep-monthly"
    case Yearly => "--keep-yearly"
  }

  const WITHIN := "--keep-within"

  /** strconv.Itoa. */
  function Itoa(n: int): string {
    if n < 0 then "-" + Format(-n) else Format(n)
  }

  function Render(ks: seq<Keep>): seq<string> {
    if ks == [] then []
    else
      (match ks[0]
       case Count(u, n) => [FlagOf(u), Itoa(n)]
       case Within(d) => [WITHIN, d]) + Render(ks[1..])
  }

  /** A count's flag and value, if the count is positive. */
  function Flag(name: string, n: int): seq<string> {
    if n > 0 then [name, Format(n)] else []
  }

  lemma RenderCount(r: Retention, u: Unit, ks: seq<Keep>)
    ensures Render(ks + CountOf(r, u)) == Render(ks) + Flag(FlagOf(u), Field(r, u))
  {
    hide FlagOf, Field;
    if Field(r, u) > 0 {
      RenderSnoc(ks, Count(u, Field(r, u)));
    } else {
      assert ks + [] == ks;
    }
  }

  /** The rendered policy, field by field: each count under its own flag, in this order. */
  lemma RenderSpelled(r: Retention)
    ensures Render(Keeps(r)) ==
            Flag("--keep-last", r.last) + Flag("--keep-hourly", r.hourly) + Flag("--keep-daily", r.daily)
            + Flag("--keep-weekly", r.weekly) + Flag("--keep-monthly", r.monthly) + Flag("--keep-yearly", r.yearly)
            + (if r.within != "" then ["--keep-within", r.within] else [])
  {
    hide Render, CountOf, Flag, Keeps;
    var a := CountOf(r, Last);
    var b := a + CountOf(r, Hourly);
    var c := b + CountOf(r, Daily);
    var d := c + CountOf(r, Weekly);
    var e := d + CountOf(r, Monthly);
    var f := e + CountOf(r, Yearly);
    RenderCount(r, Last, []);
    RenderNothing();
    assert [] + a == a && [] + Flag("--keep-last", r.last) == Flag("--keep-last", r.last);
    RenderCount(r, Hourly, a);
    RenderCount(r, Daily, b);
    RenderCount(r, Weekly, c);
    RenderCount(r, Monthly, d);
    RenderCount(r, Yearly, e);
    KeepsParts(r, f);
    RenderSnoc(f, Within(r.within));
  }

  lemma RenderNothing()
    ensures Render([]) == []
  {
  }

  /** Retention.ForgetArgs: flags appended one after another. */
  method ForgetArgs(r: Retention) returns (args: seq<string>)
    ensures args == Render(Keeps(r))
    ensures args == Flag("--keep-last", r.last) + Flag("--keep-hourly", r.hourly) + Flag("--keep-daily", r.daily)
                    + Flag("--keep-weekly", r.weekly) + Flag("--keep-monthly", r.monthly)
                    + Flag("--keep-yearly", r.yearly) + (if r.within != "" then ["--keep-within", r.within] else [])
    ensures args == [] <==> (forall u :: Field(r, u) <= 0) && r.within == ""
  {
    hide FlagOf, WITHIN, Keeps;
    RenderSpelled(r);
    args := Add([], [], r, Last);
    args := Add(args, CountOf(r, Last), r, Hourly);
    ghost var ks := CountOf(r, Last) + CountOf(r, Hourly);
    args := Add(args, ks, r, Daily);
    ks := ks + CountOf(r, Daily);
    args := Add(args, ks, r, Weekly);
    ks := ks + CountOf(r, Weekly);
    args := Add(args, ks, r, Monthly);
    ks := ks + CountOf(r, Monthly);
    args := Add(args, ks, r, Yearly);
    ks := ks + CountOf(r, Yearly);
    if r.within != "" {
      args := args + [WITHIN, r.within];
      RenderSnoc(ks, Within(r.within));
    }
    KeepsParts(r, ks);
    KeepsExactly(r);
    RenderEmpty(Keeps(r));
  }

  lemma KeepsParts(r: Retention, ks: seq<Keep>)
    requires ks == CountOf(r, Last) + CountOf(r, Hourly) + CountOf(r, Daily)
                   + CountOf(r, Weekly) + CountOf(r, Monthly) + CountOf(r, Yearly)
    ensures Keeps(r) == if r.within != "" then ks + [Within(r.within)] else ks
  {
  }

  lemma RenderEmpty(ks: seq<Keep>)
    ensures Render(ks) == [] <==> ks == []
  {
  }

  /** The closure `add`. */
  method Add(args: seq<string>, ghost ks: seq<Keep>, r: Retention, u: Unit) returns (args': seq<string>)
    requires args == Render(ks)
    ensures args' == Render(ks + CountOf(r, u))
  {
    hide FlagOf;
    args' := args;
    if Field(r, u) > 0 {
      args' := args + [FlagOf(u), Itoa(Field(r, u))];
      RenderSnoc(ks, Count(u, Field(r, u)));
    } else {
      assert ks + [] == ks;
    }
  }

  lemma {:induction false} RenderSnoc(ks: seq<Keep>, k: Keep)
    ensures Render(ks + [k]) == Render(ks) + Render([k])
    ensures Render([k]) == if k.Count? then [FlagOf(k.unit), Itoa(k.n)] else [WITHIN, k.span]
    decreases |ks|
  {
    hide FlagOf, WITHIN, Itoa;
    assert [k][1..] == [];
    if ks == [] {
      assert ks + [k] == [k];
    } else {
      assert (ks + [k])[1..] == ks[1..] + [k];
      RenderSnoc(ks[1..], k);
    }
  }

  // ---------------------------------------------------------- reading flags

  /** How restic reads a flag: a count flag needs a decimal number. */
  function ReadOne(flag: string, value: string): Option<Keep> {
    if flag == WITHIN then Some(Within(value))
    else
      var n := ParseUint(value);
      if n.None? then None
      else if flag == FlagOf(Last) then Some(Count(Last, n.value))
      else if flag == FlagOf(Hourly) then Some(Count(Hourly, n.value))
      else if flag == FlagOf(Daily) then Some(Count(Daily, n.value))
      else if flag == FlagOf(Weekly) then Some(Count(Weekly, n.value))
      else if flag == FlagOf(Monthly) then Some(Count(Monthly, n.value))
      else if flag == FlagOf(Yearly) then Some(Count(Yearly, n.value))
      else None
  }

  function Read(args: seq<string>): Option<seq<Keep>> {
    if args == [] then Some([])
    else if |args| == 1 then None
    else
      var k, rest := ReadOne(args[0], args[1]), Read(args[2..]);
      if k.None? || rest.None? then None else Some([k.value] + rest.value)
  }

  function Initial(u: Unit): char {
    match u
    case Last => 'l'
    case Hourly => 'h'
    case Daily => 'd'
    case Weekly => 'w'
    case Monthly => 'm'
    case Yearly => 'y'
  }

  lemma FlagsDiffer(u: Unit)
    ensures |FlagOf(u)| > 8 && FlagOf(u) != WITHIN
    ensures FlagOf(u)[7] == Initial(u)
  {
    assert WITHIN[7] == 'w' && WITHIN[8] == 'i';
    match u
    case Last => assert FlagOf(u)[7] == 'l';
    case Hourly => assert FlagOf(u)[7] == 'h';
    case Daily => assert FlagOf(u)[7] == 'd';
    case Weekly => assert FlagOf(u)[7] == 'w' && FlagOf(u)[8] == 'e';
    case Monthly => assert FlagOf(u)[7] == 'm';
    case Yearly => assert FlagOf(u)[7] == 'y';
  }

  lemma ReadCount(u: Unit, n: nat)
    requires n < TWO_64
    ensures ReadOne(FlagOf(u), Itoa(n)) == Some(Count(u, n))
  {
    hide FlagOf, WITHIN, ParseUint;
    ParseFormat(n);
    FlagsDiffer(Last);
    FlagsDiffer(Hourly);
    FlagsDiffer(Daily);
    FlagsDiffer(Weekly);
    FlagsDiffer(Monthly);
    FlagsDiffer(Yearly);
  }

  ghost predicate Readable(ks: seq<Keep>) {
    forall k | k in ks && k.Count? :: 0 <= k.n < TWO_64
  }

  /** The flags mean what the policy says: reading them gives its rules back. */
  lemma {:induction false} ReadRender(ks: seq<Keep>)
    requires Readable(ks)
    ensures Read(Render(ks)) == Some(ks)
    decreases |ks|
  {
    hide FlagOf, WITHIN, ReadOne, Itoa;
    if ks != [] {
      ReadRender(ks[1..]);
      ReadWithin(ks[0]);
      if ks[0].Count? {
        assert ks[0] in ks;
        ReadCount(ks[0].unit, ks[0].n);
      }
      var one := if ks[0].Count? then [FlagOf(ks[0].unit), Itoa(ks[0].n)] else [WITHIN, ks[0].span];
      assert Render(ks) == one + Render(ks[1..]) && Render(ks)[2..] == Render(ks[1..]);
      assert ks == [ks[0]] + ks[1..];
    }
  }

  lemma ReadWithin(k: Keep)
    ensures k.Within? ==> ReadOne(WITHIN, k.span) == Some(k)
  {
  }

  // -------------------------------------------------------------- overrides

  datatype TargetSpec = TargetSpec(name: string, schedule: string, retention: Retention, exclude: seq<string>)

  ghost predicate FirstNamed(ts: seq<TargetSpec>, name: string, i: int) {
    0 <= i < |ts| && ts[i].name == name && forall j | 0 <= j < i :: ts[j].name != name
  }

  function Override(ts: seq<TargetSpec>, name: string): Option<TargetSpec> {
    if ts == [] then None else if ts[0].name == name then Some(ts[0]) else Override(ts[1..], name)
  }

  /** TargetOverride finds the first entry of that name. */
  lemma {:induction false} OverrideIsFirst(ts: seq<TargetSpec>, name: string)
    ensures Override(ts, name).None? <==> forall i | 0 <= i < |ts| :: ts[i].name != name
    ensures Override(ts, name).Some? ==> exists i :: FirstNamed(ts, name, i) && Override(ts, name) == Some(ts[i])
    decreases |ts|
  {
    if ts != [] {
      OverrideIsFirst(ts[1..], name);
      assert forall i | 1 <= i < |ts| :: ts[i] == ts[1..][i - 1];
      if ts[0].name == name {
        assert FirstNamed(ts, name, 0);
      } else if Override(ts, name).Some? {
        var i :| FirstNamed(ts[1..], name, i) && Override(ts[1..], name) == Some(ts[1..][i]);
        assert FirstNamed(ts, name, i + 1) && ts[i + 1] == ts[1..][i];
      }
    }
  }

  method TargetOverride(ts: seq<TargetSpec>, name: string) returns (r: Option<TargetSpec>)
    ensures r == Override(ts, name)
  {
    for i := 0 to |ts|
      invariant Override(ts, name) == Override(ts[i..], name)
    {
      if ts[i].name == name {
        return Some(ts[i]);
      }
    }
    return None;
  }

  /** The policy of a run: the override's if it sets one, else the target's. */
  function Policy(ts: seq<TargetSpec>, name: string, default: Retention): Retention {
    var o := Override(ts, name);
    if o.Some? && !IsEmpty(o.value.retention) then o.value.retention else default
  }

  function Excludes(ts: seq<TargetSpec>, name: string, excludes: seq<string>): seq<string> {
    var o := Override(ts, name);
    if o.Some? then excludes + o.value.exclude else excludes
  }

  /** What applies to a target: the first override of its name decides, its policy unless
      that is all unset, and its excludes behind the job's own. */
  lemma OverrideSpelled(ts: seq<TargetSpec>, name: string, default: Retention, excludes: seq<string>, i: nat)
    requires FirstNamed(ts, name, i)
    ensures Excludes(ts, name, excludes) == excludes + ts[i].exclude
    ensures Policy(ts, name, default) ==
            if ts[i].retention == Retention(0, 0, 0, 0, 0, 0, "") then default else ts[i].retention
  {
    hide Override;
    OverrideIsFirst(ts, name);
  }

  lemma NoOverride(ts: seq<TargetSpec>, name: string, default: Retention, excludes: seq<string>)
    requires forall i | 0 <= i < |ts| :: ts[i].name != name
    ensures Excludes(ts, name, excludes) == excludes && Policy(ts, name, default) == default
  {
    hide Override;
    OverrideIsFirst(ts, name);
  }

  /** An override turns off a default policy exactly when it sets only negative counts. */
  lemma SilencedExactly(ts: seq<TargetSpec>, name: string, default: Retention)
    requires Keeps(default) != []
    ensures Keeps(Policy(ts, name, default)) == [] <==>
            Override(ts, name).Some? && var r := Override(ts, name).value.retention;
            r.within == "" && (forall u :: Field(r, u) <= 0) && exists u :: Field(r, u) < 0
  {
    if Override(ts, name).Some? {
      EmptyHasNoKeeps(Override(ts, name).value.retention);
    }
  }

  /** An override of "last: -1" turns off a default that keeps the last three. */
  lemma NegativeOverrideSilences(name: string, exclude: seq<string>)
    ensures var default := Retention(3, 0, 0, 0, 0, 0, "");
            var o := TargetSpec(name, "", Retention(-1, 0, 0, 0, 0, 0, ""), exclude);
            Keeps(default) != [] && Keeps(Policy([o], name, default)) == []
  {
    var default := Retention(3, 0, 0, 0, 0, 0, "");
    var o := TargetSpec(name, "", Retention(-1, 0, 0, 0, 0, 0, ""), exclude);
    KeepsExactly(default);
    assert Field(default, Last) == 3;
    KeepsExactly(o.retention);
    assert Override([o], name) == Some(o);
  }
}
