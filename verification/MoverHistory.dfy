/**
 Run history: Reap trims finished movers, keeping the newest few of every
 (app, target, action) group. Docker containers and Swarm services are trimmed by
 the same rule, stated once here as `Reaped`.

 A removal may fail; movers in `stuck` survive it. The sort is not stable, so
 movers of equal age come in any order.
 */
module MoverHistory {
  import opened Lists
  import opened Keys

  /** What Reap looks at, on either engine. */
  datatype Mover = Mover(id: string, app: string, target: string, action: string, created: int, running: bool)

  datatype Container = Container(id: string, app: string, target: string, action: string, created: int, state: string)

  datatype TaskState = New | Pending | Assigned | Accepted | Preparing | Ready | Starting | Running
                     | Complete | Failed | Rejected | Shutdown | Orphaned | Remove

  datatype Tasks = Listed(states: seq<TaskState>) | Unknown

  datatype Service = Service(id: string, app: string, target: string, action: string, created: int, tasks: Tasks)

  function OfContainer(c: Container): Mover {
    Mover(c.id, c.app, c.target, c.action, c.created, c.state == "running" || c.state == "restarting")
  }

  predicate Ended(t: TaskState) {
    t.Complete? || t.Failed? || t.Rejected? || t.Shutdown? || t.Orphaned?
  }

  /** A service whose tasks cannot be listed counts as running. */
  predicate ServiceRuns(s: Service) {
    s.tasks.Listed? ==> exists i :: 0 <= i < |s.tasks.states| && !Ended(s.tasks.states[i])
  }

  function OfService(s: Service): Mover {
    Mover(s.id, s.app, s.target, s.action, s.created, ServiceRuns(s))
  }

  function OfContainers(cs: seq<Container>): seq<Mover> {
    seq(|cs|, i requires 0 <= i < |cs| => OfContainer(cs[i]))
  }

  function OfServices(ss: seq<Service>): seq<Mover> {
    seq(|ss|, i requires 0 <= i < |ss| => OfService(ss[i]))
  }

  function GroupKey(app: string, target: string, action: string): string {
    Key(Key(app, target), action)
  }

  function KeyOf(m: Mover): string {
    GroupKey(m.app, m.target, m.action)
  }

  // ---------------------------------------------------------- the one spec

  predicate Stray(m: Mover) {
    !m.running && m.action == ""
  }

  predicate InGroup(m: Mover, key: string) {
    !m.running && m.action != "" && KeyOf(m) == key
  }

  function Group(list: set<Mover>, key: string): set<Mover> {
    set m | m in list && InGroup(m, key)
  }

  function Clip(keep: int, size: nat): nat {
    if keep <= 0 then 0 else if keep < size then keep else size
  }

  /** Of a group, as many as asked for are kept, and none is older than one that goes. */
  ghost predicate Trimmed(group: set<Mover>, keep: int, gone: set<Mover>) {
    && |group - gone| == Clip(keep, |group|)
    && forall x, y | x in group - gone && y in group * gone :: x.created >= y.created
  }

  /** What Reap may decide to remove. */
  ghost predicate Reaped(list: set<Mover>, keep: int, gone: set<Mover>) {
    && gone <= list
    && (forall m | m in gone :: !m.running)
    && (forall m | m in list && Stray(m) :: m in gone)
    && forall key :: Trimmed(Group(list, key), keep, gone)
  }

  // --------------------------------------------------------------- sorting

  predicate NewestFirst(ms: seq<Mover>) {
    forall i, j | 0 <= i < j < |ms| :: ms[i].created >= ms[j].created
  }

  predicate NewestAt(ms: seq<Mover>, k: int) {
    0 <= k < |ms| && forall i | 0 <= i < |ms| :: ms[i].created <= ms[k].created
  }

  lemma {:induction false} SomeNewest(ms: seq<Mover>)
    requires ms != []
    ensures exists k :: NewestAt(ms, k)
    decreases |ms|
  {
    var n := |ms| - 1;
    if n == 0 {
      assert NewestAt(ms, 0);
    } else {
      SomeNewest(ms[..n]);
      var k :| NewestAt(ms[..n], k);
      assert forall i | 0 <= i < n :: ms[..n][i] == ms[i];
      assert NewestAt(ms, if ms[n].created > ms[k].created then n else k);
    }
  }

  /** Everything in a is at least as new as everything in b. */
  ghost predicate Above(a: seq<Mover>, b: seq<Mover>) {
    forall x, y | x in a && y in b :: x.created >= y.created
  }

  /** sort.Slice by age: some permutation with the newest first. */
  method Sorted(ms: seq<Mover>) returns (r: seq<Mover>)
    ensures multiset(r) == multiset(ms) && NewestFirst(r)
  {
    hide NewestFirst;
    var rest := ms;
    r := [];
    NothingToSort();
    while rest != []
      invariant multiset(r) + multiset(rest) == multiset(ms)
      invariant NewestFirst(r) && Above(r, rest)
      decreases |rest|
    {
      SomeNewest(rest);
      var k :| NewestAt(rest, k);
      TakeNewest(r, rest, k);
      r, rest := r + [rest[k]], rest[..k] + rest[k + 1..];
    }
  }

  lemma NothingToSort()
    ensures NewestFirst([])
  {
  }

  lemma TakeNewest(r: seq<Mover>, rest: seq<Mover>, k: nat)
    requires NewestFirst(r) && Above(r, rest) && NewestAt(rest, k)
    ensures var rest' := rest[..k] + rest[k + 1..];
            NewestFirst(r + [rest[k]]) && Above(r + [rest[k]], rest') &&
            multiset(r + [rest[k]]) + multiset(rest') == multiset(r) + multiset(rest)
  {
    var rest' := rest[..k] + rest[k + 1..];
    assert rest == rest[..k] + [rest[k]] + rest[k + 1..];
    assert forall y | y in rest' :: y in rest;
    forall i, j | 0 <= i < j < |r| + 1 ensures (r + [rest[k]])[i].created >= (r + [rest[k]])[j].created {
      if j == |r| {
        assert r[i] in r && rest[k] in rest;
      }
    }
  }

  lemma PermutedDistinct(a: seq<Mover>, b: seq<Mover>)
    requires multiset(a) == multiset(b) && Distinct(a)
    ensures Distinct(b) && AsSet(a) == AsSet(b)
  {
    forall x ensures x in a <==> x in b {
      assert x in multiset(a) <==> x in multiset(b);
    }
    assert AsSet(a) == AsSet(b);
    SetSize(a);
    SameSizes(a, b);
    forall i, j | 0 <= i < j < |b| ensures b[i] != b[j] {
      NotRepeated(b, i, j);
    }
  }

  lemma SameSizes(a: seq<Mover>, b: seq<Mover>)
    requires multiset(a) == multiset(b)
    ensures |a| == |b|
  {
    assert |a| == |multiset(a)| && |b| == |multiset(b)|;
  }

  lemma NotRepeated(b: seq<Mover>, i: nat, j: nat)
    requires i < j < |b|
    ensures |AsSet(b)| == |b| ==> b[i] != b[j]
  {
    if b[i] == b[j] {
      var c := b[..j] + b[j + 1..];
      SetSize(c);
      assert b == b[..j] + [b[j]] + b[j + 1..];
      assert c[i] == b[j];
      assert AsSet(b) == AsSet(c);
    }
  }

  lemma CutKeeps(r: seq<Mover>, cut: nat)
    requires Distinct(r) && cut <= |r|
    ensures AsSet(r) - AsSet(r[cut..]) == AsSet(r[..cut]) && AsSet(r) * AsSet(r[cut..]) == AsSet(r[cut..])
    ensures |AsSet(r)| == |r| && |AsSet(r[..cut])| == cut
  {
    hide AsSet, Distinct;
    DistinctParts(r, cut);
    SetSize(r);
    SetSize(r[..cut]);
  }

  lemma CutAbove(r: seq<Mover>, cut: nat)
    requires NewestFirst(r) && cut <= |r|
    ensures forall x, y | x in AsSet(r[..cut]) && y in AsSet(r[cut..]) :: x.created >= y.created
  {
    forall x, y | x in r[..cut] && y in r[cut..] ensures x.created >= y.created {
      var i :| 0 <= i < cut && r[..cut][i] == x;
      var j :| 0 <= j < |r| - cut && r[cut..][j] == y;
      assert r[i] == x && r[cut + j] == y;
    }
  }

  /** Cutting a sorted list keeps the newest. */
  lemma CutTrims(r: seq<Mover>, keep: int)
    requires Distinct(r) && NewestFirst(r)
    ensures Trimmed(AsSet(r), keep, AsSet(r[Clip(keep, |r|)..]))
  {
    hide Distinct, NewestFirst, AsSet;
    CutKeeps(r, Clip(keep, |r|));
    CutAbove(r, Clip(keep, |r|));
  }

  // -------------------------------------------------------------- grouping

  function Filter(ms: seq<Mover>, f: Mover -> bool): seq<Mover> {
    if ms == [] then []
    else Filter(ms[..|ms| - 1], f) + (if f(ms[|ms| - 1]) then [ms[|ms| - 1]] else [])
  }

  function HasKey(key: string): Mover -> bool {
    m => InGroup(m, key)
  }

  function Strays(ms: seq<Mover>): seq<Mover> {
    Filter(ms, Stray)
  }

  function GroupList(ms: seq<Mover>, key: string): seq<Mover> {
    Filter(ms, HasKey(key))
  }

  lemma {:induction false} FilterSelects(ms: seq<Mover>, f: Mover -> bool)
    ensures AsSet(Filter(ms, f)) == set m | m in AsSet(ms) && f(m)
    ensures Distinct(ms) ==> Distinct(Filter(ms, f))
    decreases |ms|
  {
    if ms != [] {
      hide Filter, Distinct, AsSet;
      var n := |ms| - 1;
      var init, m := ms[..n], ms[n];
      FilterSelects(init, f);
      assert ms == init + [m];
      AsSetSnoc(init, m);
      FilterSnoc(init, m, f);
      AsSetSnoc(Filter(init, f), m);
    }
  }

  lemma GroupListIsGroup(ms: seq<Mover>, key: string)
    ensures AsSet(GroupList(ms, key)) == Group(AsSet(ms), key)
    ensures AsSet(Strays(ms)) == set m | m in AsSet(ms) && Stray(m)
    ensures Distinct(ms) ==> Distinct(GroupList(ms, key)) && Distinct(Strays(ms))
  {
    hide InGroup, Stray, Filter;
    FilterSelects(ms, HasKey(key));
    FilterSelects(ms, Stray);
  }

  lemma FilterSnoc(ms: seq<Mover>, m: Mover, f: Mover -> bool)
    ensures Filter(ms + [m], f) == if f(m) then Filter(ms, f) + [m] else Filter(ms, f)
  {
    assert (ms + [m])[..|ms|] == ms;
  }

  /** One more mover changes the stray list or one group. */
  lemma ListsSnoc(ms: seq<Mover>, m: Mover, key: string)
    ensures Strays(ms + [m]) == if Stray(m) then Strays(ms) + [m] else Strays(ms)
    ensures GroupList(ms + [m], key) == if InGroup(m, key) then GroupList(ms, key) + [m] else GroupList(ms, key)
  {
    hide Filter;
    FilterSnoc(ms, m, Stray);
    FilterSnoc(ms, m, HasKey(key));
  }

  /** The groups map and the stray list after a scan. */
  ghost predicate Grouped(ms: seq<Mover>, groups: map<string, seq<Mover>>, stray: seq<Mover>) {
    && stray == Strays(ms)
    && (forall key | key in groups :: groups[key] == GroupList(ms, key))
    && forall key | key !in groups :: GroupList(ms, key) == []
  }

  /** One mover sorted into the groups, as both engines do. */
  method Place(m: Mover, ghost ms: seq<Mover>, groups: map<string, seq<Mover>>, stray: seq<Mover>)
    returns (groups': map<string, seq<Mover>>, stray': seq<Mover>)
    requires Grouped(ms, groups, stray)
    ensures Grouped(ms + [m], groups', stray')
  {
    hide KeyOf, GroupList, Strays;
    forall key
      ensures GroupList(ms + [m], key) == if InGroup(m, key) then GroupList(ms, key) + [m] else GroupList(ms, key)
    {
      ListsSnoc(ms, m, key);
    }
    ListsSnoc(ms, m, "");
    groups', stray' := groups, stray;
    if m.running {
      return;
    }
    if m.action == "" {
      stray' := stray + [m];
      return;
    }
    var key := KeyOf(m);
    groups' := groups[key := (if key in groups then groups[key] else []) + [m]];
  }

  method ScanContainers(cs: seq<Container>) returns (groups: map<string, seq<Mover>>, stray: seq<Mover>)
    ensures Grouped(OfContainers(cs), groups, stray)
  {
    hide Grouped;
    groups, stray := map[], [];
    NothingGrouped();
    assert OfContainers(cs[..0]) == [];
    for k := 0 to |cs|
      invariant Grouped(OfContainers(cs[..k]), groups, stray)
    {
      assert OfContainers(cs[..k + 1]) == OfContainers(cs[..k]) + [OfContainer(cs[k])];
      groups, stray := Place(OfContainer(cs[k]), OfContainers(cs[..k]), groups, stray);
    }
    assert cs[..|cs|] == cs;
  }

  lemma NothingGrouped()
    ensures Grouped([], map[], [])
  {
  }

  /** serviceRunning. */
  method ServiceRunning(s: Service) returns (runs: bool)
    ensures runs <==> ServiceRuns(s)
  {
    if s.tasks.Unknown? {
      return true;
    }
    var states := s.tasks.states;
    for i := 0 to |states|
      invariant forall j | 0 <= j < i :: Ended(states[j])
    {
      match states[i]
      case Complete =>
      case Failed =>
      case Rejected =>
      case Shutdown =>
      case Orphaned =>
      case _ =>
        assert !Ended(s.tasks.states[i]);
        return true;
    }
    return false;
  }

  method ScanServices(ss: seq<Service>) returns (groups: map<string, seq<Mover>>, stray: seq<Mover>)
    ensures Grouped(OfServices(ss), groups, stray)
  {
    hide Grouped, ServiceRuns;
    groups, stray := map[], [];
    NothingGrouped();
    assert OfServices(ss[..0]) == [];
    for k := 0 to |ss|
      invariant Grouped(OfServices(ss[..k]), groups, stray)
    {
      var s := ss[k];
      var runs := ServiceRunning(s);
      assert OfServices(ss[..k + 1]) == OfServices(ss[..k]) + [OfService(s)];
      var m := Mover(s.id, s.app, s.target, s.action, s.created, runs);
      groups, stray := Place(m, OfServices(ss[..k]), groups, stray);
    }
    assert ss[..|ss|] == ss;
  }

  // --------------------------------------------------------------- the host

  class Host {
    var live: set<Mover>

    constructor (live: set<Mover>)
      ensures this.live == live
    {
      this.live := live;
    }

    /** Removes movers one by one, from `start` on, counting the removals that work. */
    method RemoveFrom(ms: seq<Mover>, start: int, stuck: set<Mover>) returns (n: nat)
      requires Distinct(ms)
      modifies this
      ensures var out := AsSet(ms[Clip(start, |ms|)..]) - stuck;
              live == old(live) - out && n == |out|
    {
      hide AsSet, Distinct;
      n := 0;
      ghost var cut, out := Clip(start, |ms|), {};
      for i := 0 to |ms|
        invariant out == Between(ms, cut, i) - stuck
        invariant live == old(live) - out && n == |out|
      {
        OneMore(ms, cut, i);
        if i >= start && ms[i] !in stuck {
          live := live - {ms[i]};
          n := n + 1;
          out := out + {ms[i]};
        }
      }
      BetweenAll(ms, cut);
    }

    /** One group: sorted, then everything behind the newest `keep` goes. */
    method TrimGroup(cs: seq<Mover>, keep: int, stuck: set<Mover>) returns (n: nat, ghost out: set<Mover>)
      requires Distinct(cs)
      modifies this
      ensures out <= AsSet(cs) && Trimmed(AsSet(cs), keep, out)
      ensures live == old(live) - (out - stuck) && n == |out - stuck|
    {
      hide NewestFirst, Trimmed, Distinct;
      var r := Sorted(cs);
      PermutedDistinct(cs, r);
      CutTrims(r, keep);
      n := RemoveFrom(r, keep, stuck);
      out := AsSet(r[Clip(keep, |r|)..]);
    }

    /** The removals of both engines, after the scan. */
    method Trim(ghost ms: seq<Mover>, groups: map<string, seq<Mover>>, stray: seq<Mover>, keep: int, stuck: set<Mover>)
      returns (n: nat, ghost gone: set<Mover>)
      requires Distinct(ms) && AsSet(ms) == live && Grouped(ms, groups, stray)
      modifies this
      ensures Reaped(old(live), keep, gone)
      ensures live == old(live) - (gone - stuck) && n == |gone - stuck|
    {
      hide Trimmed, Grouped, Group, Stray, Reaped, Distinct, Progress, AsSet;
      ScanFacts(ms, groups, stray);
      ghost var list := live;
      n := RemoveFrom(stray, 0, stuck);
      assert stray[0..] == stray;
      gone := AsSet(stray);
      StraysFirst(list, keep, gone);
      var todo := groups.Keys;
      assert groups.Keys - todo == {};
      while todo != {}
        invariant todo <= groups.Keys
        invariant Progress(list, keep, gone, groups.Keys - todo)
        invariant live == list - (gone - stuck) && n == |gone - stuck|
        decreases todo
      {
        var key :| key in todo;
        Untouched(list, keep, gone, groups.Keys - todo, key);
        var k, out := TrimGroup(groups[key], keep, stuck);
        NextGroup(list, keep, gone, groups.Keys - todo, key, out);
        Counted(list, gone, out, stuck);
        OneKey(groups.Keys, todo, key);
        gone := gone + out;
        n := n + k;
        todo := todo - {key};
      }
      assert groups.Keys - todo == groups.Keys;
      AllGroups(ms, keep, gone, groups, stray);
    }

    /** Runner.Reap; without a list nothing happens. */
    method ReapContainers(cs: Option<seq<Container>>, keep: int, stuck: set<Mover>)
      returns (ok: bool, n: nat, ghost gone: set<Mover>)
      requires cs.Some? ==> Distinct(OfContainers(cs.value)) && AsSet(OfContainers(cs.value)) == live
      modifies this
      ensures ok <==> cs.Some?
      ensures if ok then Reaped(old(live), keep, gone) else gone == {}
      ensures ok ==> ContainersReaped(cs.value, gone)
      ensures live == old(live) - (gone - stuck) && n == |gone - stuck|
    {
      hide Reaped, Grouped, Distinct, ContainersReaped;
      if cs.None? {
        return false, 0, {};
      }
      var groups, stray := ScanContainers(cs.value);
      n, gone := Trim(OfContainers(cs.value), groups, stray, keep, stuck);
      ContainersLaw(cs.value, keep, gone);
      ok := true;
    }

    /** Engine.Reap on Swarm. */
    method ReapServices(ss: Option<seq<Service>>, keep: int, stuck: set<Mover>)
      returns (ok: bool, n: nat, ghost gone: set<Mover>)
      requires ss.Some? ==> Distinct(OfServices(ss.value)) && AsSet(OfServices(ss.value)) == live
      modifies this
      ensures ok <==> ss.Some?
      ensures if ok then Reaped(old(live), keep, gone) else gone == {}
      ensures ok ==> ServicesReaped(ss.value, gone)
      ensures live == old(live) - (gone - stuck) && n == |gone - stuck|
    {
      hide Reaped, Grouped, Distinct, ServiceRuns, ServicesReaped;
      if ss.None? {
        return false, 0, {};
      }
      var groups, stray := ScanServices(ss.value);
      n, gone := Trim(OfServices(ss.value), groups, stray, keep, stuck);
      ServicesLaw(ss.value, keep, gone);
      ok := true;
    }
  }

  // --------------------------------------------- said of what Docker and Swarm list

  /** No container that Docker calls running or restarting goes; any other one without an
      action does; and of two of one app, target and action the newer one stays. */
  ghost predicate ContainersReaped(cs: seq<Container>, gone: set<Mover>) {
    && (forall i | 0 <= i < |cs| && (cs[i].state == "running" || cs[i].state == "restarting") ::
          OfContainer(cs[i]) !in gone)
    && (forall i | 0 <= i < |cs| && cs[i].state != "running" && cs[i].state != "restarting" && cs[i].action == "" ::
          OfContainer(cs[i]) in gone)
    && (forall i, j | 0 <= i < |cs| && 0 <= j < |cs| && cs[i].app == cs[j].app && cs[i].target == cs[j].target &&
                      cs[i].action == cs[j].action != "" && OfContainer(cs[j]) in gone && OfContainer(cs[i]) !in gone &&
                      cs[i].state != "running" && cs[i].state != "restarting" ::
          cs[i].created >= cs[j].created)
  }

  predicate Active(t: TaskState) {
    || t == New || t == Pending || t == Assigned || t == Accepted || t == Preparing
    || t == Ready || t == Starting || t == Running || t == Remove
  }

  /** No service with an active task, or whose tasks cannot be listed, goes; any other one
      without an action does; and of two of one group the newer one stays. */
  ghost predicate ServicesReaped(ss: seq<Service>, gone: set<Mover>) {
    && (forall i | 0 <= i < |ss| && ss[i].tasks.Unknown? :: OfService(ss[i]) !in gone)
    && (forall i, k | 0 <= i < |ss| && ss[i].tasks.Listed? && 0 <= k < |ss[i].tasks.states| &&
                      Active(ss[i].tasks.states[k]) :: OfService(ss[i]) !in gone)
    && (forall i | 0 <= i < |ss| && ss[i].tasks.Listed? && ss[i].action == "" &&
                   (forall k | 0 <= k < |ss[i].tasks.states| :: !Active(ss[i].tasks.states[k])) ::
          OfService(ss[i]) in gone)
    && (forall i, j | 0 <= i < |ss| && 0 <= j < |ss| && ss[i].app == ss[j].app && ss[i].target == ss[j].target &&
                      ss[i].action == ss[j].action != "" && OfService(ss[j]) in gone && OfService(ss[i]) !in gone &&
                      !ServiceRuns(ss[i]) :: ss[i].created >= ss[j].created)
  }

  lemma ActiveMeans(t: TaskState)
    ensures Active(t) <==> !Ended(t)
    ensures Ended(t) <==> t == Complete || t == Failed || t == Rejected || t == Shutdown || t == Orphaned
  {
  }

  /** Of two finished movers of one group the one that goes is not the newer. */
  lemma OlderGoes(list: set<Mover>, keep: int, gone: set<Mover>, x: Mover, y: Mover)
    requires Reaped(list, keep, gone) && x in list && y in list && x !in gone && y in gone && !x.running
    requires x.app == y.app && x.target == y.target && x.action == y.action != ""
    ensures x.created >= y.created
  {
    hide Clip;
    var key := KeyOf(x);
    assert Trimmed(Group(list, key), keep, gone);
    assert x in Group(list, key) - gone && y in Group(list, key) * gone;
  }

  lemma ContainersLaw(cs: seq<Container>, keep: int, gone: set<Mover>)
    requires Reaped(AsSet(OfContainers(cs)), keep, gone)
    ensures ContainersReaped(cs, gone)
  {
    var list := AsSet(OfContainers(cs));
    forall i | 0 <= i < |cs| ensures OfContainer(cs[i]) in list {
      assert OfContainers(cs)[i] in OfContainers(cs);
    }
    hide Reaped;
    RunningStay(list, keep, gone);
    forall i, j | 0 <= i < |cs| && 0 <= j < |cs| && cs[i].app == cs[j].app && cs[i].target == cs[j].target &&
                  cs[i].action == cs[j].action != "" && OfContainer(cs[j]) in gone && OfContainer(cs[i]) !in gone &&
                  cs[i].state != "running" && cs[i].state != "restarting"
      ensures cs[i].created >= cs[j].created
    {
      OlderGoes(list, keep, gone, OfContainer(cs[i]), OfContainer(cs[j]));
    }
  }

  lemma RunningStay(list: set<Mover>, keep: int, gone: set<Mover>)
    requires Reaped(list, keep, gone)
    ensures forall m | m in gone :: !m.running
    ensures forall m | m in list && !m.running && m.action == "" :: m in gone
  {
  }

  lemma RunsIfActive(s: Service)
    ensures ServiceRuns(s) <==>
            s.tasks.Unknown? || exists k :: 0 <= k < |s.tasks.states| && Active(s.tasks.states[k])
  {
    hide Active, Ended;
    if s.tasks.Listed? {
      forall k | 0 <= k < |s.tasks.states| ensures Active(s.tasks.states[k]) <==> !Ended(s.tasks.states[k]) {
        ActiveMeans(s.tasks.states[k]);
      }
    }
  }

  lemma ServicesLaw(ss: seq<Service>, keep: int, gone: set<Mover>)
    requires Reaped(AsSet(OfServices(ss)), keep, gone)
    ensures ServicesReaped(ss, gone)
  {
    hide Reaped, ServiceRuns, Active;
    var list := AsSet(OfServices(ss));
    forall i | 0 <= i < |ss| ensures OfService(ss[i]) in list {
      assert OfServices(ss)[i] in OfServices(ss);
    }
    RunningStay(list, keep, gone);
    forall i | 0 <= i < |ss|
      ensures ServiceRuns(ss[i]) <==>
              ss[i].tasks.Unknown? || exists k :: 0 <= k < |ss[i].tasks.states| && Active(ss[i].tasks.states[k])
    {
      RunsIfActive(ss[i]);
    }
    forall i, j | 0 <= i < |ss| && 0 <= j < |ss| && ss[i].app == ss[j].app && ss[i].target == ss[j].target &&
                  ss[i].action == ss[j].action != "" && OfService(ss[j]) in gone && OfService(ss[i]) !in gone &&
                  !ServiceRuns(ss[i])
      ensures ss[i].created >= ss[j].created
    {
      OlderGoes(list, keep, gone, OfService(ss[i]), OfService(ss[j]));
    }
  }

  function Between(ms: seq<Mover>, cut: nat, i: nat): set<Mover>
    requires i <= |ms|
  {
    if i <= cut then {} else AsSet(ms[cut..i])
  }

  lemma OneMore(ms: seq<Mover>, cut: nat, i: nat)
    requires Distinct(ms) && i < |ms|
    ensures Between(ms, cut, i + 1) == Between(ms, cut, i) + (if i >= cut then {ms[i]} else {})
    ensures ms[i] !in Between(ms, cut, i)
  {
    if i >= cut {
      assert ms[cut..i + 1] == ms[cut..i] + [ms[i]];
      assert i == cut ==> ms[cut..i] == [];
    }
  }

  lemma BetweenAll(ms: seq<Mover>, cut: nat)
    requires cut <= |ms|
    ensures Between(ms, cut, |ms|) == AsSet(ms[cut..])
  {
    assert ms[cut..|ms|] == ms[cut..];
  }

  lemma Counted(list: set<Mover>, gone: set<Mover>, out: set<Mover>, stuck: set<Mover>)
    requires gone !! out
    ensures |(gone + out) - stuck| == |gone - stuck| + |out - stuck|
    ensures list - (gone - stuck) - (out - stuck) == list - ((gone + out) - stuck)
  {
    assert (gone + out) - stuck == (gone - stuck) + (out - stuck);
  }

  lemma OneKey(keys: set<string>, todo: set<string>, key: string)
    requires key in todo && todo <= keys
    ensures keys - (todo - {key}) == (keys - todo) + {key}
  {
  }

  lemma ScanFacts(ms: seq<Mover>, groups: map<string, seq<Mover>>, stray: seq<Mover>)
    requires Distinct(ms) && Grouped(ms, groups, stray)
    ensures Distinct(stray) && AsSet(stray) == set m | m in AsSet(ms) && Stray(m)
    ensures forall key | key in groups :: Distinct(groups[key]) && AsSet(groups[key]) == Group(AsSet(ms), key)
    ensures forall key | key !in groups :: Group(AsSet(ms), key) == {}
  {
    hide GroupList, Strays, Stray, Group, Distinct;
    GroupListIsGroup(ms, "");
    forall key ensures key in groups ==> Distinct(groups[key]) && AsSet(groups[key]) == Group(AsSet(ms), key)
      ensures key !in groups ==> Group(AsSet(ms), key) == {}
    {
      GroupListIsGroup(ms, key);
    }
  }

  /** Part way: the strays and the groups in `done` have been dealt with. */
  ghost predicate Progress(list: set<Mover>, keep: int, gone: set<Mover>, done: set<string>) {
    && gone <= list
    && (forall m | m in gone :: !m.running)
    && (forall m | m in list && Stray(m) :: m in gone)
    && (forall key | key in done :: Trimmed(Group(list, key), keep, gone))
    && forall key | key !in done :: Group(list, key) !! gone
  }

  lemma StraysFirst(list: set<Mover>, keep: int, gone: set<Mover>)
    requires gone == set m | m in list && Stray(m)
    ensures Progress(list, keep, gone, {})
  {
  }

  lemma Untouched(list: set<Mover>, keep: int, gone: set<Mover>, done: set<string>, key: string)
    requires Progress(list, keep, gone, done) && key !in done
    ensures Group(list, key) !! gone && Group(list, key) <= list && gone <= list
  {
    hide InGroup;
  }

  lemma NextGroup(list: set<Mover>, keep: int, gone: set<Mover>, done: set<string>, key: string, out: set<Mover>)
    requires Progress(list, keep, gone, done) && key !in done
    requires out <= Group(list, key) && Trimmed(Group(list, key), keep, out)
    ensures Progress(list, keep, gone + out, done + {key})
  {
    hide Trimmed, KeyOf;
    forall other ensures other in done + {key} ==> Trimmed(Group(list, other), keep, gone + out)
      ensures other !in done + {key} ==> Group(list, other) !! gone + out
    {
      var g := Group(list, other);
      if other == key {
        TrimmedHere(g, keep, out, gone + out);
      } else {
        assert g !! out;
        if other in done {
          TrimmedHere(g, keep, gone, gone + out);
        }
      }
    }
  }

  /** Only what is removed of the group itself matters. */
  lemma TrimmedHere(g: set<Mover>, keep: int, gone: set<Mover>, gone': set<Mover>)
    requires Trimmed(g, keep, gone) && g * gone == g * gone'
    ensures Trimmed(g, keep, gone')
  {
    assert forall x | x in g :: (x in gone <==> x in g * gone) && (x in gone' <==> x in g * gone');
    assert g - gone == g - gone';
  }

  lemma AllGroups(ms: seq<Mover>, keep: int, gone: set<Mover>, groups: map<string, seq<Mover>>, stray: seq<Mover>)
    requires Distinct(ms) && Grouped(ms, groups, stray) && Progress(AsSet(ms), keep, gone, groups.Keys)
    ensures Reaped(AsSet(ms), keep, gone)
  {
    hide Grouped, Group, Distinct;
    ScanFacts(ms, groups, stray);
    forall key ensures Trimmed(Group(AsSet(ms), key), keep, gone) {
    }
  }

  // ------------------------------------------------------------ properties

  /** As long as no further mover has ended, a second Reap removes nothing exactly if every
      removal of the first one worked. */
  lemma SecondReapExactly(list: set<Mover>, keep: int, gone: set<Mover>, stuck: set<Mover>, gone': set<Mover>)
    requires Reaped(list, keep, gone) && Reaped(list - (gone - stuck), keep, gone')
    ensures gone' == {} <==> gone !! stuck
  {
    hide Reaped;
    if gone !! stuck {
      assert gone - stuck == gone;
      SecondReapIsIdle(list, keep, gone, gone');
    } else {
      var m :| m in gone && m in stuck;
      LeftoverGoes(list, keep, gone, stuck, gone', m);
    }
  }

  lemma LeftoverGoes(list: set<Mover>, keep: int, gone: set<Mover>, stuck: set<Mover>, gone': set<Mover>, m: Mover)
    requires Reaped(list, keep, gone) && Reaped(list - (gone - stuck), keep, gone') && m in gone && m in stuck
    ensures gone' != {}
  {
    hide Clip, KeyOf, Trimmed;
    var rest := list - (gone - stuck);
    assert m in rest;
    if m.action != "" {
      var key := KeyOf(m);
      var g, g' := Group(list, key), Group(rest, key);
      assert m in g && m in g' && g - gone <= g' - {m};
      StillTooMany(g, g', keep, gone, gone', m);
    }
  }

  lemma StillTooMany(g: set<Mover>, g': set<Mover>, keep: int, gone: set<Mover>, gone': set<Mover>, m: Mover)
    requires Trimmed(g, keep, gone) && Trimmed(g', keep, gone')
    requires m in g && m in gone && m in g' && g - gone <= g' - {m}
    ensures gone' != {}
  {
    SubsetSize(g - gone, g - {m});
    SubsetSize(g - gone, g' - {m});
    assert |g - {m}| == |g| - 1 && |g' - {m}| == |g'| - 1;
    assert g' - {} == g';
  }

  lemma SecondReapIsIdle(list: set<Mover>, keep: int, gone: set<Mover>, gone': set<Mover>)
    requires Reaped(list, keep, gone) && Reaped(list - gone, keep, gone')
    ensures gone' == {}
  {
    hide Clip, KeyOf, Trimmed;
    forall m | m in list - gone ensures m !in gone' {
      if !m.running && m.action != "" {
        var key := KeyOf(m);
        GroupIsSmall(list, keep, gone, gone', key);
        assert m in Group(list - gone, key);
      }
    }
  }

  lemma GroupIsSmall(list: set<Mover>, keep: int, gone: set<Mover>, gone': set<Mover>, key: string)
    requires Trimmed(Group(list, key), keep, gone) && Trimmed(Group(list - gone, key), keep, gone')
    ensures Group(list - gone, key) !! gone'
  {
    hide InGroup;
    var g := Group(list - gone, key);
    assert g == Group(list, key) - gone;
    assert Clip(keep, |g|) == |g|;
    SubsetSize(g - gone', g);
  }

  /** Keeping none removes every finished mover, and only those. */
  lemma KeepNone(list: set<Mover>, keep: int, gone: set<Mover>)
    requires keep <= 0 && Reaped(list, keep, gone)
    ensures gone == set m | m in list && !m.running
  {
    forall m | m in list && !m.running ensures m in gone {
      if m.action != "" {
        var g := Group(list, KeyOf(m));
        assert Trimmed(g, keep, gone);
        assert g - gone == {} && m in g;
      }
    }
  }

  lemma BarInLonger(a: string, t: string, b: string, u: string)
    requires Key(a, t) == Key(b, u)
    ensures |t| < |u| ==> '|' in u
  {
    if |t| < |u| {
      assert Key(a, t)[|a|] == '|' && Key(b, u)[|a|] == u[|a| - |b| - 1];
    }
  }

  lemma BarFree(a: string, t: string, b: string, u: string)
    requires Key(a, t) == Key(b, u) && '|' !in t && '|' !in u
    ensures a == b && t == u
  {
    BarInLonger(a, t, b, u);
    BarInLonger(b, u, a, t);
    assert t == Key(a, t)[|a| + 1..] && u == Key(b, u)[|b| + 1..];
    SameTarget(a, b, t);
  }

  /** Sabon's actions hold no bar, so two movers share a group exactly when they have the same
      action and the same "<app>|<target>" key; for unambiguous targets, the same app and target. */
  lemma GroupsAreRuns(m: Mover, n: Mover, targets: set<string>)
    requires '|' !in m.action && '|' !in n.action
    ensures KeyOf(m) == KeyOf(n) <==> m.action == n.action && Key(m.app, m.target) == Key(n.app, n.target)
    ensures NoEndings(targets) && m.target in targets && n.target in targets && ValidApp(m.app) && ValidApp(n.app) ==>
              (KeyOf(m) == KeyOf(n) <==> m.action == n.action && m.app == n.app && m.target == n.target)
  {
    hide NoEndings, ValidApp;
    if KeyOf(m) == KeyOf(n) {
      BarFree(Key(m.app, m.target), m.action, Key(n.app, n.target), n.action);
    }
    UnambiguousExactly(targets);
  }

  // ------------------------------------------- a mover not yet running

  ghost predicate Spared(list: set<Mover>, keep: int, m: Mover) {
    forall gone | Reaped(list, keep, gone) :: m !in gone
  }

  /** The others of a group that are at least as new. */
  function NotOlder(g: set<Mover>, m: Mover): set<Mover> {
    set x | x in g && x != m && x.created >= m.created
  }

  lemma {:induction false} SomeOldest(g: set<Mover>) returns (y: Mover)
    requires g != {}
    ensures y in g && forall x | x in g :: y.created <= x.created
    decreases |g|
  {
    var z :| z in g;
    if g == {z} {
      y := z;
    } else {
      assert g - {z} != {} by {
        assert g == (g - {z}) + {z};
      }
      y := SomeOldest(g - {z});
      if z.created < y.created {
        y := z;
      }
    }
  }

  lemma OneMoreOut(g: set<Mover>, keep: int, y: Mover, out: set<Mover>)
    requires y in g && (forall x | x in g :: y.created <= x.created) && |g| > Clip(keep, |g|)
    requires out <= g - {y} && Trimmed(g - {y}, keep, out)
    ensures Trimmed(g, keep, out + {y})
  {
    assert g - (out + {y}) == (g - {y}) - out;
    assert |g - {y}| == |g| - 1;
  }

  /** Every group can be trimmed. */
  lemma {:induction false} SomeTrim(g: set<Mover>, keep: int) returns (out: set<Mover>)
    ensures out <= g && Trimmed(g, keep, out)
    decreases |g|
  {
    if |g| == Clip(keep, |g|) {
      out := {};
      assert g - {} == g;
    } else {
      var y := SomeOldest(g);
      out := SomeTrim(g - {y}, keep);
      OneMoreOut(g, keep, y, out);
      out := out + {y};
    }
  }

  /** A mover that enough others are not older than can be trimmed away. */
  lemma {:induction false} TrimAway(g: set<Mover>, keep: int, m: Mover) returns (out: set<Mover>)
    requires m in g && |NotOlder(g, m)| >= keep
    ensures out <= g && Trimmed(g, keep, out) && m in out
    decreases |g|
  {
    hide Trimmed;
    SubsetSize(NotOlder(g, m), g - {m});
    assert |g - {m}| == |g| - 1;
    var y := SomeOldest(g);
    if m.created == y.created {
      out := SomeTrim(g - {m}, keep);
      OneMoreOut(g, keep, m, out);
      out := out + {m};
    } else {
      assert NotOlder(g - {y}, m) == NotOlder(g, m);
      out := TrimAway(g - {y}, keep, m);
      OneMoreOut(g, keep, y, out);
      out := out + {y};
    }
  }

  /** The remaining groups, one after another. */
  lemma {:induction false} CompleteAll(list: set<Mover>, keep: int, gone: set<Mover>, done: set<string>,
                                       todo: set<string>)
    returns (all: set<Mover>)
    requires Progress(list, keep, gone, done) && done !! todo
    ensures gone <= all && Progress(list, keep, all, done + todo)
    decreases |todo|
  {
    hide Progress, Trimmed;
    if key :| key in todo {
      var out := SomeTrim(Group(list, key), keep);
      NextGroup(list, keep, gone, done, key, out);
      all := CompleteAll(list, keep, gone + out, done + {key}, todo - {key});
      assert done + {key} + (todo - {key}) == done + todo;
    } else {
      all := gone;
      assert done + todo == done;
    }
  }

  function KeysOf(list: set<Mover>): set<string> {
    set m | m in list :: KeyOf(m)
  }

  lemma AllDone(list: set<Mover>, keep: int, gone: set<Mover>, done: set<string>)
    requires Progress(list, keep, gone, done) && KeysOf(list) <= done
    ensures Reaped(list, keep, gone)
  {
    hide KeyOf;
    forall key ensures Trimmed(Group(list, key), keep, gone) {
      if key !in done {
        assert forall m | m in list :: KeyOf(m) in KeysOf(list);
        assert Group(list, key) == {};
      }
    }
  }

  /** Some decision removes a mover that is not among those spared for sure. */
  lemma SomeReapTakes(list: set<Mover>, keep: int, m: Mover) returns (gone: set<Mover>)
    requires m in list && !m.running && (m.action == "" || |NotOlder(Group(list, KeyOf(m)), m)| >= keep)
    ensures Reaped(list, keep, gone) && m in gone
  {
    hide Progress, Trimmed, Reaped, KeyOf, NotOlder;
    gone := set x | x in list && Stray(x);
    StraysFirst(list, keep, gone);
    var done: set<string> := {};
    if m.action != "" {
      var key := KeyOf(m);
      assert m in Group(list, key);
      var out := TrimAway(Group(list, key), keep, m);
      NextGroup(list, keep, gone, {}, key, out);
      gone := gone + out;
      done := {} + {key};
    }
    var all := CompleteAll(list, keep, gone, done, KeysOf(list) - done);
    assert KeysOf(list) <= done + (KeysOf(list) - done);
    AllDone(list, keep, all, done + (KeysOf(list) - done));
    gone := all;
  }

  lemma KeptByRank(list: set<Mover>, keep: int, m: Mover, gone: set<Mover>)
    requires m in list && !m.running && m.action != "" && |NotOlder(Group(list, KeyOf(m)), m)| < keep
    requires Reaped(list, keep, gone)
    ensures m !in gone
  {
    hide KeyOf;
    var g := Group(list, KeyOf(m));
    assert Trimmed(g, keep, gone) && m in g;
    if m in gone {
      assert g - gone <= NotOlder(g, m);
      SubsetSize(g - gone, NotOlder(g, m));
      SubsetSize(g - gone, g);
    }
  }

  /** Reap never removes a mover exactly if it sees it running, or if the mover has an action
      and fewer than `keep` others of its group are at least as new. */
  lemma SparedExactly(list: set<Mover>, keep: int, m: Mover)
    requires m in list
    ensures Spared(list, keep, m) <==>
            m.running || (m.action != "" && |NotOlder(Group(list, KeyOf(m)), m)| < keep)
  {
    hide KeyOf, NotOlder, Group;
    if m.running {
      forall gone | Reaped(list, keep, gone) ensures m !in gone {
      }
    } else if m.action != "" && |NotOlder(Group(list, KeyOf(m)), m)| < keep {
      forall gone | Reaped(list, keep, gone) ensures m !in gone {
        KeptByRank(list, keep, m, gone);
      }
    } else {
      var gone := SomeReapTakes(list, keep, m);
    }
  }

  /** Created and not yet started, a mover does not count as running on either engine. */
  lemma InFlightIsNotRunning(c: Container, s: Service)
    requires c.state == "created" && s.tasks == Listed([])
    ensures !OfContainer(c).running && !OfService(s).running
  {
    assert "created"[0] != "running"[0] && |"created"| != |"restarting"|;
  }

  /** The mover of a run between create and start, newer than all others of its group: the
      periodic Reap leaves it alone exactly if it has an action and history is kept. */
  lemma InFlightSparedExactly(list: set<Mover>, keep: int, m: Mover)
    requires m in list && !m.running
    requires forall x | x in Group(list, KeyOf(m)) && x != m :: x.created < m.created
    ensures Spared(list, keep, m) <==> m.action != "" && keep > 0
  {
    hide Spared, KeyOf;
    SparedExactly(list, keep, m);
    assert NotOlder(Group(list, KeyOf(m)), m) == {};
  }
}
