/**
 The scheduler keeps an index of registered jobs in step with the desired list.
 Sync removes what is gone or changed and adds what is missing; the two passes
 walk maps, so their order is arbitrary.

 Whether a cron expression parses is a given predicate, and a closure is an
 arbitrary value. `live` records, for every scheduled key, its registration id
 and the job it was registered from.
 */
module Scheduling {

  datatype Job<R> = Job(key: string, schedule: string, fingerprint: string, run: R)

  datatype Entry = Entry(id: nat, schedule: string, fingerprint: string)

  /** One line of the cron table. */
  datatype Registered<R> = Registered(schedule: string, run: R)

  datatype Live<R> = Live(id: nat, job: Job<R>)

  type Table<R> = map<string, Live<R>>

  /** The last job per key of a list. */
  function Last<R>(desired: seq<Job<R>>): map<string, Job<R>> {
    if desired == [] then map[]
    else
      var n := |desired| - 1;
      Last(desired[..n])[desired[n].key := desired[n]]
  }

  ghost predicate LastAt<R>(desired: seq<Job<R>>, key: string, i: int) {
    0 <= i < |desired| && desired[i].key == key && forall j | i < j < |desired| :: desired[j].key != key
  }

  lemma {:induction false} LastPerKey<R>(desired: seq<Job<R>>, key: string)
    ensures key in Last(desired) <==> exists i :: LastAt(desired, key, i)
    ensures key in Last(desired) ==> exists i :: LastAt(desired, key, i) && desired[i] == Last(desired)[key]
    decreases |desired|
  {
    if desired != [] {
      var n := |desired| - 1;
      var init := desired[..n];
      LastPerKey(init, key);
      if desired[n].key == key {
        assert LastAt(desired, key, n);
      } else {
        assert forall i :: LastAt(init, key, i) <==> LastAt(desired, key, i) by {
          forall i ensures LastAt(init, key, i) <==> LastAt(desired, key, i) {
            assert LastAt(desired, key, i) ==> i != n;
          }
        }
      }
    }
  }

  ghost predicate DistinctIds<R>(t: Table<R>) {
    forall k, l | k in t && l in t && t[k].id == t[l].id :: k == l
  }

  /** What one Sync does to the table: the keys are those wanted with a valid schedule; an
      unchanged job keeps its registration, any other gets a new id and its own closure. */
  ghost predicate Synced<R>(accepts: string -> bool, t: Table<R>, want: map<string, Job<R>>, t': Table<R>,
                            firstNew: nat)
  {
    && (forall k :: k in t' <==> k in want && accepts(want[k].schedule))
    && (forall k | k in t' ::
          t'[k].job.schedule == want[k].schedule && t'[k].job.fingerprint == want[k].fingerprint)
    && (forall k | k in t' ::
          if k in t && t[k].job.schedule == want[k].schedule && t[k].job.fingerprint == want[k].fingerprint
          then t'[k] == t[k]
          else t'[k].job == want[k] && t'[k].id >= firstNew)
    && DistinctIds(t')
  }

  // ------------------------------------------------- index and cron table

  /** The index lists exactly the live jobs, with their ids, schedules and fingerprints. */
  ghost predicate Indexed<R>(entries: map<string, Entry>, live: Table<R>) {
    && entries.Keys == live.Keys
    && forall k | k in live :: live[k].job.key == k &&
                               entries[k] == Entry(live[k].id, live[k].job.schedule, live[k].job.fingerprint)
  }

  /** Every live job is registered under its id with its own schedule and closure. */
  ghost predicate Serves<R>(accepts: string -> bool, cron: map<nat, Registered<R>>, l: Live<R>) {
    && accepts(l.job.schedule)
    && l.id in cron && cron[l.id] == Registered(l.job.schedule, l.job.run)
  }

  ghost predicate AllServed<R>(accepts: string -> bool, cron: map<nat, Registered<R>>, live: Table<R>) {
    forall k | k in live :: Serves(accepts, cron, live[k])
  }

  ghost predicate HasId<R>(live: Table<R>, id: nat) {
    exists k :: k in live && live[k].id == id
  }

  /** Nothing else is registered. */
  ghost predicate NoStrays<R>(cron: map<nat, Registered<R>>, live: Table<R>, nextId: nat) {
    forall id | id in cron :: id < nextId && HasId(live, id)
  }

  /** The cron table and the index are in bijection, and both agree with the live jobs. */
  ghost predicate Agree<R>(accepts: string -> bool, entries: map<string, Entry>, cron: map<nat, Registered<R>>,
                           nextId: nat, live: Table<R>)
  {
    && Indexed(entries, live) && AllServed(accepts, cron, live) && NoStrays(cron, live, nextId) && DistinctIds(live)
  }

  lemma RemoveAgrees<R>(accepts: string -> bool, entries: map<string, Entry>, cron: map<nat, Registered<R>>,
                        nextId: nat, live: Table<R>, key: string)
    requires Agree(accepts, entries, cron, nextId, live) && key in live
    ensures Agree(accepts, entries - {key}, cron - {live[key].id}, nextId, live - {key})
  {
    var live', cron' := live - {key}, cron - {live[key].id};
    assert AllServed(accepts, cron', live') by {
      forall k | k in live' ensures Serves(accepts, cron', live'[k]) {
        assert Serves(accepts, cron, live[k]);
      }
    }
    forall id | id in cron' ensures id < nextId && HasId(live', id) {
      assert HasId(live, id);
      var k :| k in live && live[k].id == id;
      assert k in live';
    }
  }

  lemma AddAgrees<R>(accepts: string -> bool, entries: map<string, Entry>, cron: map<nat, Registered<R>>,
                     nextId: nat, live: Table<R>, j: Job<R>)
    requires Agree(accepts, entries, cron, nextId, live) && j.key !in live && accepts(j.schedule)
    ensures Agree(accepts, entries[j.key := Entry(nextId, j.schedule, j.fingerprint)],
                  cron[nextId := Registered(j.schedule, j.run)], nextId + 1, live[j.key := Live(nextId, j)])
  {
    var live', cron' := live[j.key := Live(nextId, j)], cron[nextId := Registered(j.schedule, j.run)];
    assert forall k | k in live :: live[k].id < nextId by {
      forall k | k in live ensures live[k].id < nextId {
        assert Serves(accepts, cron, live[k]);
      }
    }
    forall id | id in cron' ensures id < nextId + 1 && HasId(live', id) {
      if id == nextId {
        assert j.key in live' && live'[j.key].id == id;
      } else {
        assert HasId(live, id);
        var k :| k in live && live[k].id == id;
        assert k in live' && live'[k].id == id;
      }
    }
  }

  lemma EntryOf<R>(accepts: string -> bool, entries: map<string, Entry>, cron: map<nat, Registered<R>>,
                   nextId: nat, live: Table<R>)
    requires Agree(accepts, entries, cron, nextId, live)
    ensures entries.Keys == live.Keys
    ensures forall k | k in live :: entries[k] == Entry(live[k].id, live[k].job.schedule, live[k].job.fingerprint)
  {
  }

  lemma AgreeFacts<R>(accepts: string -> bool, entries: map<string, Entry>, cron: map<nat, Registered<R>>,
                      nextId: nat, live: Table<R>)
    requires Agree(accepts, entries, cron, nextId, live)
    ensures DistinctIds(live) && forall k | k in live :: accepts(live[k].job.schedule)
  {
    assert forall k | k in live :: Serves(accepts, cron, live[k]);
  }

  /** The live jobs determine the index and the cron table. */
  lemma AgreeDetermines<R>(accepts: string -> bool, e: map<string, Entry>, c: map<nat, Registered<R>>, n: nat,
                           e': map<string, Entry>, c': map<nat, Registered<R>>, n': nat, live: Table<R>)
    requires Agree(accepts, e, c, n, live) && Agree(accepts, e', c', n', live)
    ensures e == e' && c == c'
  {
    assert c.Keys == c'.Keys;
  }

  class Scheduler<R> {
    const accepts: string -> bool
    var entries: map<string, Entry>
    var cron: map<nat, Registered<R>>
    var nextId: nat
    ghost var live: Table<R>

    ghost predicate Valid()
      reads this
    {
      Agree(accepts, entries, cron, nextId, live)
    }

    constructor (accepts: string -> bool)
      ensures Valid() && this.accepts == accepts && live == map[]
    {
      this.accepts := accepts;
      entries, cron, nextId, live := map[], map[], 1, map[];
    }

    method Remove(key: string)
      requires Valid() && key in entries
      modifies this
      ensures Valid() && nextId == old(nextId)
      ensures live == old(live) - {key}
    {
      hide Agree;
      EntryOf(accepts, entries, cron, nextId, live);
      RemoveAgrees(accepts, entries, cron, nextId, live, key);
      cron := cron - {entries[key].id};
      entries := entries - {key};
      live := live - {key};
    }

    method Add(j: Job<R>)
      requires Valid() && j.key !in entries
      modifies this
      ensures Valid() && nextId >= old(nextId)
      ensures live == if accepts(j.schedule) then old(live)[j.key := Live(old(nextId), j)] else old(live)
    {
      hide Agree;
      EntryOf(accepts, entries, cron, nextId, live);
      if accepts(j.schedule) {
        AddAgrees(accepts, entries, cron, nextId, live, j);
        var id := nextId;
        nextId := nextId + 1;
        cron := cron[id := Registered(j.schedule, j.run)];
        entries := entries[j.key := Entry(id, j.schedule, j.fingerprint)];
        live := live[j.key := Live(id, j)];
      }
    }

    method Want(desired: seq<Job<R>>) returns (want: map<string, Job<R>>)
      ensures want == Last(desired)
      ensures forall k | k in want :: want[k].key == k
    {
      want := map[];
      for i := 0 to |desired|
        invariant want == Last(desired[..i])
        invariant forall k | k in want :: want[k].key == k
      {
        assert desired[..i + 1][..i] == desired[..i];
        want := want[desired[i].key := desired[i]];
      }
      assert desired[..|desired|] == desired;
    }

    /** The first pass: entries that are gone or changed. */
    method Drop(want: map<string, Job<R>>)
      requires Valid()
      modifies this
      ensures Valid() && nextId == old(nextId)
      ensures forall k :: k in live <==>
                k in old(live) && k in want && old(live)[k].job.schedule == want[k].schedule &&
                old(live)[k].job.fingerprint == want[k].fingerprint
      ensures forall k | k in live :: live[k] == old(live)[k]
    {
      hide Agree;
      EntryOf(accepts, entries, cron, nextId, live);
      var todo := entries.Keys;
      while todo != {}
        invariant Valid() && nextId == old(nextId)
        invariant todo <= live.Keys <= old(live).Keys
        invariant forall k | k in live :: live[k] == old(live)[k]
        invariant forall k | k in old(live) && k !in todo :: k in live <==>
                    k in want && old(live)[k].job.schedule == want[k].schedule &&
                    old(live)[k].job.fingerprint == want[k].fingerprint
        decreases todo
      {
        var key :| key in todo;
        todo := todo - {key};
        EntryOf(accepts, entries, cron, nextId, live);
        var e := entries[key];
        if key !in want || want[key].schedule != e.schedule || want[key].fingerprint != e.fingerprint {
          Remove(key);
        }
      }
    }

    /** The second pass: wanted jobs without an entry. */
    method Fill(want: map<string, Job<R>>)
      requires Valid() && forall k | k in want :: want[k].key == k
      requires forall k | k in live :: k in want
      modifies this
      ensures Valid() && nextId >= old(nextId)
      ensures forall k :: k in live <==> k in want && (k in old(live) || accepts(want[k].schedule))
      ensures forall k | k in live ::
                if k in old(live) then live[k] == old(live)[k] else live[k].job == want[k] && live[k].id >= old(nextId)
    {
      hide Agree;
      EntryOf(accepts, entries, cron, nextId, live);
      var todo := want.Keys;
      while todo != {}
        invariant Valid() && nextId >= old(nextId)
        invariant todo <= want.Keys
        invariant old(live).Keys <= live.Keys
        invariant forall k | k !in todo :: k in live <==> k in want && (k in old(live) || accepts(want[k].schedule))
        invariant forall k | k in todo :: k in live <==> k in old(live)
        invariant forall k | k in live ::
                    if k in old(live) then live[k] == old(live)[k]
                    else live[k].job == want[k] && live[k].id >= old(nextId)
        decreases todo
      {
        var key :| key in todo;
        todo := todo - {key};
        EntryOf(accepts, entries, cron, nextId, live);
        if key in entries {
          continue;
        }
        Add(want[key]);
      }
    }

    method Sync(desired: seq<Job<R>>)
      requires Valid()
      modifies this
      ensures Valid()
      ensures Synced(accepts, old(live), Last(desired), live, old(nextId))
    {
      hide Agree, Last, DistinctIds;
      AgreeFacts(accepts, entries, cron, nextId, live);
      var want := Want(desired);
      Drop(want);
      Fill(want);
      AgreeFacts(accepts, entries, cron, nextId, live);
    }

    /** A repeated Sync leaves the cron table and the index exactly as they are. */
    method SyncTwice(desired: seq<Job<R>>) returns (entries': map<string, Entry>, cron': map<nat, Registered<R>>)
      requires Valid()
      modifies this
      ensures Valid() && Synced(accepts, old(live), Last(desired), live, old(nextId))
      ensures entries == entries' && cron == cron'
    {
      hide Agree, Last, Synced;
      Sync(desired);
      entries', cron' := entries, cron;
      ghost var t, n := live, nextId;
      Sync(desired);
      AgainIsNothing(accepts, old(live), Last(desired), t, old(nextId), live, n);
      AgreeDetermines(accepts, entries', cron', n, entries, cron, nextId, live);
    }

    method Len() returns (n: nat)
      requires Valid()
      ensures n == |live|
    {
      n := |entries|;
      assert |entries.Keys| == |entries| && |live.Keys| == |live|;
    }
  }

  lemma AgainIsNothing<R>(accepts: string -> bool, t: Table<R>, want: map<string, Job<R>>, t': Table<R>, n: nat,
                          t'': Table<R>, n': nat)
    requires Synced(accepts, t, want, t', n) && Synced(accepts, t', want, t'', n')
    ensures t'' == t'
  {
    assert t''.Keys == t'.Keys;
  }

  // ----------------------------------------------------- sequences of Syncs

  /** tables[i + 1] is what a Sync with lists[i] makes of tables[i]. */
  ghost predicate History<R>(accepts: string -> bool, lists: seq<seq<Job<R>>>, tables: seq<Table<R>>, ids: seq<nat>) {
    && |tables| == |ids| == |lists| + 1 && tables[0] == map[]
    && forall i | 0 <= i < |lists| :: Synced(accepts, tables[i], Last(lists[i]), tables[i + 1], ids[i])
  }

  /** After any Syncs the schedule is that of the last list alone: its last job per key, if
      the schedule is valid, with the current schedule and fingerprint. */
  lemma OnlyTheLastListCounts<R>(accepts: string -> bool, lists: seq<seq<Job<R>>>, tables: seq<Table<R>>, ids: seq<nat>)
    requires History(accepts, lists, tables, ids) && lists != []
    ensures var want, t := Last(lists[|lists| - 1]), tables[|lists|];
            && DistinctIds(t)
            && (forall k :: k in t <==> k in want && accepts(want[k].schedule))
            && forall k | k in t ::
                 t[k].job.schedule == want[k].schedule && t[k].job.fingerprint == want[k].fingerprint
  {
    var n := |lists| - 1;
    assert Synced(accepts, tables[n], Last(lists[n]), tables[n + 1], ids[n]);
  }

  /** The registration of k was made by the i-th Sync from the job it wanted, and every Sync
      since wanted the same schedule and fingerprint and left it alone. */
  ghost predicate RegisteredAt<R>(lists: seq<seq<Job<R>>>, tables: seq<Table<R>>, k: string, n: nat, i: nat)
    requires |tables| == |lists| + 1 && n <= |lists| && k in tables[n]
  {
    && i < n
    && k in Last(lists[i]) && tables[n][k].job == Last(lists[i])[k]
    && forall j | i <= j < n :: Unmoved(lists, tables, k, j, tables[n][k])
  }

  ghost predicate Unmoved<R>(lists: seq<seq<Job<R>>>, tables: seq<Table<R>>, k: string, j: nat, l: Live<R>)
    requires |tables| == |lists| + 1 && j < |lists|
  {
    && k in Last(lists[j]) && l.job.schedule == Last(lists[j])[k].schedule
    && l.job.fingerprint == Last(lists[j])[k].fingerprint
    && k in tables[j + 1] && tables[j + 1][k] == l
  }

  /** Every scheduled closure comes from a list in which its key had the schedule and the
      fingerprint it has now, and has not been registered again since. */
  lemma {:induction false} ClosuresAreCurrent<R>(accepts: string -> bool, lists: seq<seq<Job<R>>>,
                                                 tables: seq<Table<R>>, ids: seq<nat>, n: nat, k: string)
    returns (i: nat)
    requires History(accepts, lists, tables, ids) && n <= |lists| && k in tables[n]
    ensures RegisteredAt(lists, tables, k, n, i)
    decreases n
  {
    hide Last, DistinctIds;
    assert n > 0;
    assert Synced(accepts, tables[n - 1], Last(lists[n - 1]), tables[n], ids[n - 1]);
    var want := Last(lists[n - 1]);
    if k in tables[n - 1] && tables[n - 1][k] == tables[n][k] {
      i := ClosuresAreCurrent(accepts, lists, tables, ids, n - 1, k);
    } else {
      i := n - 1;
    }
    assert Unmoved(lists, tables, k, n - 1, tables[n][k]);
  }
}
