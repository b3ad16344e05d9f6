/** groupByPool: snapshot names split by pool, because one zfs command covers one pool. */
module ZfsPools {
  import opened ZfsNames

  /** The pool of a `<dataset>@<snap>` name: the dataset's first component. */
  function PoolOf(snap: string): string {
    CutBefore(CutBefore(snap, '@'), '/')
  }

  /** A snapshot of a pool's root dataset and one of a dataset below it. */
  lemma PoolSpelled(pool: string, below: string, suffix: string)
    requires '/' !in pool && '@' !in pool && '@' !in below
    ensures PoolOf(pool + "@" + suffix) == pool
    ensures PoolOf(pool + "/" + below + "@" + suffix) == pool
  {
    CutConcat(pool, '@', suffix);
    CutConcat(pool, '/', below);
    CutConcat(pool + "/" + below, '@', suffix);
  }

  /** The pools of a list of names, in the order they are first seen. */
  function Pools(snaps: seq<string>): seq<string> {
    if snaps == [] then []
    else
      var n := |snaps| - 1;
      var seen, p := Pools(snaps[..n]), PoolOf(snaps[n]);
      if p in seen then seen else seen + [p]
  }

  /** The names of one pool, in their order. */
  function InPool(snaps: seq<string>, pool: string): seq<string> {
    if snaps == [] then []
    else
      var n := |snaps| - 1;
      InPool(snaps[..n], pool) + (if PoolOf(snaps[n]) == pool then [snaps[n]] else [])
  }

  function Flatten(groups: seq<seq<string>>): seq<string> {
    if groups == [] then [] else Flatten(groups[..|groups| - 1]) + groups[|groups| - 1]
  }

  method GroupByPool(snaps: seq<string>) returns (out: seq<seq<string>>)
    ensures |out| == |Pools(snaps)|
    ensures forall i | 0 <= i < |out| :: out[i] == InPool(snaps, Pools(snaps)[i])
  {
    var order: seq<string> := [];
    var groups: map<string, seq<string>> := map[];
    for k := 0 to |snaps|
      invariant order == Pools(snaps[..k])
      invariant forall p :: p in groups <==> p in order
      invariant forall p | p in groups :: groups[p] == InPool(snaps[..k], p)
    {
      hide PoolOf;
      assert snaps[..k + 1][..k] == snaps[..k];
      var pool := PoolOf(snaps[k]);
      if pool !in groups {
        UnseenPoolIsEmpty(snaps[..k], pool);
        order := order + [pool];
        groups := groups[pool := []];
      }
      groups := groups[pool := groups[pool] + [snaps[k]]];
    }
    assert snaps[..|snaps|] == snaps;
    out := [];
    for i := 0 to |order|
      invariant |out| == i
      invariant forall j | 0 <= j < i :: out[j] == InPool(snaps, order[j])
    {
      out := out + [groups[order[i]]];
    }
  }

  lemma {:induction false} UnseenPoolIsEmpty(snaps: seq<string>, pool: string)
    requires pool !in Pools(snaps)
    ensures InPool(snaps, pool) == []
    decreases |snaps|
  {
    hide PoolOf;
    if snaps != [] {
      var n := |snaps| - 1;
      assert Pools(snaps) == Pools(snaps[..n]) || Pools(snaps) == Pools(snaps[..n]) + [PoolOf(snaps[n])];
      assert PoolOf(snaps[n]) in Pools(snaps);
      UnseenPoolIsEmpty(snaps[..n], pool);
    }
  }

  lemma {:induction false} PoolsDistinct(snaps: seq<string>)
    ensures forall i, j | 0 <= i < j < |Pools(snaps)| :: Pools(snaps)[i] != Pools(snaps)[j]
    decreases |snaps|
  {
    hide PoolOf;
    if snaps != [] {
      PoolsDistinct(snaps[..|snaps| - 1]);
    }
  }

  lemma {:induction false} PoolNotEmpty(snaps: seq<string>, pool: string)
    requires pool in Pools(snaps)
    ensures InPool(snaps, pool) != []
    decreases |snaps|
  {
    hide PoolOf;
    if snaps != [] {
      var n := |snaps| - 1;
      if pool in Pools(snaps[..n]) {
        PoolNotEmpty(snaps[..n], pool);
      }
    }
  }

  /** Every group holds names of its own pool only. */
  lemma {:induction false} InPoolIsPure(snaps: seq<string>, pool: string)
    ensures forall x | x in InPool(snaps, pool) :: x in snaps && PoolOf(x) == pool
    decreases |snaps|
  {
    hide PoolOf;
    if snaps != [] {
      var n := |snaps| - 1;
      InPoolIsPure(snaps[..n], pool);
      assert snaps == snaps[..n] + [snaps[n]];
    }
  }

  /** All names of the given pools, counted. */
  function Bag(snaps: seq<string>, pools: seq<string>): multiset<string> {
    if pools == [] then multiset{}
    else Bag(snaps, pools[..|pools| - 1]) + multiset(InPool(snaps, pools[|pools| - 1]))
  }

  lemma {:induction false} BagOfNothing(pools: seq<string>)
    ensures Bag([], pools) == multiset{}
    decreases |pools|
  {
    if pools != [] {
      BagOfNothing(pools[..|pools| - 1]);
    }
  }

  lemma InPoolSnoc(snaps: seq<string>, x: string, pool: string)
    ensures multiset(InPool(snaps + [x], pool)) ==
            multiset(InPool(snaps, pool)) + (if PoolOf(x) == pool then multiset{x} else multiset{})
  {
    hide PoolOf;
    assert (snaps + [x])[..|snaps|] == snaps;
  }

  /** Adding one name adds it to the bag once, if its pool is counted. */
  lemma {:induction false} BagSnoc(snaps: seq<string>, x: string, pools: seq<string>)
    requires forall i, j | 0 <= i < j < |pools| :: pools[i] != pools[j]
    ensures Bag(snaps + [x], pools) == Bag(snaps, pools) + (if PoolOf(x) in pools then multiset{x} else multiset{})
    decreases |pools|
  {
    hide PoolOf, InPool;
    if pools != [] {
      var n := |pools| - 1;
      BagSnoc(snaps, x, pools[..n]);
      InPoolSnoc(snaps, x, pools[n]);
      assert pools == pools[..n] + [pools[n]];
    }
  }

  lemma {:induction false} BagOfPools(snaps: seq<string>)
    ensures Bag(snaps, Pools(snaps)) == multiset(snaps)
    decreases |snaps|
  {
    hide PoolOf, InPool;
    if snaps == [] {
      BagOfNothing(Pools(snaps));
    } else {
      var n := |snaps| - 1;
      var init, x := snaps[..n], snaps[n];
      assert snaps == init + [x];
      BagOfPools(init);
      PoolsDistinct(snaps);
      BagSnoc(init, x, Pools(snaps));
      if PoolOf(x) !in Pools(init) {
        UnseenPoolIsEmpty(init, PoolOf(x));
        assert Pools(snaps)[..|Pools(snaps)| - 1] == Pools(init);
      }
    }
  }

  lemma {:induction false} FlattenIsBag(snaps: seq<string>, pools: seq<string>, out: seq<seq<string>>)
    requires |out| == |pools| && forall i | 0 <= i < |out| :: out[i] == InPool(snaps, pools[i])
    ensures multiset(Flatten(out)) == Bag(snaps, pools)
    decreases |out|
  {
    hide InPool;
    if out != [] {
      var n := |out| - 1;
      FlattenIsBag(snaps, pools[..n], out[..n]);
    }
  }

  /** What GroupByPool returns is a partition of its input: the groups, one after another,
      hold every name as often as the input does, each group is the sublist of one pool,
      and no two groups share a pool. */
  lemma GroupsPartition(snaps: seq<string>, out: seq<seq<string>>)
    requires |out| == |Pools(snaps)| && forall i | 0 <= i < |out| :: out[i] == InPool(snaps, Pools(snaps)[i])
    ensures multiset(Flatten(out)) == multiset(snaps)
    ensures forall i | 0 <= i < |out| :: out[i] != [] && forall x | x in out[i] :: PoolOf(x) == Pools(snaps)[i]
    ensures forall i, j | 0 <= i < j < |out| :: Pools(snaps)[i] != Pools(snaps)[j]
  {
    hide PoolOf, InPool, Pools;
    FlattenIsBag(snaps, Pools(snaps), out);
    BagOfPools(snaps);
    PoolsDistinct(snaps);
    forall i | 0 <= i < |out| ensures out[i] != [] && forall x | x in out[i] :: PoolOf(x) == Pools(snaps)[i] {
      InPoolIsPure(snaps, Pools(snaps)[i]);
      PoolNotEmpty(snaps, Pools(snaps)[i]);
    }
  }
}
