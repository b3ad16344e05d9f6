/** Optional values, and lists read as sets. */
module Lists {

  datatype Option<T> = None | Some(value: T)

  function AsSet<T>(xs: seq<T>): set<T> {
    set x | x in xs
  }

  ghost predicate Distinct<T>(xs: seq<T>) {
    forall i, j | 0 <= i < j < |xs| :: xs[i] != xs[j]
  }

  lemma AsSetSnoc<T>(xs: seq<T>, x: T)
    ensures AsSet(xs + [x]) == AsSet(xs) + {x}
    ensures Distinct(xs + [x]) <==> Distinct(xs) && x !in AsSet(xs)
  {
    var all := xs + [x];
    assert forall i | 0 <= i < |xs| :: all[i] == xs[i];
    assert all[|xs|] == x;
    if x in xs {
      var i :| 0 <= i < |xs| && xs[i] == x;
      assert all[i] == all[|xs|];
    }
  }

  /** A list has at most as many elements as places, and exactly as many if none repeats. */
  lemma {:induction false} SetSize<T>(xs: seq<T>)
    ensures |AsSet(xs)| <= |xs|
    ensures Distinct(xs) ==> |AsSet(xs)| == |xs|
    decreases |xs|
  {
    if xs != [] {
      hide AsSet, Distinct;
      var n := |xs| - 1;
      SetSize(xs[..n]);
      assert xs == xs[..n] + [xs[n]];
      AsSetSnoc(xs[..n], xs[n]);
    }
  }

  /** A list without repetitions, cut in two. */
  lemma DistinctParts<T>(xs: seq<T>, cut: nat)
    requires Distinct(xs) && cut <= |xs|
    ensures Distinct(xs[..cut]) && AsSet(xs[..cut]) !! AsSet(xs[cut..])
    ensures AsSet(xs) == AsSet(xs[..cut]) + AsSet(xs[cut..])
  {
    var a, b := xs[..cut], xs[cut..];
    assert xs == a + b;
    forall x | x in a ensures x !in b {
      var i :| 0 <= i < |a| && a[i] == x;
      forall j | 0 <= j < |b| ensures b[j] != x {
        assert xs[i] != xs[cut + j];
      }
    }
  }

  lemma DistinctConcat<T>(a: seq<T>, b: seq<T>)
    requires Distinct(a) && Distinct(b) && forall x | x in a :: x !in b
    ensures Distinct(a + b)
  {
    forall i, j | 0 <= i < j < |a + b| ensures (a + b)[i] != (a + b)[j] {
      if i < |a| <= j {
        assert (a + b)[i] in a && (a + b)[j] in b;
      }
    }
  }

  lemma {:induction false} SubsetSize<T>(a: set<T>, b: set<T>)
    requires a <= b
    ensures |a| <= |b|
    ensures |a| == |b| ==> a == b
    decreases |a|
  {
    if x :| x in a {
      SubsetSize(a - {x}, b - {x});
      assert a == (a - {x}) + {x} && b == (b - {x}) + {x};
    } else {
      assert |b| == 0 ==> b == {};
    }
  }
}
