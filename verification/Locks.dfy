/**
 The orchestrator's shared objects: the table of per-repository mutexes and the
 table of cold-stop counters, both filled on demand, and the counter itself.
 A blocking lock is modelled by one attempt that reports whether it got through;
 waiting for it is a matter of the transition system in module Orchestrator.
 */
module Locks {

  class Mutex {
    var locked: bool

    constructor ()
      ensures !locked
    {
      locked := false;
    }
  }

  /** keyedMutex: serialises operations that share a key. */
  class KeyedMutex {
    var m: map<string, Mutex>

    /** Different keys never share a mutex. */
    ghost predicate Valid()
      reads this
    {
      forall j, k | j in m && k in m && j != k :: m[j] != m[k]
    }

    ghost function Locked(): set<string>
      reads this, m.Values
    {
      set k | k in m && m[k].locked
    }

    constructor ()
      ensures Valid() && Locked() == {}
    {
      m := map[];
    }

    /** The lookup under the table's own mutex: the same key always yields the same mutex,
        and creating one locks and unlocks nothing. */
    method Entry(key: string) returns (mu: Mutex)
      requires Valid()
      modifies this
      ensures Valid()
      ensures key in m && m[key] == mu && m == old(m)[key := mu]
      ensures if key in old(m) then m == old(m) else fresh(mu) && !mu.locked
      ensures Locked() == old(Locked())
    {
      if key in m {
        mu := m[key];
      } else {
        mu := new Mutex();
        m := m[key := mu];
      }
    }

    /** One attempt at lock: it gets through exactly when no one holds the key, and it
        affects no other key. */
    method Lock(key: string) returns (acquired: bool)
      requires Valid()
      modifies this, m.Values
      ensures Valid() && m.Keys == old(m.Keys) + {key}
      ensures acquired <==> key !in old(Locked())
      ensures Locked() == old(Locked()) + {key}
    {
      var mu := Entry(key);
      acquired := !mu.locked;
      mu.locked := true;
    }

    /** The function lock returns. */
    method Unlock(key: string)
      requires Valid() && key in Locked()
      modifies m.Values
      ensures Valid() && m == old(m)
      ensures Locked() == old(Locked()) - {key}
    {
      m[key].locked := false;
    }
  }

  /** coldStop: counts the cold backups that hold one container. */
  class ColdStop {
    var refs: int
    ghost var holders: set<nat>   // runs between a successful hold and their release
    ghost var down: bool          // a stop succeeded that no start attempt has followed

    ghost predicate Valid()
      reads this
    {
      refs == |holders| && (down <==> holders != {})
    }

    constructor ()
      ensures Valid() && holders == {}
    {
      refs, holders, down := 0, {}, false;
    }

    /** The first holder runs stop. A failed stop is not counted and changes nothing, so
        the next holder tries again. */
    method Hold(ghost run: nat, stopOk: bool) returns (called: bool, err: bool)
      requires Valid() && run !in holders
      modifies this
      ensures Valid()
      ensures called <==> old(holders) == {}
      ensures err <==> called && !stopOk
      ensures if err then refs == old(refs) && holders == old(holders) && down == old(down)
              else holders == old(holders) + {run} && down
    {
      called, err := refs == 0, false;
      if called {
        if !stopOk {
          err := true;
          return;
        }
        down := true;
      }
      refs, holders := refs + 1, holders + {run};
    }

    /** The last holder runs start, whether or not that works. */
    method Release(ghost run: nat) returns (called: bool)
      requires Valid() && run in holders
      modifies this
      ensures Valid() && holders == old(holders) - {run}
      ensures called <==> holders == {}
      ensures down <==> !called
    {
      refs, holders := refs - 1, holders - {run};
      called := refs == 0;
      if called {
        down := false;
      }
    }
  }

  /** coldStops: one counter per container. */
  class ColdStops {
    var m: map<string, ColdStop>

    ghost predicate Valid()
      reads this, m.Values
    {
      && (forall k | k in m :: m[k].Valid())
      && (forall j, k | j in m && k in m && j != k :: m[j] != m[k])
    }

    constructor ()
      ensures Valid() && m == map[]
    {
      m := map[];
    }

    /** Runs of the same container get the same counter; a new one starts with no holder. */
    method Get(container: string) returns (cs: ColdStop)
      requires Valid()
      modifies this
      ensures Valid() && container in m && m == old(m)[container := cs]
      ensures if container in old(m) then m == old(m) else fresh(cs) && cs.holders == {}
    {
      if container in m {
        cs := m[container];
      } else {
        cs := new ColdStop();
        m := m[container := cs];
      }
    }
  }
}
