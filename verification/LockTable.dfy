/** `FlightGuard` over the lock table, on objects: shared locks, reference counts, reclaim on drop. */
module LockTable {
  import opened Texts

  /** `Arc<Mutex<()>>`, reduced to the count that decides when the table item goes. */
  class SharedLock {
    ghost const home: Text
    var strong: nat

    constructor (ghost home: Text)
      ensures strong == 1 && this.home == home
    {
      strong := 1;
      this.home := home;
    }
  }

  /** One request's registration. It owns a reference to its lock until it is dropped. */
  datatype FlightGuard = FlightGuard(key: Text, lock: SharedLock)

  class Table {
    var locks: map<Text, SharedLock>
    ghost var live: multiset<Text> // keys of the guards not yet dropped

    ghost predicate Valid()
      reads this, locks.Values
    {
      && (forall k <- locks :: k in live)
      && (forall k <- live :: k in locks)
      && (forall k <- locks :: locks[k].home == k && locks[k].strong == 1 + live[k])
    }

    constructor ()
      ensures Valid() && locks == map[] && live == multiset{}
    {
      locks := map[];
      live := multiset{};
    }

    /** `FlightGuard::enter`. Registers before anything waits; all guards on `key` share one lock. */
    method Enter(key: Text) returns (g: FlightGuard)
      requires Valid()
      modifies this, locks.Values
      ensures Valid() && live == old(live) + multiset{key}
      ensures g.key == key && locks == old(locks)[key := g.lock]
      ensures if key in old(locks) then g.lock == old(locks[key]) else fresh(g.lock)
    {
      if key !in locks {
        var l := new SharedLock(key);
        locks := locks[key := l];
      }
      var lock := locks[key];
      lock.strong := lock.strong + 1;
      live := live + multiset{key};
      g := FlightGuard(key, lock);
    }

    /** `drop`. Only the last live guard on the key takes the table item with it. */
    method Drop(g: FlightGuard)
      requires Valid() && g.key in live && g.lock == locks[g.key]
      modifies this, locks.Values
      ensures Valid() && live == old(live) - multiset{g.key}
      ensures locks == if g.key in live then old(locks) else old(locks) - {g.key}
    {
      live := live - multiset{g.key};
      var current := locks[g.key];
      var same := current == g.lock;
      g.lock.strong := g.lock.strong - 1;
      if same && current.strong == 1 {
        locks := locks - {g.key};
      }
    }
  }
}
