/** The reference-counted table of per-key locks behind `FlightGuard`. */
module Flights {
  /** The table and, for each lock allocation, its strong count. */
  datatype Arena<K, L> = Arena(locks: map<K, L>, strong: map<L, nat>)

  function Count<K, L>(a: Arena<K, L>, lock: L): nat {
    if lock in a.strong then a.strong[lock] else 0
  }

  /** The lock `entry(key).or_insert_with(..)` yields; `spare` is the allocation it would make. */
  function LockFor<K, L>(a: Arena<K, L>, key: K, spare: L): L {
    if key in a.locks then a.locks[key] else spare
  }

  /** `FlightGuard::enter`: insert if absent (the table's own reference), then clone. */
  function Enter<K, L>(a: Arena<K, L>, key: K, spare: L): Arena<K, L> {
    if key in a.locks then a.(strong := a.strong[a.locks[key] := Count(a, a.locks[key]) + 1])
    else Arena(a.locks[key := spare], a.strong[spare := 2])
  }

  /** `drop`: give the reference back and, in the same step, remove the item if it was the last. */
  function Leave<K, L>(a: Arena<K, L>, key: K, lock: L): Arena<K, L> {
    var left := if Count(a, lock) > 0 then Count(a, lock) - 1 else 0;
    if key in a.locks && a.locks[key] == lock && left == 1
    then Arena(a.locks - {key}, a.strong - {lock})
    else a.(strong := a.strong[lock := left])
  }
}
