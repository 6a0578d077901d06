/** The cross-node lock: `SET NX PX` to take it, compare-and-delete to give it back. */
module Leases {
  import opened Texts

  datatype Lease = Lease(token: nat, expires: nat)

  type Table = map<Text, Lease>

  const LOCK_TTL_MS: nat := 3000

  predicate Live(t: Table, now: nat, key: Text) {
    key in t && now < t[key].expires
  }

  /** `SET key token NX PX ttl`: takes the key only if no live lease is on it. */
  function TryAcquire(t: Table, now: nat, key: Text, token: nat): Table {
    if Live(t, now, key) then t else t[key := Lease(token, now + LOCK_TTL_MS)]
  }

  /** `UNLOCK_LUA`: deletes the key only if it still carries the caller's token. */
  function CompareAndDelete(t: Table, now: nat, key: Text, token: nat): Table {
    if Live(t, now, key) && t[key].token == token then t - {key} else t
  }

  /** What the script guards against: a release that does not look at the token. */
  function PlainDelete(t: Table, key: Text): Table {
    t - {key}
  }

  // ---- Runs of acquire, expire, re-acquire and late release ----

  datatype Op =
    | Acquire(key: Text, token: nat)
    | Release(key: Text, token: nat)
    | Pass(ms: nat)

  /** Any order of operations by any tokens; `plain` swaps the release for an unconditional one. */
  function Run(t: Table, now: nat, ops: seq<Op>, plain: bool): (Table, nat)
    decreases |ops|
  {
    if ops == [] then (t, now)
    else match ops[0]
      case Acquire(key, token) => Run(TryAcquire(t, now, key, token), now, ops[1..], plain)
      case Release(key, token) =>
        Run(if plain then PlainDelete(t, key) else CompareAndDelete(t, now, key, token), now, ops[1..], plain)
      case Pass(ms) => Run(t, now + ms, ops[1..], plain)
  }

  /** Only its own token or the clock ends a lease: whatever the others do, and however late they
      release, the entry stays put until it expires. */
  lemma {:induction false} LeaseSurvives(t: Table, now: nat, ops: seq<Op>, key: Text)
    requires Live(t, now, key)
    requires forall i :: 0 <= i < |ops| ==> ops[i] != Release(key, t[key].token)
    ensures var (t', now') := Run(t, now, ops, false);
            now' >= t[key].expires || (key in t' && t'[key] == t[key])
    decreases |ops|
  {
    var _ := RunClock(t, now, ops, false);
    if ops != [] {
      assert forall i :: 0 <= i < |ops[1..]| ==> ops[1..][i] == ops[i + 1];
      match ops[0]
      case Acquire(k, token) => LeaseSurvives(TryAcquire(t, now, k, token), now, ops[1..], key);
      case Release(k, token) => LeaseSurvives(CompareAndDelete(t, now, k, token), now, ops[1..], key);
      case Pass(ms) =>
        if now + ms < t[key].expires {
          LeaseSurvives(t, now + ms, ops[1..], key);
        } else {
          var _ := RunClock(t, now + ms, ops[1..], false);
        }
    }
  }

  lemma {:induction false} RunClock(t: Table, now: nat, ops: seq<Op>, plain: bool) returns (end: nat)
    ensures end == Run(t, now, ops, plain).1 >= now
    decreases |ops|
  {
    if ops == [] { return now; }
    match ops[0]
    case Acquire(key, token) => end := RunClock(TryAcquire(t, now, key, token), now, ops[1..], plain);
    case Release(key, token) =>
      var t' := if plain then PlainDelete(t, key) else CompareAndDelete(t, now, key, token);
      end := RunClock(t', now, ops[1..], plain);
    case Pass(ms) => end := RunClock(t, now + ms, ops[1..], plain);
  }

  /** With a plain delete the previous holder, releasing after its lease ran out, takes away the
      lease of the next holder and lets a third one in beside it. */
  lemma PlainDeleteBreaks(key: Text, a: nat, b: nat, c: nat)
    requires a != b && b != c
    ensures var ops := [Acquire(key, a), Pass(LOCK_TTL_MS), Acquire(key, b), Release(key, a), Acquire(key, c)];
            var (t, now) := Run(map[], 0, ops, true);
            var (t', now') := Run(map[], 0, ops, false);
            && now == now' == LOCK_TTL_MS
            && t == map[key := Lease(c, 2 * LOCK_TTL_MS)]
            && t' == map[key := Lease(b, 2 * LOCK_TTL_MS)]
  {
    var ops := [Acquire(key, a), Pass(LOCK_TTL_MS), Acquire(key, b), Release(key, a), Acquire(key, c)];
    var t1: Table := map[key := Lease(a, LOCK_TTL_MS)];
    var t2: Table := map[key := Lease(b, 2 * LOCK_TTL_MS)];
    var t3: Table := map[key := Lease(c, 2 * LOCK_TTL_MS)];
    forall plain ensures Run(map[], 0, ops, plain) == Run(t2, LOCK_TTL_MS, ops[3..], plain) {
      assert ops[1..][1..] == ops[2..] && ops[2..][1..] == ops[3..];
      assert Run(map[], 0, ops, plain) == Run(t1, 0, ops[1..], plain) == Run(t1, LOCK_TTL_MS, ops[2..], plain);
      assert t1[key := Lease(b, 2 * LOCK_TTL_MS)] == t2;
    }
    assert ops[3..][1..] == ops[4..] == [Acquire(key, c)];
    assert Run(t2, LOCK_TTL_MS, ops[3..], true) == Run(map[], LOCK_TTL_MS, ops[4..], true) by {
      assert t2 - {key} == map[];
    }
    assert Run(map[], LOCK_TTL_MS, ops[4..], true) == Run(t3, LOCK_TTL_MS, [], true) by {
      assert ops[4..][1..] == [];
    }
    assert Run(t2, LOCK_TTL_MS, ops[3..], false) == Run(t2, LOCK_TTL_MS, ops[4..], false)
        == Run(t2, LOCK_TTL_MS, [], false) by {
      assert ops[4..][1..] == [];
    }
  }
}
