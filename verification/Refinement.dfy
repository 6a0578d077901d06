/** The machine's atomic steps are what the objects and scripts do. */
module Refinement {
  import opened Texts
  import opened Protocol
  import Flights
  import SingleFlight
  import LockTable
  import Scripts
  import Cascade

  // ---- Store ----

  /** The keyspace holds exactly the fields the machine's store has, with their deadlines. */
  ghost predicate Holds(keys: map<Text, Scripts.Stored>, store: map<Entry, Cell>) {
    forall g, f :: Scripts.Get(keys, g, f) == FieldOf(store, Field(g, f))
  }

  function FieldOf(store: map<Entry, Cell>, e: Entry): Option<Scripts.FieldValue> {
    if e in store then Some(Scripts.FieldValue(store[e].payload, store[e].expires)) else None
  }

  /** The reply a write result amounts to. */
  function ReplyTo(result: Scripts.WriteResult): Reply {
    match result
    case Written => Acked
    case Denied => Rejected
    case WrongType => Rejected
    case Undone => Withdrawn
  }

  /** Running the write script for a request about to fill is the machine's write step, with the
      reply that fits the script's result. */
  method FillByScript(c: Config, redis: Scripts.Redis, server: Scripts.Server, s: State, r: nat)
    returns (reply: Reply)
    requires Scripts.Normal(redis.keys) && Holds(redis.keys, s.store) && redis.now == s.now
    requires Scripts.Dependable(server)
    requires r in s.reqs && s.reqs[r].entry.Field? && s.reqs[r].pc.Inside? && s.reqs[r].pc.stage.Fill?
    requires s.reqs[r].pc.stage.ttl.Some? && s.reqs[r].pc.stage.ttl.value > 0
    modifies redis`keys
    ensures Can(c, s, r, Write(reply))
    ensures Scripts.Normal(redis.keys) && Holds(redis.keys, Do(c, s, r, Write(reply)).store)
  {
    var e, stage := s.reqs[r].entry, s.reqs[r].pc.stage;
    var result := redis.WriteField(server, e.group, e.field, stage.payload, stage.ttl.value);
    reply := ReplyTo(result);
  }

  /** What HGET returns of a keyspace: the field's payload unless it has expired. */
  function HGet(keys: map<Text, Scripts.Stored>, now: nat, group: Text, field: Text): Option<Text> {
    match Scripts.Get(keys, group, field)
    case None => None
    case Some(v) => if Fresh(v.expires, now) then Some(v.payload) else None
  }

  /** The machine's lookup is HGET followed by decoding. */
  lemma LookupIsHGet(c: Config, keys: map<Text, Scripts.Stored>, s: State, group: Text, field: Text)
    requires Holds(keys, s.store)
    ensures match Lookup(c, s, Field(group, field))
            case Some((v, _)) =>
              HGet(keys, s.now, group, field).Some? && c.decode(HGet(keys, s.now, group, field).value) == Some(v)
            case None =>
              HGet(keys, s.now, group, field).Some? ==> c.decode(HGet(keys, s.now, group, field).value) == None
  {
  }

  /** Invalidating a group is the machine's invalidation of all fields of the groups it reaches. */
  method InvalidateByGroups(c: Config, groups: Cascade.Groups, group: Text, s: State) returns (gone: set<Entry>)
    requires Holds(groups.redis.keys, s.store)
    modifies groups.redis
    ensures gone == set e | e in s.store && e.Field? && e.group in Cascade.Targets(groups.clearMap, group)
    ensures Holds(groups.redis.keys, Apply(c, s, Invalidate(gone)).store)
  {
    var targets := Cascade.Targets(groups.clearMap, group);
    gone := set e | e in s.store && e.Field? && e.group in targets;
    ghost var before := groups.redis.keys;
    groups.InvalidateGroup(group);
    forall g, f ensures Scripts.Get(groups.redis.keys, g, f) == FieldOf(s.store - gone, Field(g, f)) {
      assert Scripts.Get(before, g, f) == FieldOf(s.store, Field(g, f));
    }
  }

  // ---- Lock table ----

  type Arena = Flights.Arena<Slot, LockId>

  /** An instance's table object agrees with the machine: the same keys, the same strong counts. */
  ghost predicate Mirrors(t: LockTable.Table, a: Arena, inst: nat)
    reads t, t.locks.Values
  {
    forall key ::
      && (key in t.locks <==> Slot(inst, key) in a.locks)
      && (key in t.locks ==> t.locks[key].strong == Flights.Count(a, a.locks[Slot(inst, key)]))
  }

  /** One reference more on `slot`, everything else as before. */
  ghost predicate Grown(a: Arena, a': Arena, slot: Slot) {
    && a'.locks.Keys == a.locks.Keys + {slot}
    && Flights.Count(a', a'.locks[slot]) == (if slot in a.locks then Flights.Count(a, a.locks[slot]) + 1 else 2)
    && (forall k <- a.locks :: k != slot ==> Flights.Count(a', a'.locks[k]) == Flights.Count(a, a.locks[k]))
  }

  /** One reference less on `slot`, and no item where only the table's own would remain. */
  ghost predicate Shrunk(a: Arena, a': Arena, slot: Slot) {
    && slot in a.locks && Flights.Count(a, a.locks[slot]) >= 2
    && a'.locks == (if Flights.Count(a, a.locks[slot]) == 2 then a.locks - {slot} else a.locks)
    && (slot in a'.locks ==> Flights.Count(a', a'.locks[slot]) == Flights.Count(a, a.locks[slot]) - 1)
    && (forall k <- a'.locks :: k != slot ==> Flights.Count(a', a'.locks[k]) == Flights.Count(a, a.locks[k]))
  }

  lemma RegisterGrows(c: Config, s: State, r: nat)
    requires SingleFlight.FlightInv(c, s) && Can(c, s, r, Register)
    ensures Grown(s.locks.arena, Do(c, s, r, Register).locks.arena, SlotOf(s.reqs[r]))
  {
  }

  lemma LeaveShrinks(c: Config, s: State, r: nat)
    requires SingleFlight.FlightInv(c, s) && Can(c, s, r, Leave)
    ensures Shrunk(s.locks.arena, Do(c, s, r, Leave).locks.arena, SlotOf(s.reqs[r]))
  {
  }

  method EnterMirrored(t: LockTable.Table, key: Text, inst: nat, ghost a: Arena, ghost a': Arena)
    returns (g: LockTable.FlightGuard)
    requires t.Valid() && Mirrors(t, a, inst) && Grown(a, a', Slot(inst, key))
    modifies t, t.locks.Values
    ensures t.Valid() && g.key == key && key in t.live && g.lock == t.locks[key] && Mirrors(t, a', inst)
  {
    g := t.Enter(key);
  }

  method DropMirrored(t: LockTable.Table, g: LockTable.FlightGuard, inst: nat, ghost a: Arena, ghost a': Arena)
    requires t.Valid() && Mirrors(t, a, inst) && Shrunk(a, a', Slot(inst, g.key))
    requires g.key in t.live && g.lock == t.locks[g.key]
    modifies t, t.locks.Values
    ensures t.Valid() && Mirrors(t, a', inst)
  {
    t.Drop(g);
  }

  /** `FlightGuard::enter` on the table object is the machine's registration. */
  method RegisterByTable(c: Config, t: LockTable.Table, s: State, r: nat) returns (g: LockTable.FlightGuard)
    requires t.Valid() && SingleFlight.FlightInv(c, s) && Can(c, s, r, Register)
    requires Mirrors(t, s.locks.arena, s.reqs[r].inst)
    modifies t, t.locks.Values
    ensures t.Valid() && g.key in t.live && g.lock == t.locks[g.key] && Slot(s.reqs[r].inst, g.key) == SlotOf(s.reqs[r])
    ensures Mirrors(t, Do(c, s, r, Register).locks.arena, s.reqs[r].inst)
  {
    RegisterGrows(c, s, r);
    g := EnterMirrored(t, SlotOf(s.reqs[r]).key, s.reqs[r].inst, s.locks.arena, Do(c, s, r, Register).locks.arena);
  }

  /** Dropping the guard is the machine's leaving. */
  method LeaveByTable(c: Config, t: LockTable.Table, s: State, r: nat, g: LockTable.FlightGuard)
    requires t.Valid() && SingleFlight.FlightInv(c, s) && Can(c, s, r, Leave)
    requires Mirrors(t, s.locks.arena, s.reqs[r].inst)
    requires Slot(s.reqs[r].inst, g.key) == SlotOf(s.reqs[r]) && g.key in t.live && g.lock == t.locks[g.key]
    modifies t, t.locks.Values
    ensures t.Valid() && Mirrors(t, Do(c, s, r, Leave).locks.arena, s.reqs[r].inst)
  {
    LeaveShrinks(c, s, r);
    DropMirrored(t, g, s.reqs[r].inst, s.locks.arena, Do(c, s, r, Leave).locks.arena);
  }
}
