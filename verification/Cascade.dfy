/** Linked invalidation: registering clear references and deleting the groups they reach. */
module Cascade {
  import opened Texts
  import opened Scripts

  type ClearMap = map<Text, set<Text>>

  /** `register_clear_ref(source, also)` */
  datatype Registration = Registration(source: Text, also: seq<Text>)

  function Refs(m: ClearMap, group: Text): set<Text> {
    if group in m then m[group] else {}
  }

  /** The groups an invalidation of `group` deletes. */
  function Targets(m: ClearMap, group: Text): set<Text> { {group} + Refs(m, group) }

  function Registered(m: ClearMap, reg: Registration): ClearMap {
    m[reg.source := Refs(m, reg.source) + set g | g in reg.also]
  }

  function AllRegistered(m: ClearMap, regs: seq<Registration>): ClearMap
    decreases |regs|
  {
    if regs == [] then m else AllRegistered(Registered(m, regs[0]), regs[1..])
  }

  /** `target` was named for `source` in some registration. */
  ghost predicate Named(regs: seq<Registration>, source: Text, target: Text) {
    exists reg <- regs :: reg.source == source && target in reg.also
  }

  lemma {:induction false} RefsExact(m: ClearMap, regs: seq<Registration>, source: Text, target: Text)
    ensures target in Refs(AllRegistered(m, regs), source) <==> target in Refs(m, source) || Named(regs, source, target)
    decreases |regs|
  {
    if regs != [] {
      RefsExact(Registered(m, regs[0]), regs[1..], source, target);
      assert forall reg :: reg in regs <==> reg == regs[0] || reg in regs[1..];
    }
  }

  /** After any registrations, invalidating a group reaches itself and exactly the groups ever named
      for it; what those name in turn does not count. */
  lemma CascadeExact(regs: seq<Registration>, group: Text, target: Text)
    ensures target in Targets(AllRegistered(map[], regs), group) <==> target == group || Named(regs, group, target)
  {
    RefsExact(map[], regs, group, target);
  }

  /** Order and repetition of registrations do not matter. */
  lemma CascadeOrderFree(regs: seq<Registration>, regs': seq<Registration>, group: Text)
    requires forall target :: Named(regs, group, target) <==> Named(regs', group, target)
    ensures Targets(AllRegistered(map[], regs), group) == Targets(AllRegistered(map[], regs'), group)
  {
    forall target
      ensures target in Targets(AllRegistered(map[], regs), group)
         <==> target in Targets(AllRegistered(map[], regs'), group)
    {
      CascadeExact(regs, group, target);
      CascadeExact(regs', group, target);
    }
  }

  /** `set.into_iter().collect()` */
  method Collect(all: set<Text>) returns (list: seq<Text>)
    ensures (set g | g in list) == all
    ensures forall i, j :: 0 <= i < j < |list| ==> list[i] != list[j]
  {
    list := [];
    var left := all;
    while left != {}
      invariant left <= all
      invariant forall g :: g in list <==> g in all && g !in left
      invariant forall i, j :: 0 <= i < j < |list| ==> list[i] != list[j]
      decreases |left|
    {
      var g :| g in left;
      assert g !in list;
      list := list + [g];
      left := left - {g};
    }
  }

  class Groups {
    var clearMap: ClearMap
    const redis: Redis

    constructor (redis: Redis)
      ensures clearMap == map[] && this.redis == redis
    {
      clearMap := map[];
      this.redis := redis;
    }

    /** `register_clear_ref` */
    method RegisterClearRef(source: Text, also: seq<Text>)
      modifies this
      ensures clearMap == Registered(old(clearMap), Registration(source, also))
    {
      var refs := if source in clearMap then clearMap[source] else {};
      for i := 0 to |also|
        invariant refs == Refs(old(clearMap), source) + set g | g in also[..i]
      {
        refs := refs + {also[i]};
      }
      assert also[..|also|] == also;
      clearMap := clearMap[source := refs];
    }

    /** `cascade_targets`: the target set as a list, each group once. */
    method CascadeTargets(group: Text) returns (targets: seq<Text>)
      ensures (set g | g in targets) == Targets(clearMap, group)
      ensures forall i, j :: 0 <= i < j < |targets| ==> targets[i] != targets[j]
    {
      var all := {group};
      if group in clearMap {
        var deps := clearMap[group];
        while deps != {}
          invariant deps <= clearMap[group]
          invariant all == {group} + (clearMap[group] - deps)
          decreases |deps|
        {
          var d :| d in deps;
          all := all + {d};
          deps := deps - {d};
        }
      }
      targets := Collect(all);
    }

    /** `invalidate_group`: one DEL with all targets; every other key keeps its value. */
    method InvalidateGroup(group: Text)
      modifies redis
      ensures redis.keys == old(redis.keys) - Targets(clearMap, group)
      ensures redis.now == old(redis.now)
    {
      var targets := CascadeTargets(group);
      redis.keys := redis.keys - (set g | g in targets);
    }
  }
}
