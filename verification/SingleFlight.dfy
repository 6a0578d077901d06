/** The lock table in every reachable state, and mutual exclusion per instance and entry. */
module SingleFlight {
  import opened Protocol
  import Keys
  import Flights

  ghost function Registrants(s: State, k: Slot): set<nat> {
    set r | r in s.reqs && Registered(s.reqs[r].pc) && SlotOf(s.reqs[r]) == k
  }

  /** Everybody registered on a key holds a reference to the lock the table has for it. */
  ghost predicate Linked(s: State) {
    var locks := s.locks.arena.locks;
    forall r <- s.reqs :: Registered(s.reqs[r].pc) ==>
      SlotOf(s.reqs[r]) in locks && locks[SlotOf(s.reqs[r])] == s.reqs[r].pc.lock
  }

  /** Every lock in the table was allocated for its key, and serials are never reused. */
  ghost predicate Tagged(s: State) {
    var a := s.locks.arena;
    && (forall k <- a.locks :: a.locks[k].home == k && a.locks[k] in a.strong)
    && (forall l <- a.strong :: l.serial < s.locks.serial)
  }

  /** The table has an item only where somebody is registered, and counts the references exactly. */
  ghost predicate Counted(s: State)
    requires Tagged(s)
  {
    forall k <- s.locks.arena.locks ::
      2 <= s.locks.arena.strong[s.locks.arena.locks[k]] == 1 + |Registrants(s, k)|
  }

  /** The mutex of a lock is owned exactly by the request standing inside it. */
  ghost predicate Owning(s: State) {
    && (forall r <- s.reqs :: s.reqs[r].pc.Inside? ==>
          s.reqs[r].pc.lock in s.locks.owner && s.locks.owner[s.reqs[r].pc.lock] == r)
    && (forall l <- s.locks.owner ::
          s.locks.owner[l] in s.reqs && s.reqs[s.locks.owner[l]].pc.Inside? && s.reqs[s.locks.owner[l]].pc.lock == l)
  }

  ghost predicate Kinds(c: Config, s: State) {
    forall r <- s.reqs :: c.settings(s.reqs[r].inst).grouped <==> s.reqs[r].entry.Field?
  }

  ghost predicate FlightInv(c: Config, s: State) {
    Linked(s) && Tagged(s) && Counted(s) && Owning(s) && Kinds(c, s)
  }

  // ---- Preservation ----

  /** The position in the lock protocol: which lock, and whether its mutex is held. */
  predicate SameShape(p: Pc, q: Pc) {
    && Registered(p) == Registered(q)
    && p.Inside? == q.Inside?
    && (Registered(p) ==> p.lock == q.lock)
  }

  lemma SameRegistrants(s: State, s': State, r: nat, pc: Pc)
    requires r in s.reqs && Registered(s.reqs[r].pc) == Registered(pc)
    requires s'.reqs == s.reqs[r := s.reqs[r].(pc := pc)]
    ensures forall k :: Registrants(s', k) == Registrants(s, k)
  {
  }

  lemma MoveCounts(s: State, s': State, r: nat, pc: Pc)
    requires Tagged(s) && Counted(s) && r in s.reqs && Registered(s.reqs[r].pc) == Registered(pc)
    requires s'.locks.arena == s.locks.arena && s'.locks.serial == s.locks.serial
    requires s'.reqs == s.reqs[r := s.reqs[r].(pc := pc)]
    ensures Tagged(s') && Counted(s')
  {
    SameRegistrants(s, s', r, pc);
  }

  lemma MoveKeeps(c: Config, s: State, s': State, r: nat, pc: Pc)
    requires FlightInv(c, s) && r in s.reqs && SameShape(s.reqs[r].pc, pc)
    requires s'.locks == s.locks && s'.reqs == s.reqs[r := s.reqs[r].(pc := pc)]
    ensures FlightInv(c, s')
  {
    MoveCounts(s, s', r, pc);
    MoveOwns(s, s', r, pc);
  }

  lemma MoveOwns(s: State, s': State, r: nat, pc: Pc)
    requires Owning(s) && r in s.reqs && SameShape(s.reqs[r].pc, pc)
    requires s'.locks == s.locks && s'.reqs == s.reqs[r := s.reqs[r].(pc := pc)]
    ensures Owning(s')
  {
  }

  lemma StayKeeps(c: Config, s: State, s': State)
    requires FlightInv(c, s) && s'.locks == s.locks && s'.reqs == s.reqs
    ensures FlightInv(c, s')
  {
  }

  lemma ArriveKeeps(c: Config, s: State, step: Step)
    requires FlightInv(c, s) && step.Arrive? && Enabled(c, s, step)
    ensures FlightInv(c, Apply(c, s, step))
  {
    forall k ensures Registrants(Apply(c, s, step), k) == Registrants(s, k) {}
  }

  lemma LockKeeps(c: Config, s: State, r: nat)
    requires FlightInv(c, s) && Can(c, s, r, Lock)
    ensures FlightInv(c, Do(c, s, r, Lock))
  {
    MoveCounts(s, Do(c, s, r, Lock), r, NextPc(c, s, r, Lock));
  }

  lemma ReleaseKeeps(c: Config, s: State, r: nat)
    requires FlightInv(c, s) && Can(c, s, r, Release)
    ensures FlightInv(c, Do(c, s, r, Release))
  {
    MoveCounts(s, Do(c, s, r, Release), r, NextPc(c, s, r, Release));
  }

  /** Registering and leaving change who is registered on one key only. */
  lemma RegistrantsChange(c: Config, s: State, r: nat, a: Action)
    requires Can(c, s, r, a) && (a.Register? || a.Leave?)
    ensures var s', slot := Do(c, s, r, a), SlotOf(s.reqs[r]);
            && (forall k :: k != slot ==> Registrants(s', k) == Registrants(s, k))
            && Registrants(s', slot) == (if a.Register? then Registrants(s, slot) + {r} else Registrants(s, slot) - {r})
            && (r in Registrants(s, slot) <==> a.Leave?)
  {
  }

  lemma RegisterTags(c: Config, s: State, r: nat)
    requires FlightInv(c, s) && Can(c, s, r, Register)
    ensures Tagged(Do(c, s, r, Register))
  {
  }

  lemma RegisterCounts(c: Config, s: State, r: nat)
    requires FlightInv(c, s) && Can(c, s, r, Register) && Tagged(Do(c, s, r, Register))
    ensures Counted(Do(c, s, r, Register))
  {
    var s', slot := Do(c, s, r, Register), SlotOf(s.reqs[r]);
    RegistrantsChange(c, s, r, Register);
    assert slot !in s.locks.arena.locks ==> Registrants(s, slot) == {};
    var a, a' := s.locks.arena, s'.locks.arena;
    forall k <- a'.locks ensures 2 <= a'.strong[a'.locks[k]] == 1 + |Registrants(s', k)| {
      if k in a.locks { assert a.strong[a.locks[k]] == 1 + |Registrants(s, k)|; }
    }
  }

  lemma RegisterKeeps(c: Config, s: State, r: nat)
    requires FlightInv(c, s) && Can(c, s, r, Register)
    ensures FlightInv(c, Do(c, s, r, Register))
  {
    RegisterTags(c, s, r);
    RegisterCounts(c, s, r);
    var s' := Do(c, s, r, Register);
    assert Owning(s');
    assert Linked(s');
  }

  lemma LeaveTags(c: Config, s: State, r: nat)
    requires FlightInv(c, s) && Can(c, s, r, Leave)
    ensures Tagged(Do(c, s, r, Leave))
  {
  }

  lemma LeaveCounts(c: Config, s: State, r: nat)
    requires FlightInv(c, s) && Can(c, s, r, Leave) && Tagged(Do(c, s, r, Leave))
    ensures Counted(Do(c, s, r, Leave))
    ensures SlotOf(s.reqs[r]) in Do(c, s, r, Leave).locks.arena.locks
       <==> Registrants(Do(c, s, r, Leave), SlotOf(s.reqs[r])) != {}
  {
    var s', slot := Do(c, s, r, Leave), SlotOf(s.reqs[r]);
    RegistrantsChange(c, s, r, Leave);
    var a, a' := s.locks.arena, s'.locks.arena;
    assert a.strong[a.locks[slot]] == 1 + |Registrants(s, slot)| == 2 + |Registrants(s', slot)|;
    forall k <- a'.locks ensures 2 <= a'.strong[a'.locks[k]] == 1 + |Registrants(s', k)| {
      assert a.strong[a.locks[k]] == 1 + |Registrants(s, k)|;
    }
  }

  lemma LeaveKeeps(c: Config, s: State, r: nat)
    requires FlightInv(c, s) && Can(c, s, r, Leave)
    ensures FlightInv(c, Do(c, s, r, Leave))
  {
    LeaveTags(c, s, r);
    LeaveCounts(c, s, r);
    var s', slot := Do(c, s, r, Leave), SlotOf(s.reqs[r]);
    forall q <- s'.reqs | Registered(s'.reqs[q].pc)
      ensures SlotOf(s'.reqs[q]) in s'.locks.arena.locks
      ensures s'.locks.arena.locks[SlotOf(s'.reqs[q])] == s'.reqs[q].pc.lock
    {
      assert q in Registrants(s', SlotOf(s'.reqs[q]));
    }
    assert Owning(s');
  }

  /** Every other action leaves the lock protocol where it is. */
  lemma QuietShape(c: Config, s: State, r: nat, a: Action)
    requires Can(c, s, r, a) && !a.Register? && !a.Lock? && !a.Release? && !a.Leave?
    ensures SameShape(s.reqs[r].pc, NextPc(c, s, r, a)) && LocksAfter(c, s, r, a) == s.locks
  {
  }

  lemma QuietKeeps(c: Config, s: State, r: nat, a: Action)
    requires FlightInv(c, s) && Can(c, s, r, a) && !a.Register? && !a.Lock? && !a.Release? && !a.Leave?
    ensures FlightInv(c, Do(c, s, r, a))
  {
    QuietShape(c, s, r, a);
    MoveKeeps(c, s, Do(c, s, r, a), r, NextPc(c, s, r, a));
  }

  lemma StepKeeps(c: Config, s: State, step: Step)
    requires FlightInv(c, s) && Enabled(c, s, step)
    ensures FlightInv(c, Apply(c, s, step))
  {
    match step
    case Arrive(_, _, _) => ArriveKeeps(c, s, step);
    case Act(r, Register) => RegisterKeeps(c, s, r);
    case Act(r, Lock) => LockKeeps(c, s, r);
    case Act(r, Release) => ReleaseKeeps(c, s, r);
    case Act(r, Leave) => LeaveKeeps(c, s, r);
    case Act(r, a) => QuietKeeps(c, s, r, a);
    case Deliver(cmd, withdrawn) => StayKeeps(c, s, Landed(s, cmd, withdrawn));
    case _ => StayKeeps(c, s, Apply(c, s, step));
  }

  lemma {:induction false} RunKeeps(c: Config, s: State, steps: seq<Step>)
    requires FlightInv(c, s) && Legal(c, s, steps)
    ensures FlightInv(c, Run(c, s, steps))
    decreases |steps|
  {
    if steps != [] {
      StepKeeps(c, s, steps[0]);
      RunKeeps(c, Apply(c, s, steps[0]), steps[1..]);
    }
  }

  lemma Reachable(c: Config, s: State, steps: seq<Step>)
    requires Init(s) && Legal(c, s, steps)
    ensures FlightInv(c, Run(c, s, steps))
  {
    RunKeeps(c, s, steps);
  }

  // ---- Theorems ----

  /** Requests of one instance share a slot exactly when they want the same entry. */
  lemma SlotsDistinct(c: Config, q: Request, q': Request)
    requires q.inst == q'.inst
    requires c.settings(q.inst).grouped <==> q.entry.Field?
    requires c.settings(q'.inst).grouped <==> q'.entry.Field?
    ensures SlotOf(q) == SlotOf(q') <==> q.entry == q'.entry
    ensures q.entry.Flat? ==> SlotOf(q) == Slot(q.inst, q.entry.key)
    ensures q.entry.Field? ==> SlotOf(q) == Slot(q.inst, Keys.FlightKey(q.entry.group, q.entry.field))
  {
    if q.entry.Field? {
      Keys.KeysInjective(q.entry.group, q.entry.field, q'.entry.group, q'.entry.field);
    }
  }

  lemma Exclusive(c: Config, s: State, r1: nat, r2: nat)
    requires FlightInv(c, s) && r1 in s.reqs && r2 in s.reqs
    ensures && s.reqs[r1].pc.Inside? && s.reqs[r2].pc.Inside?
            && s.reqs[r1].inst == s.reqs[r2].inst && s.reqs[r1].entry == s.reqs[r2].entry
            ==> r1 == r2
  {
  }

  /** Single flight: in no reachable state are two requests of one instance for the same entry both
      between taking and giving back the mutex, whatever arrived, left or was cancelled before. */
  lemma MutualExclusion(c: Config, s0: State, steps: seq<Step>, r1: nat, r2: nat)
    requires Init(s0) && Legal(c, s0, steps)
    ensures var reqs := Run(c, s0, steps).reqs;
            r1 in reqs && r2 in reqs && reqs[r1].pc.Inside? && reqs[r2].pc.Inside?
            && reqs[r1].inst == reqs[r2].inst && reqs[r1].entry == reqs[r2].entry
            ==> r1 == r2
  {
    Reachable(c, s0, steps);
    var s := Run(c, s0, steps);
    if r1 in s.reqs && r2 in s.reqs { Exclusive(c, s, r1, r2); }
  }

  /** Requests for different entries never contend: they are registered on different locks. */
  lemma Independence(c: Config, s0: State, steps: seq<Step>, r1: nat, r2: nat)
    requires Init(s0) && Legal(c, s0, steps)
    ensures var reqs := Run(c, s0, steps).reqs;
            r1 in reqs && r2 in reqs && Registered(reqs[r1].pc) && Registered(reqs[r2].pc)
            ==> (reqs[r1].pc.lock == reqs[r2].pc.lock
                 <==> reqs[r1].inst == reqs[r2].inst && reqs[r1].entry == reqs[r2].entry)
  {
    Reachable(c, s0, steps);
    var s := Run(c, s0, steps);
    if r1 in s.reqs && r2 in s.reqs && Registered(s.reqs[r1].pc) && Registered(s.reqs[r2].pc) {
      assert s.reqs[r1].pc.lock.home == SlotOf(s.reqs[r1]);
      assert s.reqs[r2].pc.lock.home == SlotOf(s.reqs[r2]);
      if s.reqs[r1].inst == s.reqs[r2].inst {
        SlotsDistinct(c, s.reqs[r1], s.reqs[r2]);
      }
    }
  }

  ghost function RegisteredOn(s: State, inst: nat, e: Entry): set<nat> {
    set r | r in s.reqs && Registered(s.reqs[r].pc) && s.reqs[r].inst == inst && s.reqs[r].entry == e
  }

  /** The table has an item for an entry iff some request is registered on it, and the item's strong
      count is one more than the number of those requests. */
  lemma TableExact(c: Config, s0: State, steps: seq<Step>, inst: nat, e: Entry)
    requires Init(s0) && Legal(c, s0, steps) && (c.settings(inst).grouped <==> e.Field?)
    ensures var s, slot := Run(c, s0, steps), SlotOf(Request(inst, e, Probe));
            var a, on := s.locks.arena, RegisteredOn(s, inst, e);
            && (slot in a.locks <==> on != {})
            && (slot in a.locks ==> Flights.Count(a, a.locks[slot]) == 1 + |on|)
            && (forall r <- on :: s.reqs[r].pc.lock == a.locks[slot])
  {
    Reachable(c, s0, steps);
    var s, q := Run(c, s0, steps), Request(inst, e, Probe);
    assert RegisteredOn(s, inst, e) == Registrants(s, SlotOf(q)) by {
      forall r <- s.reqs | s.reqs[r].inst == inst
        ensures SlotOf(s.reqs[r]) == SlotOf(q) <==> s.reqs[r].entry == e
      {
        SlotsDistinct(c, s.reqs[r], q);
      }
    }
    if SlotOf(q) in s.locks.arena.locks {
      assert s.locks.arena.strong[s.locks.arena.locks[SlotOf(q)]] == 1 + |Registrants(s, SlotOf(q))|;
    }
  }

  /** Nothing is left in the table once every request has finished or been cancelled. */
  lemma NoResidue(c: Config, s0: State, steps: seq<Step>)
    requires Init(s0) && Legal(c, s0, steps)
    requires forall r <- Run(c, s0, steps).reqs :: Run(c, s0, steps).reqs[r].pc.Done?
    ensures Run(c, s0, steps).locks.arena.locks == map[]
    ensures Run(c, s0, steps).locks.owner == map[]
  {
    Reachable(c, s0, steps);
    var s := Run(c, s0, steps);
    assert forall k :: Registrants(s, k) == {};
  }
}
