/** No deadlock, bounded polling, and a bound on the steps of any run. */
module Progress {
  import opened Protocol
  import SingleFlight
  import CrossNode

  const MAX_POLLS: nat := 50 // WAIT_MS over POLL_MS, rounded up

  // ---- The waiting loop against the clock ----

  /** Each completed poll took at least one sleep, and no sleep starts after the deadline. */
  predicate OnSchedule(pc: Pc, now: nat, commits: nat) {
    match pc
    case Inside(_, PollHead(since, polls)) => polls <= MAX_POLLS && since + POLL_MS * polls <= now
    case Inside(_, Nap(since, polls, wake)) => polls < MAX_POLLS && since + POLL_MS * (polls + 1) <= wake
    case Inside(_, Peek(since, polls)) => 0 < polls <= MAX_POLLS && since + POLL_MS * polls <= now
    case Inside(_, Loading(_, start)) => start <= commits
    case _ => true
  }

  ghost predicate ScheduleInv(s: State) {
    forall r <- s.reqs :: OnSchedule(s.reqs[r].pc, s.now, s.commits)
  }

  lemma ScheduleKeeps(c: Config, s: State, step: Step)
    requires ScheduleInv(s) && Enabled(c, s, step)
    ensures ScheduleInv(Apply(c, s, step))
  {
  }

  // ---- Ranking ----

  function PollsLeft(polls: nat): nat { if polls <= MAX_POLLS then MAX_POLLS - polls else 0 }

  /** An upper bound on the actions a request has left. */
  function Rank(grouped: bool, pc: Pc): nat {
    match pc
    case Probe => if grouped then 162 else 9
    case Miss => if grouped then 161 else 8
    case Queued(_) => if grouped then 160 else 7
    case Inside(_, stage) => (
      match stage
      case Recheck => if grouped then 159 else 6
      case Bid => 158
      case Outbid => 157
      case PollHead(_, polls) => 6 + 3 * PollsLeft(polls)
      case Nap(_, polls, _) => 5 + 3 * PollsLeft(polls)
      case Peek(_, polls) => 7 + 3 * PollsLeft(polls)
      case Call(permit) => if permit.Owned? then 6 else 5
      case Loading(permit, _) => if permit.Owned? then 5 else 4
      case Fill(permit, _, _, _, _) => if permit.Owned? then 4 else 3
      case Unbid(_) => 3
      case Unlock(_) => 2
    )
    case Leaving(_, _) => 1
    case Done(_) => 0
  }

  function Weight(q: Request): nat { Rank(q.entry.Field?, q.pc) }

  /** The steps a request of this kind can take in all. */
  function Budget(e: Entry): nat { if e.Field? then 162 else 9 }

  lemma ActionCosts(c: Config, s: State, r: nat, a: Action)
    requires ScheduleInv(s) && SingleFlight.Kinds(c, s) && CrossNode.LeaseInv(s) && Can(c, s, r, a)
    ensures Weight(Do(c, s, r, a).reqs[r]) < Weight(s.reqs[r])
  {
    assert OnSchedule(s.reqs[r].pc, s.now, s.commits) && CrossNode.Bidding(s.reqs[r]);
  }

  /** Remaining work of all requests together. */
  ghost function Total(reqs: map<nat, Request>): nat
    decreases |reqs|
  {
    if reqs == map[] then 0
    else
      var r :| r in reqs;
      Weight(reqs[r]) + Total(reqs - {r})
  }

  lemma {:induction false} TotalSplit(reqs: map<nat, Request>, r: nat)
    requires r in reqs
    ensures Total(reqs) == Weight(reqs[r]) + Total(reqs - {r})
    decreases |reqs|
  {
    var p :| p in reqs && Total(reqs) == Weight(reqs[p]) + Total(reqs - {p});
    if p != r {
      TotalSplit(reqs - {p}, r);
      TotalSplit(reqs - {r}, p);
      assert reqs - {p} - {r} == reqs - {r} - {p};
    }
  }

  lemma TotalUpdate(reqs: map<nat, Request>, r: nat, q: Request)
    ensures Total(reqs[r := q]) == Weight(q) + Total(reqs - {r})
    ensures r !in reqs ==> Total(reqs[r := q]) == Weight(q) + Total(reqs)
  {
    TotalSplit(reqs[r := q], r);
    assert reqs[r := q] - {r} == reqs - {r};
    assert r !in reqs ==> reqs - {r} == reqs;
  }

  // ---- All invariants together ----

  ghost predicate Inv(c: Config, s: State) {
    SingleFlight.FlightInv(c, s) && CrossNode.LeaseInv(s) && ScheduleInv(s)
  }

  lemma StepKeeps(c: Config, s: State, step: Step)
    requires Inv(c, s) && Enabled(c, s, step)
    ensures Inv(c, Apply(c, s, step))
  {
    SingleFlight.StepKeeps(c, s, step);
    CrossNode.StepKeeps(c, s, step);
    ScheduleKeeps(c, s, step);
  }

  lemma {:induction false} RunKeeps(c: Config, s: State, steps: seq<Step>)
    requires Inv(c, s) && Legal(c, s, steps)
    ensures Inv(c, Run(c, s, steps))
    decreases |steps|
  {
    if steps != [] {
      StepKeeps(c, s, steps[0]);
      RunKeeps(c, Apply(c, s, steps[0]), steps[1..]);
    }
  }

  // ---- Theorems ----

  /** Actions taken by requests along a run. */
  function Work(steps: seq<Step>): nat {
    if steps == [] then 0 else (if steps[0].Act? then 1 else 0) + Work(steps[1..])
  }

  /** The budgets of the requests that arrive along a run. */
  function Arrivals(steps: seq<Step>): nat {
    if steps == [] then 0 else (if steps[0].Arrive? then Budget(steps[0].entry) else 0) + Arrivals(steps[1..])
  }

  lemma {:induction false} WorkBounded(c: Config, s: State, steps: seq<Step>)
    requires Inv(c, s) && Legal(c, s, steps)
    ensures Work(steps) + Total(Run(c, s, steps).reqs) <= Total(s.reqs) + Arrivals(steps)
    decreases |steps|
  {
    if steps != [] {
      var step, s' := steps[0], Apply(c, s, steps[0]);
      StepKeeps(c, s, step);
      WorkBounded(c, s', steps[1..]);
      if step.Act? {
        ActionCosts(c, s, step.r, step.action);
        TotalUpdate(s.reqs, step.r, s'.reqs[step.r]);
        TotalSplit(s.reqs, step.r);
      } else if step.Arrive? {
        TotalUpdate(s.reqs, step.r, s'.reqs[step.r]);
      }
    }
  }

  /** All requests of a run together act at most 9 times per `CacheLayer` request and 162 times per
      `GroupedCache` request, cancellations included. */
  lemma BoundedWork(c: Config, s0: State, steps: seq<Step>)
    requires Init(s0) && Legal(c, s0, steps)
    ensures Work(steps) <= Arrivals(steps)
  {
    WorkBounded(c, s0, steps);
  }

  /** A request waiting for another node polls at most 50 times, and when it gives up and loads by
      itself it has waited its full second. */
  lemma BoundedWait(c: Config, s0: State, steps: seq<Step>, r: nat)
    requires Init(s0) && Legal(c, s0, steps)
    ensures var s := Run(c, s0, steps);
            r in s.reqs && s.reqs[r].pc.Inside? ==>
              match s.reqs[r].pc.stage
              case PollHead(since, polls) => polls <= 50 && since + 20 * polls <= s.now
              case Nap(since, polls, _) => polls < 50
              case Peek(since, polls) => 1 <= polls <= 50 && since + 20 * polls <= s.now
              case Call(TimedOut(since)) => since + 1000 <= s.now
              case Loading(TimedOut(since), _) => since + 1000 <= s.now
              case _ => true
  {
    RunKeeps(c, s0, steps);
    var s := Run(c, s0, steps);
    if r in s.reqs { assert OnSchedule(s.reqs[r].pc, s.now, s.commits) && CrossNode.Sound(s, r); }
  }

  /** Not a cancellation, not a failing loader, not a failing or lost command; the one write refused
      is one with a zero TTL. */
  predicate Uneventful(a: Action) {
    match a
    case Read(fails) => !fails
    case SendBid(reply) => reply.Acked?
    case Write(reply) => reply.Acked? || reply.Rejected?
    case SendUnbid(reply) => reply.Acked?
    case LoaderFails => false
    case Cancel(_) => false
    case _ => true
  }

  /** Nobody new, and whoever is on board goes on undisturbed. */
  predicate Ordinary(step: Step) {
    match step
    case Act(_, a) => Uneventful(a)
    case Tick(_) => true
    case _ => false
  }

  predicate Napping(pc: Pc) { pc.Inside? && pc.stage.Nap? }

  /** What a request that is neither finished, queued nor asleep does next, if nothing fails. */
  function Onward(pc: Pc): Action
    requires !pc.Done? && !pc.Queued? && !Napping(pc)
  {
    match pc
    case Probe => Read(false)
    case Miss => Register
    case Leaving(_, _) => Leave
    case Inside(_, stage) =>
      match stage
      case Recheck => Read(false)
      case Peek(_, _) => Read(false)
      case Bid => SendBid(Acked)
      case Outbid => BeginWait
      case PollHead(_, _) => Turn
      case Call(_) => CallLoader
      case Loading(_, start) => LoaderReturns(start, 0)
      case Fill(_, _, _, ttl, _) => Write(if Sendable(ttl) then Acked else Rejected)
      case Unbid(_) => SendUnbid(Acked)
      case Unlock(_) => Release
  }

  lemma OwnerSharesSlot(c: Config, s: State, r: nat)
    requires SingleFlight.FlightInv(c, s) && r in s.reqs && s.reqs[r].pc.Queued? && s.reqs[r].pc.lock in s.locks.owner
    ensures var q := s.locks.owner[s.reqs[r].pc.lock];
            q in s.reqs && s.reqs[q].pc.Inside? && s.reqs[q].inst == s.reqs[r].inst
            && s.reqs[q].entry.Field? == s.reqs[r].entry.Field?
  {
  }

  lemma OnwardWorks(c: Config, s: State, q: nat)
    requires q in s.reqs && OnSchedule(s.reqs[q].pc, s.now, s.commits)
    requires !s.reqs[q].pc.Done? && !s.reqs[q].pc.Queued? && !Napping(s.reqs[q].pc)
    ensures Can(c, s, q, Onward(s.reqs[q].pc)) && Uneventful(Onward(s.reqs[q].pc))
  {
  }

  /** As long as somebody is unfinished, somebody can act, or is only waiting for the clock; and for
      a `CacheLayer` request it is never the clock. */
  lemma SomebodyMoves(c: Config, s: State, r: nat) returns (q: nat, a: Action)
    requires Inv(c, s) && r in s.reqs && !s.reqs[r].pc.Done?
    ensures q in s.reqs && Uneventful(a) && s.reqs[q].inst == s.reqs[r].inst
    ensures Can(c, s, q, a) || (Napping(s.reqs[q].pc) && a == Wake)
    ensures s.reqs[r].entry.Flat? ==> Can(c, s, q, a)
  {
    q := r;
    if s.reqs[r].pc.Queued? {
      var lock := s.reqs[r].pc.lock;
      if lock !in s.locks.owner { return r, Lock; }
      q := s.locks.owner[lock];
      OwnerSharesSlot(c, s, r);
    }
    assert CrossNode.Bidding(s.reqs[q]) && OnSchedule(s.reqs[q].pc, s.now, s.commits);
    if Napping(s.reqs[q].pc) {
      a := Wake;
    } else {
      a := Onward(s.reqs[q].pc);
      OnwardWorks(c, s, q);
    }
  }

  ghost predicate Finished(s: State) { forall r <- s.reqs :: s.reqs[r].pc.Done? }

  /** In every reachable state with an unfinished request, somebody can act or sleeps until a known time. */
  lemma NoDeadlock(c: Config, s0: State, steps: seq<Step>)
    requires Init(s0) && Legal(c, s0, steps)
    ensures var s := Run(c, s0, steps);
            || Finished(s)
            || exists q, a :: q in s.reqs && Uneventful(a) && (Can(c, s, q, a) || (Napping(s.reqs[q].pc) && a == Wake))
  {
    RunKeeps(c, s0, steps);
    var s := Run(c, s0, steps);
    if r :| r in s.reqs && !s.reqs[r].pc.Done? {
      var q, a := SomebodyMoves(c, s, r);
    }
  }

  /** From every reachable state the requests on board can all be brought to their end, without a
      cancellation or a failure; by then the lock table is empty. */
  lemma Drains(c: Config, s0: State, steps: seq<Step>) returns (more: seq<Step>)
    requires Init(s0) && Legal(c, s0, steps)
    ensures Legal(c, Run(c, s0, steps), more) && (forall step <- more :: Ordinary(step))
    ensures var end := Run(c, Run(c, s0, steps), more);
            Finished(end) && end.locks.arena.locks == map[] && end.locks.owner == map[]
  {
    RunKeeps(c, s0, steps);
    more := Drain(c, Run(c, s0, steps));
    var end := Run(c, Run(c, s0, steps), more);
    assert forall k :: SingleFlight.Registrants(end, k) == {};
  }

  lemma {:induction false} Drain(c: Config, s: State) returns (more: seq<Step>)
    requires Inv(c, s)
    ensures Legal(c, s, more) && (forall step <- more :: Ordinary(step))
    ensures Finished(Run(c, s, more)) && Inv(c, Run(c, s, more))
    decreases Total(s.reqs)
  {
    if Finished(s) { return []; }
    var r :| r in s.reqs && !s.reqs[r].pc.Done?;
    var q, a := SomebodyMoves(c, s, r);
    if Can(c, s, q, a) {
      more := DrainVia(c, s, q, a);
    } else {
      var wait := Tick(s.reqs[q].pc.stage.wake - s.now);
      StepKeeps(c, s, wait);
      var rest := DrainVia(c, Apply(c, s, wait), q, Wake);
      more := [wait] + rest;
      assert more[1..] == rest;
    }
  }

  lemma {:induction false} DrainVia(c: Config, s: State, q: nat, a: Action) returns (more: seq<Step>)
    requires Inv(c, s) && Can(c, s, q, a) && Uneventful(a)
    ensures Legal(c, s, more) && (forall step <- more :: Ordinary(step))
    ensures Finished(Run(c, s, more)) && Inv(c, Run(c, s, more))
    decreases Total(s.reqs), 0
  {
    var s' := Do(c, s, q, a);
    StepKeeps(c, s, Act(q, a));
    ActionCosts(c, s, q, a);
    TotalUpdate(s.reqs, q, s'.reqs[q]);
    TotalSplit(s.reqs, q);
    var rest := Drain(c, s');
    more := [Act(q, a)] + rest;
    assert more[1..] == rest;
  }
}
