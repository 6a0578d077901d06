/** Runs that show the limits proved elsewhere are the real ones. */
module Scenarios {
  import opened Texts
  import opened Protocol
  import Leases
  import SingleFlight
  import CrossNode
  import Freshness
  import LoadBound
  import Progress

  // ---- Composing runs ----

  /** A run in which no time passes and nothing fails. */
  predicate Smooth(step: Step) {
    step.Arrive? || (step.Act? && Progress.Uneventful(step.action))
  }

  ghost predicate Leg(c: Config, s: State, steps: seq<Step>, t: State, e: Entry, fills: nat) {
    && Legal(c, s, steps) && Run(c, s, steps) == t
    && LoadBound.HealthyRun(c, s, steps, e) && LoadBound.Fills(c, s, steps, e) == fills
    && (forall step <- steps :: Smooth(step))
  }

  lemma {:induction false} Join(
    c: Config, s: State, xs: seq<Step>, t: State, ys: seq<Step>, u: State, e: Entry, m: nat, n: nat)
    requires Leg(c, s, xs, t, e, m) && Leg(c, t, ys, u, e, n)
    ensures Leg(c, s, xs + ys, u, e, m + n)
    decreases |xs|
  {
    if xs == [] {
      assert xs + ys == ys;
    } else {
      var s' := Apply(c, s, xs[0]);
      var first := if LoadBound.IsFill(s, xs[0], e) then 1 else 0;
      Join(c, s', xs[1..], t, ys, u, e, m - first, n);
      assert (xs + ys)[1..] == xs[1..] + ys;
    }
  }

  lemma Single(c: Config, s: State, step: Step, e: Entry)
    requires Enabled(c, s, step) && LoadBound.Healthy(c, s, step, e) && Smooth(step)
    ensures Leg(c, s, [step], Apply(c, s, step), e, if LoadBound.IsFill(s, step, e) then 1 else 0)
  {
  }

  /** One action more. */
  lemma Then(c: Config, s: State, xs: seq<Step>, t: State, step: Step, e: Entry, m: nat)
    returns (ys: seq<Step>, u: State, n: nat)
    requires Leg(c, s, xs, t, e, m)
    requires Enabled(c, t, step) && LoadBound.Healthy(c, t, step, e) && Smooth(step)
    ensures u == Apply(c, t, step) && n == m + if LoadBound.IsFill(t, step, e) then 1 else 0
    ensures ys == xs + [step] && Leg(c, s, ys, u, e, n)
  {
    u := Apply(c, t, step);
    Single(c, t, step, e);
    Join(c, s, xs, t, [step], u, e, m, if LoadBound.IsFill(t, step, e) then 1 else 0);
    ys, n := xs + [step], m + if LoadBound.IsFill(t, step, e) then 1 else 0;
  }

  lemma Start(c: Config, s: State, e: Entry)
    ensures Leg(c, s, [], s, e, 0)
  {
  }

  // ---- Up to the second miss ----

  /** The instance is of the kind that serves the entry. */
  predicate Serves(c: Config, inst: nat, e: Entry) { c.settings(inst).grouped <==> e.Field? }

  /** Where the second miss leaves a request: about to bid, or with nothing left but to load. */
  function AfterMiss(e: Entry): Stage { if e.Field? then Bid else Call(Unleased) }

  predicate Ready(q: Request, inst: nat, e: Entry) {
    q.inst == inst && q.entry == e && q.pc.Inside? && q.pc.stage == AfterMiss(e)
  }

  lemma NewLockUnowned(c: Config, s: State, slot: Slot)
    requires SingleFlight.FlightInv(c, s)
    ensures LockId(slot, s.locks.serial) !in s.locks.owner
  {
  }

  lemma ReachMiss(c: Config, s: State, r: nat, inst: nat, e: Entry) returns (steps: seq<Step>, t: State)
    requires r !in s.reqs && Serves(c, inst, e) && !LoadBound.Present(c, s, e)
    ensures steps == [Arrive(r, inst, e), Act(r, Read(false))] && Leg(c, s, steps, t, e, 0)
    ensures t == s.(reqs := s.reqs[r := Request(inst, e, Miss)])
  {
    var n := 0;
    Start(c, s, e);
    steps, t, n := Then(c, s, [], s, Arrive(r, inst, e), e, n);
    steps, t, n := Then(c, s, steps, t, Act(r, Read(false)), e, n);
  }

  lemma ReachLock(c: Config, s: State, r: nat, lock: LockId, e: Entry) returns (steps: seq<Step>, t: State)
    requires r in s.reqs && s.reqs[r].pc.Miss?
    requires lock == LockId(SlotOf(s.reqs[r]), s.locks.serial) && lock !in s.locks.owner
    requires SlotOf(s.reqs[r]) !in s.locks.arena.locks
    ensures Leg(c, s, steps, t, e, 0) && forall step <- steps :: !step.Arrive?
    ensures t == s.(reqs := s.reqs[r := s.reqs[r].(pc := Inside(lock, Recheck))], locks := t.locks)
    ensures t.locks.arena.locks.Keys == s.locks.arena.locks.Keys + {SlotOf(s.reqs[r])}
  {
    var n := 0;
    Start(c, s, e);
    steps, t, n := Then(c, s, [], s, Act(r, Register), e, n);
    steps, t, n := Then(c, s, steps, t, Act(r, Lock), e, n);
  }

  /** A first request on an instance misses twice. */
  lemma ReachReady(c: Config, s: State, r: nat, inst: nat, e: Entry) returns (steps: seq<Step>, t: State)
    requires SingleFlight.FlightInv(c, s) && r !in s.reqs && Serves(c, inst, e)
    requires !LoadBound.Present(c, s, e) && SlotOf(Request(inst, e, Probe)) !in s.locks.arena.locks
    ensures Leg(c, s, steps, t, e, 0)
    ensures r in t.reqs && Ready(t.reqs[r], inst, e)
    ensures t == s.(reqs := s.reqs[r := t.reqs[r]], locks := t.locks)
    ensures t.locks.arena.locks.Keys == s.locks.arena.locks.Keys + {SlotOf(Request(inst, e, Probe))}
    ensures forall step <- steps :: step.Arrive? ==> step.inst == inst
  {
    var slot := SlotOf(Request(inst, e, Probe));
    NewLockUnowned(c, s, slot);
    var xs, m := ReachMiss(c, s, r, inst, e);
    var ys, u := ReachLock(c, m, r, LockId(slot, s.locks.serial), e);
    Join(c, s, xs, m, ys, u, e, 0, 0);
    assert Lookup(c, u, e) == Lookup(c, s, e);
    var n;
    steps, t, n := Then(c, s, xs + ys, u, Act(r, Read(false)), e, 0);
  }

  // ---- From the second miss to the fill ----

  predicate Idle(s: State, e: Entry) { !Leases.Live(s.leases, s.now, LeaseKey(e)) }

  /** A field's request wins the free lock and calls its loader. */
  lemma ReachLoad(c: Config, s: State, r: nat, inst: nat, e: Entry) returns (steps: seq<Step>, t: State)
    requires e.Field? && r in s.reqs && Ready(s.reqs[r], inst, e) && Idle(s, e)
    ensures Leg(c, s, steps, t, e, 0) && forall step <- steps :: !step.Arrive?
    ensures var lock, expires := s.reqs[r].pc.lock, s.now + Leases.LOCK_TTL_MS;
            t == s.(reqs := s.reqs[r := s.reqs[r].(pc := Inside(lock, Loading(Owned(expires), s.commits)))],
                    leases := s.leases[LeaseKey(e) := Leases.Lease(r, expires)])
  {
    var n := 0;
    Start(c, s, e);
    steps, t, n := Then(c, s, [], s, Act(r, SendBid(Acked)), e, n);
    steps, t, n := Then(c, s, steps, t, Act(r, CallLoader), e, n);
  }

  /** A loader returns and its value is written: one fill. */
  lemma Fills(c: Config, s: State, r: nat, e: Entry) returns (steps: seq<Step>, t: State)
    requires Freshness.Working(c) && r in s.reqs && s.reqs[r].entry == e && Serves(c, s.reqs[r].inst, e)
    requires s.reqs[r].pc.Inside? && s.reqs[r].pc.stage.Loading? && s.reqs[r].pc.stage.start <= s.commits
    ensures Leg(c, s, steps, t, e, 1) && forall step <- steps :: !step.Arrive?
    ensures r in t.reqs && t.reqs == s.reqs[r := t.reqs[r]] && t.leases == s.leases && t.now == s.now
    ensures t.reqs[r].entry == e && t.reqs[r].pc.Inside?
    ensures s.reqs[r].pc.stage.permit.Owned? ==> t.reqs[r].pc.stage.Unbid?
  {
    var n := 0;
    assert c.encode(c.content(e, s.reqs[r].pc.stage.start)).Some?;
    Start(c, s, e);
    steps, t, n := Then(c, s, [], s, Act(r, LoaderReturns(s.reqs[r].pc.stage.start, 1)), e, n);
    steps, t, n := Then(c, s, steps, t, Act(r, Write(Acked)), e, n);
  }

  /** A field's request goes from its bid to its release: one fill, and the lock is free again. */
  lemma FieldFills(c: Config, s: State, r: nat, inst: nat, e: Entry) returns (steps: seq<Step>, t: State)
    requires Freshness.Working(c) && e.Field? && Serves(c, inst, e)
    requires r in s.reqs && Ready(s.reqs[r], inst, e) && Idle(s, e)
    ensures Leg(c, s, steps, t, e, 1) && forall step <- steps :: !step.Arrive?
    ensures r in t.reqs && t.reqs == s.reqs[r := t.reqs[r]] && Idle(t, e)
  {
    var xs, u := ReachLoad(c, s, r, inst, e);
    var ys, v := Fills(c, u, r, e);
    Join(c, s, xs, u, ys, v, e, 0, 1);
    var n;
    steps, t, n := Then(c, s, xs + ys, v, Act(r, SendUnbid(Acked)), e, 1);
  }

  lemma FlatFills(c: Config, s: State, r: nat, inst: nat, e: Entry) returns (steps: seq<Step>, t: State)
    requires Freshness.Working(c) && e.Flat? && Serves(c, inst, e)
    requires r in s.reqs && Ready(s.reqs[r], inst, e) && Idle(s, e)
    ensures Leg(c, s, steps, t, e, 1) && forall step <- steps :: !step.Arrive?
    ensures r in t.reqs && t.reqs == s.reqs[r := t.reqs[r]] && Idle(t, e)
  {
    Start(c, s, e);
    var xs, u, n := Then(c, s, [], s, Act(r, CallLoader), e, 0);
    var ys;
    ys, t := Fills(c, u, r, e);
    Join(c, s, xs, u, ys, t, e, 0, 1);
    steps := xs + ys;
  }

  // ---- Any number of nodes ----

  ghost predicate Distinct(nodes: seq<nat>) {
    forall i, j :: 0 <= i < j < |nodes| ==> nodes[i] != nodes[j]
  }

  ghost predicate AllServe(c: Config, nodes: seq<nat>, e: Entry) {
    forall i :: 0 <= i < |nodes| ==> Serves(c, nodes[i], e)
  }

  /** Requests `0..k` have missed twice, one per node. */
  ghost predicate Lined(s: State, nodes: seq<nat>, e: Entry) {
    && (forall r :: r in s.reqs <==> 0 <= r < |nodes|)
    && (forall r :: 0 <= r < |nodes| ==> Ready(s.reqs[r], nodes[r], e))
  }

  /** Locks exist on these nodes only. */
  ghost predicate LocksOn(s: State, nodes: seq<nat>) {
    forall k <- s.locks.arena.locks :: k.inst in nodes
  }

  ghost predicate ArriveOn(steps: seq<Step>, nodes: seq<nat>) {
    forall step <- steps :: step.Arrive? ==> step.inst in nodes
  }

  lemma OneMore(c: Config, s: State, nodes: seq<nat>, node: nat, e: Entry) returns (steps: seq<Step>, t: State)
    requires SingleFlight.FlightInv(c, s) && Serves(c, node, e)
    requires !LoadBound.Present(c, s, e) && Lined(s, nodes, e) && LocksOn(s, nodes) && node !in nodes
    ensures Leg(c, s, steps, t, e, 0) && ArriveOn(steps, [node])
    ensures t == s.(reqs := t.reqs, locks := t.locks)
    ensures Lined(t, nodes + [node], e) && LocksOn(t, nodes + [node])
  {
    steps, t := ReachReady(c, s, |nodes|, node, e);
  }

  lemma {:induction false} LineUp(c: Config, s: State, nodes: seq<nat>, e: Entry) returns (steps: seq<Step>, t: State)
    requires Init(s) && !LoadBound.Present(c, s, e) && Distinct(nodes) && AllServe(c, nodes, e)
    ensures Leg(c, s, steps, t, e, 0) && ArriveOn(steps, nodes)
    ensures t == s.(reqs := t.reqs, locks := t.locks)
    ensures Lined(t, nodes, e) && LocksOn(t, nodes)
    decreases |nodes|
  {
    if nodes == [] {
      Start(c, s, e);
      return [], s;
    }
    var head, node := nodes[..|nodes| - 1], nodes[|nodes| - 1];
    assert nodes == head + [node];
    var xs, u := LineUp(c, s, head, e);
    SingleFlight.Reachable(c, s, xs);
    assert Lookup(c, u, e) == Lookup(c, s, e);
    var ys;
    ys, t := OneMore(c, u, head, node, e);
    Join(c, s, xs, u, ys, t, e, 0, 0);
    steps := xs + ys;
    assert forall step <- steps :: step in xs || step in ys;
  }

  lemma {:induction false} FillAll(c: Config, s: State, nodes: seq<nat>, e: Entry, k: nat)
    returns (steps: seq<Step>, t: State)
    requires Freshness.Working(c) && AllServe(c, nodes, e) && k <= |nodes| && Idle(s, e)
    requires forall r :: k <= r < |nodes| ==> r in s.reqs && Ready(s.reqs[r], nodes[r], e)
    ensures Leg(c, s, steps, t, e, |nodes| - k) && forall step <- steps :: !step.Arrive?
    decreases |nodes| - k
  {
    if k == |nodes| {
      Start(c, s, e);
      return [], s;
    }
    var xs, u;
    if e.Field? {
      xs, u := FieldFills(c, s, k, nodes[k], e);
    } else {
      xs, u := FlatFills(c, s, k, nodes[k], e);
    }
    var ys;
    ys, t := FillAll(c, u, nodes, e, k + 1);
    Join(c, s, xs, u, ys, t, e, 1, |nodes| - k - 1);
    steps := xs + ys;
    assert forall step <- steps :: step in xs || step in ys;
  }

  /** The bound of one fill per node is attained by any number of nodes, with a healthy store, no
      time passing and the cross-node lock working: nobody re-reads the entry after winning it. */
  lemma EveryNodeFills(c: Config, s0: State, nodes: seq<nat>, e: Entry) returns (steps: seq<Step>)
    requires Freshness.Working(c) && Init(s0) && !LoadBound.Present(c, s0, e)
    requires Distinct(nodes) && AllServe(c, nodes, e)
    ensures Legal(c, s0, steps) && LoadBound.HealthyRun(c, s0, steps, e)
    ensures ArriveOn(steps, nodes) && forall step <- steps :: Smooth(step)
    ensures LoadBound.Fills(c, s0, steps, e) == |nodes|
  {
    var xs, u := LineUp(c, s0, nodes, e);
    var ys, t := FillAll(c, u, nodes, e, 0);
    Join(c, s0, xs, u, ys, t, e, 0, |nodes|);
    steps := xs + ys;
    assert forall step <- steps :: step in xs || step in ys;
  }

  lemma {:induction false} Listed(nodes: set<nat>) returns (list: seq<nat>)
    ensures Distinct(list) && |list| == |nodes| && forall i :: i in list <==> i in nodes
  {
    if nodes == {} { return []; }
    var i :| i in nodes;
    var rest := Listed(nodes - {i});
    list := rest + [i];
  }

  /** If the run is a healthy one and only these nodes serve the entry, it has at most `k` fills. */
  ghost predicate FillsAtMost(c: Config, s0: State, steps: seq<Step>, e: Entry, nodes: set<nat>, k: nat) {
    Legal(c, s0, steps) && LoadBound.HealthyRun(c, s0, steps, e)
    && (forall step <- steps :: LoadBound.ArrivesAt(step, e, nodes))
    ==> LoadBound.Fills(c, s0, steps, e) <= k
  }

  /** The number of nodes is the exact bound: all healthy runs have at most `k` fills if and only if at
      most `k` nodes serve the entry. In particular single flight is single only on one node. */
  lemma FillBoundExact(c: Config, s0: State, e: Entry, nodes: set<nat>, k: nat)
    requires Freshness.Working(c) && Init(s0) && !LoadBound.Present(c, s0, e)
    requires forall i <- nodes :: Serves(c, i, e)
    ensures (forall steps :: FillsAtMost(c, s0, steps, e, nodes, k)) <==> |nodes| <= k
  {
    if |nodes| <= k {
      forall steps ensures FillsAtMost(c, s0, steps, e, nodes, k) {
        if Legal(c, s0, steps) && LoadBound.HealthyRun(c, s0, steps, e)
           && forall step <- steps :: LoadBound.ArrivesAt(step, e, nodes) {
          LoadBound.AtMostOnePerNode(c, s0, steps, e, nodes);
        }
      }
    } else {
      var list := Listed(nodes);
      var steps := EveryNodeFills(c, s0, list, e);
      assert forall step <- steps :: LoadBound.ArrivesAt(step, e, nodes);
      assert !FillsAtMost(c, s0, steps, e, nodes, k);
    }
  }

  // ---- Both ways two loads can overlap ----

  predicate LoadingAt(s: State, r: nat, e: Entry) {
    r in s.reqs && s.reqs[r].entry == e && s.reqs[r].pc.Inside? && s.reqs[r].pc.stage.Loading?
  }

  /** One request loads on the lease, another on a different node is about to bid. */
  lemma OwnerAndRival(c: Config, s0: State, i: nat, j: nat, e: Entry) returns (steps: seq<Step>, t: State)
    requires Init(s0) && e.Field? && !LoadBound.Present(c, s0, e) && i != j
    requires c.settings(i).grouped && c.settings(j).grouped
    ensures Legal(c, s0, steps) && Run(c, s0, steps) == t && t.now == s0.now && !LoadBound.Present(c, t, e)
    ensures LoadingAt(t, 0, e) && t.reqs[0].pc.stage.permit == Owned(s0.now + Leases.LOCK_TTL_MS)
    ensures 1 in t.reqs && Ready(t.reqs[1], j, e)
    ensures LeaseKey(e) in t.leases && t.leases[LeaseKey(e)] == Leases.Lease(0, s0.now + Leases.LOCK_TTL_MS)
  {
    var xs, u := LineUp(c, s0, [i, j], e);
    var ys;
    ys, t := ReachLoad(c, u, 0, i, e);
    Join(c, s0, xs, u, ys, t, e, 0, 0);
    assert Lookup(c, t, e) == Lookup(c, s0, e);
    steps := xs + ys;
  }

  /** Two loads of one field at once, the second because its request found the lease taken, polled in
      vain all the 50 times it may, and then gave up waiting while the owner's lease still ran. */
  lemma DegradedOverlap(c: Config, s0: State, i: nat, j: nat, e: Entry) returns (polling: seq<Step>, last: seq<Step>)
    requires Init(s0) && e.Field? && !LoadBound.Present(c, s0, e) && i != j
    requires c.settings(i).grouped && c.settings(j).grouped
    ensures Legal(c, s0, polling) && Legal(c, s0, polling + last)
    ensures var s := Run(c, s0, polling);
            1 in s.reqs && s.reqs[1].pc.Inside? && s.reqs[1].pc.stage == PollHead(s0.now, 50)
    ensures var s := Run(c, s0, polling + last);
            && LoadingAt(s, 0, e) && CrossNode.Owner(s, 0) && !CrossNode.Overstayed(s, 0)
            && LoadingAt(s, 1, e) && CrossNode.Degraded(s, 1)
  {
    var xs, v := OwnerAndRival(c, s0, i, j, e);
    var zs, w := LoseAndPoll(c, v, 1);
    Concat(c, s0, xs, zs);
    polling, last := xs + zs, [Act(1, Turn), Act(1, CallLoader)];
    TwoSteps(c, w, last[0], last[1]);
    Concat(c, s0, polling, last);
  }

  /** A request that finds the lease taken polls until its second is over. */
  lemma LoseAndPoll(c: Config, s: State, r: nat) returns (steps: seq<Step>, t: State)
    requires r in s.reqs && s.reqs[r].pc.Inside? && s.reqs[r].pc.stage.Bid? && !Idle(s, s.reqs[r].entry)
    requires !LoadBound.Present(c, s, s.reqs[r].entry)
    ensures Legal(c, s, steps) && Run(c, s, steps) == t
    ensures var pc := Inside(s.reqs[r].pc.lock, PollHead(s.now, 50));
            t == s.(now := s.now + WAIT_MS, reqs := s.reqs[r := s.reqs[r].(pc := pc)])
  {
    var bid, begin := Act(r, SendBid(Acked)), Act(r, BeginWait);
    TwoSteps(c, s, bid, begin);
    var u := s.(reqs := s.reqs[r := s.reqs[r].(pc := Inside(s.reqs[r].pc.lock, PollHead(s.now, 0)))]);
    assert Run(c, s, [bid, begin]) == u && Lookup(c, u, s.reqs[r].entry) == Lookup(c, s, s.reqs[r].entry);
    var rest := EveryPoll(c, u, r, 50);
    Concat(c, s, [bid, begin], rest);
    steps, t := [bid, begin] + rest, Run(c, u, rest);
  }

  /** A request whose entry does not show up polls on every tick: after k polls, for any k up to 50, it
      is at the loop head again, exactly 20 ms apart. */
  lemma {:induction false} EveryPoll(c: Config, s: State, r: nat, k: nat) returns (steps: seq<Step>)
    requires r in s.reqs && s.reqs[r].pc.Inside? && s.reqs[r].pc.stage == PollHead(s.now, 0)
    requires !LoadBound.Present(c, s, s.reqs[r].entry) && k <= 50
    ensures Legal(c, s, steps)
    ensures var pc := Inside(s.reqs[r].pc.lock, PollHead(s.now, k));
            Run(c, s, steps) == s.(now := s.now + 20 * k, reqs := s.reqs[r := s.reqs[r].(pc := pc)])
    decreases k
  {
    if k == 0 { return []; }
    var xs := EveryPoll(c, s, r, k - 1);
    var ys := OnePoll(c, Run(c, s, xs), r);
    Concat(c, s, xs, ys);
    steps := xs + ys;
  }

  lemma OnePoll(c: Config, s: State, r: nat) returns (steps: seq<Step>)
    requires r in s.reqs && s.reqs[r].pc.Inside? && s.reqs[r].pc.stage.PollHead?
    requires !LoadBound.Present(c, s, s.reqs[r].entry) && s.now < s.reqs[r].pc.stage.since + WAIT_MS
    ensures Legal(c, s, steps)
    ensures var stage := s.reqs[r].pc.stage;
            var pc := Inside(s.reqs[r].pc.lock, PollHead(stage.since, stage.polls + 1));
            Run(c, s, steps) == s.(now := s.now + 20, reqs := s.reqs[r := s.reqs[r].(pc := pc)])
  {
    var turn, wait, wake, read := Act(r, Turn), Tick(20), Act(r, Wake), Act(r, Read(false));
    var s1 := Apply(c, s, turn);
    var s2 := Apply(c, s1, wait);
    var s3 := Apply(c, s2, wake);
    TwoSteps(c, s, turn, wait);
    TwoSteps(c, s2, wake, read);
    Concat(c, s, [turn, wait], [wake, read]);
    steps := [turn, wait] + [wake, read];
  }

  /** Time passes at the end of a run. */
  lemma Wait(c: Config, s: State, xs: seq<Step>, t: State, ms: nat) returns (u: State)
    requires Legal(c, s, xs) && Run(c, s, xs) == t
    ensures u == t.(now := t.now + ms)
    ensures Legal(c, s, xs + [Tick(ms)]) && Run(c, s, xs + [Tick(ms)]) == u
  {
    u := t.(now := t.now + ms);
    assert [Tick(ms)][1..] == [] && Legal(c, u, []) && Run(c, u, []) == u;
    Concat(c, s, xs, [Tick(ms)]);
  }

  /** Two loads of one field at once, both granted the lease, the first one outliving it. */
  lemma OverstayedOverlap(c: Config, s0: State, i: nat, j: nat, e: Entry) returns (steps: seq<Step>)
    requires Init(s0) && e.Field? && !LoadBound.Present(c, s0, e) && i != j
    requires c.settings(i).grouped && c.settings(j).grouped
    ensures Legal(c, s0, steps)
    ensures var s := Run(c, s0, steps);
            && LoadingAt(s, 0, e) && LoadingAt(s, 1, e)
            && CrossNode.GrantedFirst(s, 0, 1) && CrossNode.Overstayed(s, 0) && !CrossNode.Overstayed(s, 1)
  {
    var xs, v := OwnerAndRival(c, s0, i, j, e);
    var w := Wait(c, s0, xs, v, Leases.LOCK_TTL_MS);
    var zs, t := ReachLoad(c, w, 1, j, e);
    Concat(c, s0, xs + [Tick(Leases.LOCK_TTL_MS)], zs);
    steps := xs + [Tick(Leases.LOCK_TTL_MS)] + zs;
  }

  // ---- Older data after a delete ----

  /** Commit, then delete the entry. */
  function Rewrite(e: Entry): seq<Step> { [Commit, Invalidate({e})] }

  /** The only request so far is calling its loader. */
  lemma FirstLoad(c: Config, s0: State, inst: nat, e: Entry) returns (steps: seq<Step>, t: State)
    requires Init(s0) && Serves(c, inst, e) && !LoadBound.Present(c, s0, e)
    ensures Legal(c, s0, steps) && Run(c, s0, steps) == t
    ensures t == s0.(reqs := t.reqs, locks := t.locks, leases := t.leases)
    ensures t.reqs.Keys == {0} && LoadingAt(t, 0, e) && t.reqs[0].inst == inst
    ensures t.reqs[0].pc.stage.start == s0.commits
  {
    SingleFlight.Reachable(c, s0, []);
    var xs, u := ReachReady(c, s0, 0, inst, e);
    if e.Field? {
      var ys;
      ys, t := ReachLoad(c, u, 0, inst, e);
      Concat(c, s0, xs, ys);
      steps := xs + ys;
    } else {
      Append(c, s0, xs, Act(0, CallLoader));
      steps, t := xs + [Act(0, CallLoader)], Apply(c, u, Act(0, CallLoader));
    }
  }

  /** A commit and a delete that fall into a load: the load goes on to store what it read before the
      commit, and a request that arrives after the delete gets it. */
  lemma StaleAfterDelete(c: Config, s0: State, inst: nat, e: Entry)
    returns (before: seq<Step>, after: seq<Step>, r: nat)
    requires Freshness.Working(c) && Init(s0) && Serves(c, inst, e) && !LoadBound.Present(c, s0, e)
    ensures Legal(c, s0, before + Rewrite(e))
    ensures var s := Run(c, s0, before + Rewrite(e));
            && s.commits == s0.commits + 1 && e !in s.store
            && Freshness.ReturnsOlder(c, s, after, r, e, s.commits)
  {
    var u;
    before, u := FirstLoad(c, s0, inst, e);
    TwoSteps(c, u, Commit, Invalidate({e}));
    Concat(c, s0, before, Rewrite(e));
    var s, n := Run(c, s0, before + Rewrite(e)), s0.commits + 1;
    Freshness.WorkingLands(c, inst, e, s0.commits);
    assert Freshness.LoomingRequest(c, s.reqs[0], e, n);
    after, r := Freshness.LoomingReturns(c, s0, before + Rewrite(e), e, n);
  }

  /** The same with nobody left at work: the loading request is cancelled at its write and gone, and the
      write, already sent, lands after the delete. */
  lemma StaleAfterCancel(c: Config, s0: State, inst: nat, e: Entry)
    returns (before: seq<Step>, after: seq<Step>, r: nat)
    requires Freshness.Working(c) && Init(s0) && Serves(c, inst, e) && !LoadBound.Present(c, s0, e)
    ensures Legal(c, s0, before + Rewrite(e))
    ensures var s := Run(c, s0, before + Rewrite(e));
            && s.commits == s0.commits + 1 && e !in s.store
            && s.reqs.Keys == {0} && s.reqs[0].pc == Done(Cancelled)
            && Freshness.ReturnsOlder(c, s, after, r, e, s.commits)
  {
    var xs, u := FirstLoad(c, s0, inst, e);
    var ys, v, cmd := Abandon(c, u, 0, e);
    Concat(c, s0, xs, ys);
    before := xs + ys;
    TwoSteps(c, v, Commit, Invalidate({e}));
    Concat(c, s0, before, Rewrite(e));
    var s, n := Run(c, s0, before + Rewrite(e)), s0.commits + 1;
    assert cmd in s.wire && Freshness.LoomingCommand(c, cmd, e, n);
    after, r := Freshness.LoomingReturns(c, s0, before + Rewrite(e), e, n);
  }

  /** The loader returns what it saw when it began; the request is dropped while its write is sent. */
  lemma Abandon(c: Config, s: State, r: nat, e: Entry) returns (steps: seq<Step>, t: State, cmd: Command)
    requires Freshness.Working(c) && LoadingAt(s, r, e) && s.reqs[r].pc.stage.start <= s.commits
    ensures Legal(c, s, steps) && Run(c, s, steps) == t
    ensures t == s.(reqs := s.reqs[r := s.reqs[r].(pc := Done(Cancelled))], locks := t.locks, wire := s.wire + {cmd})
    ensures Freshness.LoomingCommand(c, cmd, e, s.reqs[r].pc.stage.start + 1)
  {
    var xs, u;
    xs, u, cmd := DropWrite(c, s, r, e);
    var unlock, leave := Act(r, Release), Act(r, Leave);
    t := Apply(c, Apply(c, u, unlock), leave);
    TwoSteps(c, u, unlock, leave);
    Concat(c, s, xs, [unlock, leave]);
    steps := xs + [unlock, leave];
  }

  lemma DropWrite(c: Config, s: State, r: nat, e: Entry) returns (steps: seq<Step>, t: State, cmd: Command)
    requires Freshness.Working(c) && LoadingAt(s, r, e) && s.reqs[r].pc.stage.start <= s.commits
    ensures Legal(c, s, steps) && Run(c, s, steps) == t
    ensures var pc := Inside(s.reqs[r].pc.lock, Unlock(Cancelled));
            t == s.(reqs := s.reqs[r := s.reqs[r].(pc := pc)], wire := s.wire + {cmd})
    ensures Freshness.LoomingCommand(c, cmd, e, s.reqs[r].pc.stage.start + 1)
  {
    var start := s.reqs[r].pc.stage.start;
    Freshness.WorkingLands(c, s.reqs[r].inst, e, start);
    var load, drop := Act(r, LoaderReturns(start, 0)), Act(r, Cancel(true));
    var u := Apply(c, s, load);
    cmd, t := Pending(r, u.reqs[r]).value, Apply(c, u, drop);
    TwoSteps(c, s, load, drop);
    steps := [load, drop];
  }
}
