/** What a request does, told in the order of the code: every run of the machine makes every request
    follow this telling, and end as it says. */
module Story {
  import opened Texts
  import opened Protocol
  import Leases
  import SingleFlight
  import Outcomes

  /** An action of a request, with what the request could see when it took it. */
  datatype Event = Event(action: Action, shown: Option<(Value, nat)>, free: bool, now: nat, commits: nat)

  function Seen(c: Config, s: State, r: nat, a: Action): Event
    requires r in s.reqs
  {
    var e := s.reqs[r].entry;
    Event(a, Lookup(c, s, e), !Leases.Live(s.leases, s.now, LeaseKey(e)), s.now, s.commits)
  }

  /** The events of one request along a run. */
  ghost function Events(c: Config, s: State, steps: seq<Step>, r: nat): seq<Event>
    requires Legal(c, s, steps)
    decreases |steps|
  {
    if steps == [] then []
    else
      var rest := Events(c, Apply(c, s, steps[0]), steps[1..], r);
      if steps[0].Act? && steps[0].r == r then [Seen(c, s, r, steps[0].action)] + rest else rest
  }

  // ---- The telling ----

  /** Events that break the telling, that stop before its end, or that bring it to its end. */
  datatype Tale = Wrong | Open | Over(outcome: Outcome)

  function Ended(o: Outcome, evs: seq<Event>): Tale { if evs == [] then Over(o) else Wrong }

  /** What a read returned. */
  function Hit(ev: Event): Option<(Value, nat)>
    requires ev.action.Read?
  {
    if ev.action.fails then None else ev.shown
  }

  /** `get_or_load`: the first read, then the flight. */
  function Call(c: Config, e: Entry, evs: seq<Event>): Tale
    decreases |evs|
  {
    if evs == [] then Open
    else match evs[0].action
      case Cancel(_) => Ended(Cancelled, evs[1..])
      case Read(_) => (
        match Hit(evs[0])
        case Some((v, version)) => Ended(Ok(v, version), evs[1..])
        case None => Enter(c, e, evs[1..])
      )
      case _ => Wrong
  }

  function Enter(c: Config, e: Entry, evs: seq<Event>): Tale
    decreases |evs|
  {
    if evs == [] then Open
    else if evs[0].action.Register? then Queue(c, e, evs[1..])
    else Wrong
  }

  function Queue(c: Config, e: Entry, evs: seq<Event>): Tale
    decreases |evs|
  {
    if evs == [] then Open
    else match evs[0].action
      case Cancel(_) => Leaves(Cancelled, evs[1..])
      case Lock => Again(c, e, evs[1..])
      case _ => Wrong
  }

  /** The second read; a second miss goes to the cross-node lock, or straight to the loader. */
  function Again(c: Config, e: Entry, evs: seq<Event>): Tale
    decreases |evs|
  {
    if evs == [] then Open
    else match evs[0].action
      case Cancel(_) => Guards(Cancelled, evs[1..])
      case Read(_) => (
        match Hit(evs[0])
        case Some((v, version)) => Guards(Ok(v, version), evs[1..])
        case None => if e.Field? then Bids(c, e, evs[1..]) else Loads(c, e, false, evs[1..])
      )
      case _ => Wrong
  }

  /** Only an acknowledged bid for a free lock makes an owner. */
  function Bids(c: Config, e: Entry, evs: seq<Event>): Tale
    decreases |evs|
  {
    if evs == [] then Open
    else match evs[0].action
      case Cancel(_) => Guards(Cancelled, evs[1..])
      case SendBid(reply) =>
        if reply.Acked? && evs[0].free then Loads(c, e, true, evs[1..]) else Waits(c, e, evs[1..])
      case _ => Wrong
  }

  function Waits(c: Config, e: Entry, evs: seq<Event>): Tale
    decreases |evs|
  {
    if evs == [] then Open
    else if evs[0].action.BeginWait? then Polls(c, e, evs[0].now, evs[1..])
    else Wrong
  }

  /** The loop head: until 1000 ms are over, sleep 20 ms and look again. */
  function Polls(c: Config, e: Entry, since: nat, evs: seq<Event>): Tale
    decreases |evs|
  {
    if evs == [] then Open
    else if !evs[0].action.Turn? then Wrong
    else if evs[0].now < since + 1000 then Naps(c, e, since, evs[0].now + 20, evs[1..])
    else Loads(c, e, false, evs[1..])
  }

  function Naps(c: Config, e: Entry, since: nat, wake: nat, evs: seq<Event>): Tale
    decreases |evs|
  {
    if evs == [] then Open
    else match evs[0].action
      case Cancel(_) => Guards(Cancelled, evs[1..])
      case Wake => if wake <= evs[0].now then Peeks(c, e, since, evs[1..]) else Wrong
      case _ => Wrong
  }

  function Peeks(c: Config, e: Entry, since: nat, evs: seq<Event>): Tale
    decreases |evs|
  {
    if evs == [] then Open
    else match evs[0].action
      case Cancel(_) => Guards(Cancelled, evs[1..])
      case Read(_) => (
        match Hit(evs[0])
        case Some((v, version)) => Guards(Ok(v, version), evs[1..])
        case None => Polls(c, e, since, evs[1..])
      )
      case _ => Wrong
  }

  /** The loader, serialisation and the write; whatever comes of it, an owner then releases. */
  function Loads(c: Config, e: Entry, owner: bool, evs: seq<Event>): Tale
    decreases |evs|
  {
    if evs == [] then Open
    else if evs[0].action.CallLoader? then Runs(c, e, owner, evs[0].commits, evs[1..])
    else Wrong
  }

  function Runs(c: Config, e: Entry, owner: bool, begun: nat, evs: seq<Event>): Tale
    decreases |evs|
  {
    if evs == [] then Open
    else match evs[0].action
      case Cancel(_) => Guards(Cancelled, evs[1..])
      case LoaderFails => After(owner, LoaderFailed, evs[1..])
      case LoaderReturns(version, jitter) =>
        if !(begun <= version <= evs[0].commits && jitter <= 1000) then Wrong
        else if c.encode(c.content(e, version)).None? then After(owner, EncodeFailed, evs[1..])
        else Writes(owner, Ok(c.content(e, version), version), evs[1..])
      case _ => Wrong
  }

  /** The outcome does not depend on how the write went. */
  function Writes(owner: bool, o: Outcome, evs: seq<Event>): Tale
    decreases |evs|
  {
    if evs == [] then Open
    else match evs[0].action
      case Cancel(_) => Guards(Cancelled, evs[1..])
      case Write(_) => After(owner, o, evs[1..])
      case _ => Wrong
  }

  function After(owner: bool, o: Outcome, evs: seq<Event>): Tale
    decreases |evs|, 1
  {
    if owner then Releases(o, evs) else Guards(o, evs)
  }

  function Releases(o: Outcome, evs: seq<Event>): Tale
    decreases |evs|
  {
    if evs == [] then Open
    else match evs[0].action
      case Cancel(_) => Guards(Cancelled, evs[1..])
      case SendUnbid(_) => Guards(o, evs[1..])
      case _ => Wrong
  }

  /** The mutex guard drops, then the registration. */
  function Guards(o: Outcome, evs: seq<Event>): Tale {
    if evs == [] then Open
    else if evs[0].action.Release? then Leaves(o, evs[1..])
    else Wrong
  }

  function Leaves(o: Outcome, evs: seq<Event>): Tale {
    if evs == [] then Open
    else if evs[0].action.Leave? then Ended(o, evs[1..])
    else Wrong
  }

  // ---- The machine tells it ----

  /** The telling from a program point on. */
  function From(c: Config, q: Request, evs: seq<Event>): Tale {
    match q.pc
    case Probe => Call(c, q.entry, evs)
    case Miss => Enter(c, q.entry, evs)
    case Queued(_) => Queue(c, q.entry, evs)
    case Leaving(_, o) => Leaves(o, evs)
    case Done(o) => Ended(o, evs)
    case Inside(_, stage) =>
      match stage
      case Recheck => Again(c, q.entry, evs)
      case Bid => Bids(c, q.entry, evs)
      case Outbid => Waits(c, q.entry, evs)
      case PollHead(since, _) => Polls(c, q.entry, since, evs)
      case Nap(since, _, wake) => Naps(c, q.entry, since, wake, evs)
      case Peek(since, _) => Peeks(c, q.entry, since, evs)
      case Call(permit) => Loads(c, q.entry, permit.Owned?, evs)
      case Loading(permit, start) => Runs(c, q.entry, permit.Owned?, start, evs)
      case Fill(permit, value, _, _, version) => Writes(permit.Owned?, Ok(value, version), evs)
      case Unbid(o) => Releases(o, evs)
      case Unlock(o) => Guards(o, evs)
  }

  lemma CancelTells(c: Config, q: Request, ev: Event, more: seq<Event>)
    requires AtAwait(q.pc) && ev.action.Cancel?
    ensures From(c, q, [ev] + more) == From(c, q.(pc := AfterCancel(q.pc)), more)
  {
    assert ([ev] + more)[1..] == more;
  }

  lemma ActTells(c: Config, s: State, r: nat, a: Action, more: seq<Event>)
    requires Can(c, s, r, a) && (c.settings(s.reqs[r].inst).grouped <==> s.reqs[r].entry.Field?)
    ensures From(c, s.reqs[r], [Seen(c, s, r, a)] + more) == From(c, s.reqs[r].(pc := NextPc(c, s, r, a)), more)
  {
    if a.Cancel? {
      CancelTells(c, s.reqs[r], Seen(c, s, r, a), more);
    } else {
      assert ([Seen(c, s, r, a)] + more)[1..] == more;
    }
  }

  /** One step, whoever takes it. */
  lemma StepTells(c: Config, s: State, steps: seq<Step>, r: nat)
    requires SingleFlight.FlightInv(c, s) && Legal(c, s, steps) && steps != [] && r in s.reqs
    ensures var s' := Apply(c, s, steps[0]);
            && r in s'.reqs
            && From(c, s.reqs[r], Events(c, s, steps, r)) == From(c, s'.reqs[r], Events(c, s', steps[1..], r))
  {
    if steps[0].Act? && steps[0].r == r {
      ActTells(c, s, r, steps[0].action, Events(c, Apply(c, s, steps[0]), steps[1..], r));
    }
  }

  lemma {:induction false} RunTells(c: Config, s: State, steps: seq<Step>, r: nat)
    requires SingleFlight.FlightInv(c, s) && Legal(c, s, steps) && r in s.reqs
    ensures r in Run(c, s, steps).reqs
    ensures var pc := Run(c, s, steps).reqs[r].pc;
            From(c, s.reqs[r], Events(c, s, steps, r)) == if pc.Done? then Over(pc.outcome) else Open
    decreases |steps|
  {
    if steps != [] {
      StepTells(c, s, steps, r);
      SingleFlight.StepKeeps(c, s, steps[0]);
      RunTells(c, Apply(c, s, steps[0]), steps[1..], r);
    }
  }

  lemma {:induction false} ArrivalTells(c: Config, s: State, steps: seq<Step>, r: nat)
    requires SingleFlight.FlightInv(c, s) && Legal(c, s, steps) && r !in s.reqs && r in Run(c, s, steps).reqs
    ensures var q := Run(c, s, steps).reqs[r];
            Call(c, q.entry, Events(c, s, steps, r)) == if q.pc.Done? then Over(q.pc.outcome) else Open
    decreases |steps|
  {
    if steps != [] {
      var s' := Apply(c, s, steps[0]);
      SingleFlight.StepKeeps(c, s, steps[0]);
      if r in s'.reqs {
        RunTells(c, s', steps[1..], r);
        Outcomes.EntryStays(c, s', steps[1..], r);
      } else {
        ArrivalTells(c, s', steps[1..], r);
      }
    }
  }

  // ---- Theorems ----

  /** In every run every request does what the code says, in the code's order: its events never break
      the telling, and it has finished with an outcome exactly when they tell that outcome. */
  lemma FollowsTheCode(c: Config, s0: State, steps: seq<Step>, r: nat)
    requires Init(s0) && Legal(c, s0, steps) && r in Run(c, s0, steps).reqs
    ensures var q := Run(c, s0, steps).reqs[r];
            Call(c, q.entry, Events(c, s0, steps, r)) == if q.pc.Done? then Over(q.pc.outcome) else Open
  {
    ArrivalTells(c, s0, steps, r);
  }

  /** On the way out, nothing can change a request's mind. */
  predicate OnTheWayOut(pc: Pc, o: Outcome) {
    pc == Done(o) || (pc.Leaving? && pc.outcome == o) || (pc.Inside? && pc.stage == Unlock(o))
  }

  lemma {:induction false} WayOutKeeps(c: Config, s: State, steps: seq<Step>, r: nat, o: Outcome)
    requires Legal(c, s, steps) && r in s.reqs && OnTheWayOut(s.reqs[r].pc, o)
    ensures r in Run(c, s, steps).reqs && OnTheWayOut(Run(c, s, steps).reqs[r].pc, o)
    ensures Outcomes.Calls(steps, r) == 0
    decreases |steps|
  {
    if steps != [] { WayOutKeeps(c, Apply(c, s, steps[0]), steps[1..], r, o); }
  }

  /** A hit settles it, at the first read, at the second and at every poll: what the store shows is the
      outcome from then on, and the loader is not called any more. */
  lemma HitSettles(c: Config, s: State, r: nat, after: seq<Step>)
    requires Can(c, s, r, Read(false)) && Lookup(c, s, s.reqs[r].entry).Some?
    requires Legal(c, Do(c, s, r, Read(false)), after)
    ensures var (v, version) := Lookup(c, s, s.reqs[r].entry).value;
            var reqs := Run(c, Do(c, s, r, Read(false)), after).reqs;
            r in reqs && OnTheWayOut(reqs[r].pc, Ok(v, version)) && Outcomes.Calls(after, r) == 0
  {
    var (v, version) := Lookup(c, s, s.reqs[r].entry).value;
    WayOutKeeps(c, Do(c, s, r, Read(false)), after, r, Ok(v, version));
  }

  // ---- Releases ----

  /** How often `r` releases the cross-node lock. */
  function Releasings(steps: seq<Step>, r: nat): nat {
    if steps == [] then 0
    else (if steps[0].Act? && steps[0].r == r && steps[0].action.SendUnbid? then 1 else 0) + Releasings(steps[1..], r)
  }

  /** The bid by which `r` is granted the lock. */
  predicate IsGrant(s: State, step: Step, r: nat) {
    && step == Act(r, SendBid(Acked)) && r in s.reqs
    && !Leases.Live(s.leases, s.now, LeaseKey(s.reqs[r].entry))
  }

  ghost function Grants(c: Config, s: State, steps: seq<Step>, r: nat): nat
    requires Legal(c, s, steps)
    decreases |steps|
  {
    if steps == [] then 0
    else (if IsGrant(s, steps[0], r) then 1 else 0) + Grants(c, Apply(c, s, steps[0]), steps[1..], r)
  }

  predicate Cancels(steps: seq<Step>, r: nat) { exists step <- steps :: Outcomes.IsCancel(step, r) }

  /** Granted the lock and not yet released it. */
  function Owes(pc: Pc): nat {
    if !pc.Inside? then 0
    else match pc.stage
      case Call(Owned(_)) => 1
      case Loading(Owned(_), _) => 1
      case Fill(Owned(_), _, _, _, _) => 1
      case Unbid(_) => 1
      case _ => 0
  }

  /** Still before its bid. */
  predicate BeforeBid(pc: Pc) {
    pc.Probe? || pc.Miss? || pc.Queued? || (pc.Inside? && (pc.stage.Recheck? || pc.stage.Bid?))
  }

  lemma OwesStep(c: Config, s: State, r: nat, a: Action)
    requires Can(c, s, r, a) && !a.Cancel?
    ensures Owes(NextPc(c, s, r, a)) + (if a.SendUnbid? then 1 else 0)
         == Owes(s.reqs[r].pc) + (if IsGrant(s, Act(r, a), r) then 1 else 0)
    ensures BeforeBid(NextPc(c, s, r, a)) ==> BeforeBid(s.reqs[r].pc)
    ensures IsGrant(s, Act(r, a), r) ==> BeforeBid(s.reqs[r].pc) && !BeforeBid(NextPc(c, s, r, a))
  {
  }

  lemma {:induction false} ReleasesOwed(c: Config, s: State, steps: seq<Step>, r: nat)
    requires Legal(c, s, steps) && !Cancels(steps, r)
    requires r in Run(c, s, steps).reqs && Run(c, s, steps).reqs[r].pc.Done?
    ensures Releasings(steps, r) == (if r in s.reqs then Owes(s.reqs[r].pc) else 0) + Grants(c, s, steps, r)
    ensures Grants(c, s, steps, r) <= if r in s.reqs && !BeforeBid(s.reqs[r].pc) then 0 else 1
    decreases |steps|
  {
    if steps != [] {
      assert !Outcomes.IsCancel(steps[0], r);
      assert forall step <- steps[1..] :: step in steps;
      ReleasesOwed(c, Apply(c, s, steps[0]), steps[1..], r);
      if steps[0].Act? && steps[0].r == r { OwesStep(c, s, r, steps[0].action); }
    }
  }

  /** Granted the lock, about to call its loader. */
  function CallDue(pc: Pc): nat { if pc.Inside? && pc.stage.Call? && pc.stage.permit.Owned? then 1 else 0 }

  lemma CallDueStep(c: Config, s: State, r: nat, a: Action)
    requires Can(c, s, r, a) && !a.Cancel?
    ensures CallDue(NextPc(c, s, r, a)) + (if a.CallLoader? then 1 else 0)
         >= CallDue(s.reqs[r].pc) + (if IsGrant(s, Act(r, a), r) then 1 else 0)
  {
  }

  lemma {:induction false} GrantedCalls(c: Config, s: State, steps: seq<Step>, r: nat)
    requires Legal(c, s, steps) && !Cancels(steps, r)
    requires r in Run(c, s, steps).reqs && Run(c, s, steps).reqs[r].pc.Done?
    ensures (if r in s.reqs then CallDue(s.reqs[r].pc) else 0) + Grants(c, s, steps, r) <= Outcomes.Calls(steps, r)
    decreases |steps|
  {
    if steps != [] {
      assert !Outcomes.IsCancel(steps[0], r);
      assert forall step <- steps[1..] :: step in steps;
      GrantedCalls(c, Apply(c, s, steps[0]), steps[1..], r);
      if steps[0].Act? && steps[0].r == r { CallDueStep(c, s, r, steps[0].action); }
    }
  }

  /** A request that finished uncancelled released the cross-node lock exactly once if it was granted
      it, and never if it was not, whatever came of its load; and if it was granted it, it did load. */
  lemma ReleaseExact(c: Config, s0: State, steps: seq<Step>, r: nat)
    requires Init(s0) && Legal(c, s0, steps) && !Cancels(steps, r)
    requires r in Run(c, s0, steps).reqs && Run(c, s0, steps).reqs[r].pc.Done?
    ensures Releasings(steps, r) == Grants(c, s0, steps, r) <= Outcomes.Calls(steps, r) <= 1
  {
    ReleasesOwed(c, s0, steps, r);
    GrantedCalls(c, s0, steps, r);
    Outcomes.FaultTransparency(c, s0, steps, r);
  }

  /** The release comes after the load, which comes after the grant. */
  lemma ReleaseLast(c: Config, s: State, r: nat, reply: Reply, after: seq<Step>)
    requires Can(c, s, r, SendUnbid(reply)) && Legal(c, Do(c, s, r, SendUnbid(reply)), after)
    ensures Outcomes.Calls(after, r) == 0
  {
    WayOutKeeps(c, Do(c, s, r, SendUnbid(reply)), after, r, s.reqs[r].pc.stage.outcome);
  }
}
