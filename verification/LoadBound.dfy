/** How often an entry can be filled while nothing takes it away. */
module LoadBound {
  import opened Texts
  import opened Protocol
  import SingleFlight

  ghost predicate RoundTrips(c: Config) {
    forall v :: c.encode(v).Some? ==> c.decode(c.encode(v).value) == Some(v)
  }

  predicate Present(c: Config, s: State, e: Entry) { Lookup(c, s, e).Some? }

  predicate On(s: State, r: nat, e: Entry) { r in s.reqs && s.reqs[r].entry == e }

  /** No failing read or write of `e`, nothing deletes or overwrites it, and it does not expire.
      Bids for the cross-node lock may fail at will, loaders may fail, requests may be cancelled. */
  predicate Healthy(c: Config, s: State, step: Step, e: Entry)
    requires Enabled(c, s, step)
  {
    match step
    case Act(r, Read(fails)) => On(s, r, e) ==> !fails
    case Act(r, Write(reply)) => On(s, r, e) ==> reply.Acked?
    case Deliver(cmd, withdrawn) => cmd.Put? && cmd.entry == e ==> !withdrawn
    case Tick(_) => Present(c, s, e) ==> Present(c, Apply(c, s, step), e)
    case Invalidate(gone) => e !in gone
    case Corrupt(entry, _, _) => entry != e
    case _ => true
  }

  ghost predicate HealthyRun(c: Config, s: State, steps: seq<Step>, e: Entry)
    requires Legal(c, s, steps)
    decreases |steps|
  {
    steps == [] || (Healthy(c, s, steps[0], e) && HealthyRun(c, Apply(c, s, steps[0]), steps[1..], e))
  }

  /** A completed fill of `e`. */
  predicate IsFill(s: State, step: Step, e: Entry) {
    step.Act? && step.action == Write(Acked) && On(s, step.r, e)
  }

  ghost function Fills(c: Config, s: State, steps: seq<Step>, e: Entry): nat
    requires Legal(c, s, steps)
    decreases |steps|
  {
    if steps == [] then 0
    else (if IsFill(s, steps[0], e) then 1 else 0) + Fills(c, Apply(c, s, steps[0]), steps[1..], e)
  }

  /** The instances that fill `e` along the run. */
  ghost function Fillers(c: Config, s: State, steps: seq<Step>, e: Entry): set<nat>
    requires Legal(c, s, steps)
    decreases |steps|
  {
    if steps == [] then {}
    else (if IsFill(s, steps[0], e) then {s.reqs[steps[0].r].inst} else {})
         + Fillers(c, Apply(c, s, steps[0]), steps[1..], e)
  }

  // ---- Whatever is about to be written can be read back ----

  predicate ReadableRequest(c: Config, q: Request) {
    q.pc.Inside? && q.pc.stage.Fill? ==> c.decode(q.pc.stage.payload).Some?
  }

  predicate ReadablePut(c: Config, cmd: Command) {
    cmd.Put? ==> c.decode(cmd.payload).Some? && Sendable(cmd.ttl)
  }

  ghost predicate Readable(c: Config, s: State) {
    && (forall r <- s.reqs :: ReadableRequest(c, s.reqs[r]))
    && (forall cmd <- s.wire :: ReadablePut(c, cmd))
  }

  lemma ReadableKeeps(c: Config, s: State, step: Step)
    requires RoundTrips(c) && Readable(c, s) && Enabled(c, s, step)
    ensures Readable(c, Apply(c, s, step))
  {
  }

  // ---- Once an instance has filled the entry ----

  /** The entry can be read, and nobody on this instance is past the second read without it. */
  ghost predicate Settled(c: Config, s: State, inst: nat, e: Entry) {
    && Present(c, s, e)
    && (forall r <- s.reqs :: s.reqs[r].inst == inst && s.reqs[r].entry == e ==> Calm(s.reqs[r].pc))
  }

  predicate Calm(pc: Pc) {
    pc.Inside? ==> pc.stage.Recheck? || pc.stage.Unbid? || pc.stage.Unlock?
  }

  lemma SettledKeeps(c: Config, s: State, step: Step, inst: nat, e: Entry)
    requires Readable(c, s) && Settled(c, s, inst, e) && Enabled(c, s, step) && Healthy(c, s, step, e)
    ensures Settled(c, Apply(c, s, step), inst, e)
    ensures IsFill(s, step, e) ==> s.reqs[step.r].inst != inst
  {
  }

  lemma {:induction false} SettledNeverFills(c: Config, s: State, steps: seq<Step>, inst: nat, e: Entry)
    requires RoundTrips(c) && Readable(c, s) && Settled(c, s, inst, e)
    requires Legal(c, s, steps) && HealthyRun(c, s, steps, e)
    ensures inst !in Fillers(c, s, steps, e)
    decreases |steps|
  {
    if steps != [] {
      SettledKeeps(c, s, steps[0], inst, e);
      ReadableKeeps(c, s, steps[0]);
      SettledNeverFills(c, Apply(c, s, steps[0]), steps[1..], inst, e);
    }
  }

  /** Whoever fills holds the mutex, so nobody else on the instance is past the second read. */
  lemma FillSettles(c: Config, s: State, step: Step, e: Entry)
    requires Readable(c, s) && SingleFlight.FlightInv(c, s) && Enabled(c, s, step) && IsFill(s, step, e)
    ensures Settled(c, Apply(c, s, step), s.reqs[step.r].inst, e)
  {
  }

  // ---- Theorems ----

  lemma FillerNeverReturns(c: Config, s: State, steps: seq<Step>, e: Entry)
    requires RoundTrips(c) && Readable(c, s) && SingleFlight.FlightInv(c, s)
    requires Legal(c, s, steps) && HealthyRun(c, s, steps, e) && steps != [] && IsFill(s, steps[0], e)
    ensures s.reqs[steps[0].r].inst !in Fillers(c, Apply(c, s, steps[0]), steps[1..], e)
  {
    FillSettles(c, s, steps[0], e);
    ReadableKeeps(c, s, steps[0]);
    SettledNeverFills(c, Apply(c, s, steps[0]), steps[1..], s.reqs[steps[0].r].inst, e);
  }

  /** No instance fills the entry twice: there are exactly as many fills as instances that fill. */
  lemma {:induction false} OneFillPerInstance(c: Config, s: State, steps: seq<Step>, e: Entry)
    requires RoundTrips(c) && Readable(c, s) && SingleFlight.FlightInv(c, s)
    requires Legal(c, s, steps) && HealthyRun(c, s, steps, e)
    ensures Fills(c, s, steps, e) == |Fillers(c, s, steps, e)|
    decreases |steps|
  {
    if steps != [] {
      SingleFlight.StepKeeps(c, s, steps[0]);
      ReadableKeeps(c, s, steps[0]);
      OneFillPerInstance(c, Apply(c, s, steps[0]), steps[1..], e);
      var later := Fillers(c, Apply(c, s, steps[0]), steps[1..], e);
      if IsFill(s, steps[0], e) {
        FillerNeverReturns(c, s, steps, e);
        assert |{s.reqs[steps[0].r].inst} + later| == 1 + |later|;
      } else {
        assert {} + later == later;
      }
    }
  }

  ghost predicate ServedBy(s: State, e: Entry, nodes: set<nat>) {
    forall r <- s.reqs :: s.reqs[r].entry == e ==> s.reqs[r].inst in nodes
  }

  predicate ArrivesAt(step: Step, e: Entry, nodes: set<nat>) {
    step.Arrive? && step.entry == e ==> step.inst in nodes
  }

  lemma {:induction false} FillersServe(c: Config, s: State, steps: seq<Step>, e: Entry, nodes: set<nat>)
    requires Legal(c, s, steps) && ServedBy(s, e, nodes)
    requires forall step <- steps :: ArrivesAt(step, e, nodes)
    ensures Fillers(c, s, steps, e) <= nodes
    decreases |steps|
  {
    if steps != [] {
      assert ArrivesAt(steps[0], e, nodes);
      FillersServe(c, Apply(c, s, steps[0]), steps[1..], e, nodes);
    }
  }

  lemma {:induction false} SubsetSize<T>(a: set<T>, b: set<T>)
    requires a <= b
    ensures |a| <= |b|
  {
    if a != {} {
      var x :| x in a;
      SubsetSize(a - {x}, b - {x});
    }
  }

  /** From any start, however many requests arrive and whatever the cross-node lock does, N instances
      complete at most N fills of an entry while nothing takes it away. */
  lemma AtMostOnePerNode(c: Config, s0: State, steps: seq<Step>, e: Entry, nodes: set<nat>)
    requires RoundTrips(c) && Init(s0) && Legal(c, s0, steps) && HealthyRun(c, s0, steps, e)
    requires forall step <- steps :: ArrivesAt(step, e, nodes)
    ensures Fills(c, s0, steps, e) <= |nodes|
  {
    OneFillPerInstance(c, s0, steps, e);
    FillersServe(c, s0, steps, e, nodes);
    SubsetSize(Fillers(c, s0, steps, e), nodes);
  }
}
