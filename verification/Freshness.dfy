/** Exactly when later requests can no longer see anything older than a given commit, and what that
    makes of a delete and of a TTL. */
module Freshness {
  import opened Texts
  import opened Protocol
  import Ttl
  import SingleFlight
  import Agreement
  import Expiry

  // ---- Older data under way ----

  /** Between the start of its loader and the end of its write, on data older than commit `n`. */
  predicate StaleRequest(q: Request, e: Entry, n: nat) {
    && q.entry == e && q.pc.Inside?
    && match q.pc.stage
       case Loading(_, start) => start < n
       case Fill(_, _, _, _, version) => version < n
       case _ => false
  }

  /** A write still under way although its sender is gone. */
  predicate StaleCommand(cmd: Command, e: Entry, n: nat) {
    cmd.Put? && cmd.entry == e && cmd.version < n
  }

  ghost predicate NoneStale(s: State, e: Entry, n: nat) {
    && (forall r <- s.reqs :: !StaleRequest(s.reqs[r], e, n))
    && (forall cmd <- s.wire :: !StaleCommand(cmd, e, n))
  }

  /** Loaded at this commit, the content serialises, can be read back, and is sent with a TTL the
      store takes. */
  predicate Lands(c: Config, inst: nat, e: Entry, version: nat, jitter: nat) {
    match c.encode(c.content(e, version))
    case None => false
    case Some(payload) => c.decode(payload).Some? && Sendable(FillTtl(c, inst, payload, jitter))
  }

  /** Some commit before `n` that a loader running since `start` may still show would land. */
  ghost predicate MayLand(c: Config, inst: nat, e: Entry, start: nat, n: nat) {
    exists v: nat, jitter: nat :: start <= v < n && jitter <= Ttl.MAX_JITTER_MS && Lands(c, inst, e, v, jitter)
  }

  /** A stale request whose write can still bring older data into view. */
  ghost predicate LoomingRequest(c: Config, q: Request, e: Entry, n: nat) {
    && q.entry == e && q.pc.Inside?
    && match q.pc.stage
       case Loading(_, start) => MayLand(c, q.inst, e, start, n)
       case Fill(_, _, payload, ttl, version) => version < n && Sendable(ttl) && c.decode(payload).Some?
       case _ => false
  }

  predicate LoomingCommand(c: Config, cmd: Command, e: Entry, n: nat) {
    StaleCommand(cmd, e, n) && Sendable(cmd.ttl) && c.decode(cmd.payload).Some?
  }

  ghost predicate NoneLooming(c: Config, s: State, e: Entry, n: nat) {
    && (forall r <- s.reqs :: !LoomingRequest(c, s.reqs[r], e, n))
    && (forall cmd <- s.wire :: !LoomingCommand(c, cmd, e, n))
  }

  /** Reading the entry now would not show anything older than commit `n`. */
  predicate NoneShown(c: Config, s: State, e: Entry, n: nat) {
    match Lookup(c, s, e) case None => true case Some((_, version)) => n <= version
  }

  // ---- Once nothing older is shown or looming ----

  predicate RecentRequest(q: Request, e: Entry, n: nat) {
    && !StaleRequest(q, e, n)
    && (q.entry == e ==> match Agreement.OutcomeOf(q.pc) case Some(Ok(_, version)) => n <= version case _ => true)
  }

  /** Nothing older than `n` is shown, looming, or in the hands of a request outside `earlier`. */
  ghost predicate RecentInv(c: Config, s: State, e: Entry, n: nat, earlier: set<nat>) {
    && n <= s.commits
    && NoneLooming(c, s, e, n)
    && NoneShown(c, s, e, n)
    && (forall r <- s.reqs :: r !in earlier ==> RecentRequest(s.reqs[r], e, n))
  }

  lemma ActKeepsRecent(c: Config, s: State, r: nat, a: Action, e: Entry, n: nat)
    requires n <= s.commits && NoneShown(c, s, e, n) && Can(c, s, r, a) && RecentRequest(s.reqs[r], e, n)
    ensures RecentRequest(Do(c, s, r, a).reqs[r], e, n)
  {
  }

  lemma ActKeepsCalm(c: Config, s: State, r: nat, a: Action, e: Entry, n: nat)
    requires n <= s.commits && NoneLooming(c, s, e, n) && Can(c, s, r, a)
    ensures !LoomingRequest(c, Do(c, s, r, a).reqs[r], e, n)
    ensures forall cmd <- Do(c, s, r, a).wire :: !LoomingCommand(c, cmd, e, n)
  {
    var q := s.reqs[r];
    assert !LoomingRequest(c, q, e, n);
    if a.LoaderReturns? && q.entry == e && a.version < n {
      assert !Lands(c, q.inst, e, a.version, a.jitter);
    }
  }

  lemma LoomingKeeps(c: Config, s: State, step: Step, e: Entry, n: nat)
    requires n <= s.commits && NoneLooming(c, s, e, n) && Enabled(c, s, step)
    ensures NoneLooming(c, Apply(c, s, step), e, n)
  {
    if step.Act? { ActKeepsCalm(c, s, step.r, step.action, e, n); }
  }

  lemma ShownKeeps(c: Config, s: State, step: Step, e: Entry, n: nat)
    requires NoneLooming(c, s, e, n) && NoneShown(c, s, e, n) && Enabled(c, s, step)
    ensures NoneShown(c, Apply(c, s, step), e, n)
  {
    if step.Act? { assert !LoomingRequest(c, s.reqs[step.r], e, n); }
    if step.Deliver? { assert !LoomingCommand(c, step.cmd, e, n); }
  }

  lemma StepKeeps(c: Config, s: State, step: Step, e: Entry, n: nat, earlier: set<nat>)
    requires RecentInv(c, s, e, n, earlier) && Enabled(c, s, step)
    ensures RecentInv(c, Apply(c, s, step), e, n, earlier)
  {
    ShownKeeps(c, s, step, e, n);
    LoomingKeeps(c, s, step, e, n);
    if step.Act? && step.r !in earlier { ActKeepsRecent(c, s, step.r, step.action, e, n); }
  }

  lemma {:induction false} RunKeeps(c: Config, s: State, steps: seq<Step>, e: Entry, n: nat, earlier: set<nat>)
    requires RecentInv(c, s, e, n, earlier) && Legal(c, s, steps)
    ensures RecentInv(c, Run(c, s, steps), e, n, earlier)
    decreases |steps|
  {
    if steps != [] {
      StepKeeps(c, s, steps[0], e, n, earlier);
      RunKeeps(c, Apply(c, s, steps[0]), steps[1..], e, n, earlier);
    }
  }

  /** From `s`, a request that arrives later finishes with data older than commit `n`. */
  ghost predicate ReturnsOlder(c: Config, s: State, steps: seq<Step>, r: nat, e: Entry, n: nat) {
    && Legal(c, s, steps) && r !in s.reqs
    && var reqs := Run(c, s, steps).reqs;
       && r in reqs && reqs[r].entry == e && reqs[r].pc.Done?
       && reqs[r].pc.outcome.Ok? && reqs[r].pc.outcome.version < n
  }

  ghost predicate AlwaysRecent(c: Config, s: State, e: Entry, n: nat) {
    forall steps, r :: !ReturnsOlder(c, s, steps, r, e, n)
  }

  /** With nothing older shown or looming, no later request ever gets anything older, under any
      failures, expiries, cancellations and interleavings. */
  lemma RecentSuffices(c: Config, s: State, e: Entry, n: nat)
    requires n <= s.commits && NoneLooming(c, s, e, n) && NoneShown(c, s, e, n)
    ensures AlwaysRecent(c, s, e, n)
  {
    forall steps, r ensures !ReturnsOlder(c, s, steps, r, e, n) {
      if Legal(c, s, steps) && r !in s.reqs && r in Run(c, s, steps).reqs {
        RunKeeps(c, s, steps, e, n, s.reqs.Keys);
        assert RecentRequest(Run(c, s, steps).reqs[r], e, n);
      }
    }
  }

  // ---- Whatever looms can be returned ----

  lemma UnusedId(ids: set<nat>) returns (r: nat)
    ensures r !in ids
  {
    var bound := MaxId(ids);
    r := bound + 1;
  }

  lemma {:induction false} MaxId(ids: set<nat>) returns (m: nat)
    ensures forall i <- ids :: i <= m
  {
    if ids == {} { return 0; }
    var i :| i in ids;
    m := MaxId(ids - {i});
    if m < i { m := i; }
    assert ids == (ids - {i}) + {i};
  }

  /** With an old payload stored, the next request to arrive returns it. */
  lemma ReadsStored(c: Config, s: State, e: Entry, n: nat, inst: nat) returns (steps: seq<Step>, r: nat)
    requires e in s.store && Fresh(s.store[e].expires, s.now) && s.store[e].version < n
    requires c.decode(s.store[e].payload).Some?
    requires c.settings(inst).grouped <==> e.Field?
    ensures ReturnsOlder(c, s, steps, r, e, n)
  {
    r := UnusedId(s.reqs.Keys);
    var arrive, read := Arrive(r, inst, e), Act(r, Read(false));
    var s1 := Apply(c, s, arrive);
    var s2 := Apply(c, s1, read);
    steps := [arrive, read];
    TwoSteps(c, s, arrive, read);
  }

  lemma Prepend(c: Config, s: State, x: Step, steps: seq<Step>, r: nat, e: Entry, n: nat)
    requires Enabled(c, s, x) && Apply(c, s, x).reqs.Keys == s.reqs.Keys
    requires ReturnsOlder(c, Apply(c, s, x), steps, r, e, n)
    ensures ReturnsOlder(c, s, [x] + steps, r, e, n)
  {
  }

  lemma CommandReturns(c: Config, s: State, e: Entry, n: nat, cmd: Command) returns (steps: seq<Step>, r: nat)
    requires cmd in s.wire && LoomingCommand(c, cmd, e, n) && (c.settings(cmd.inst).grouped <==> e.Field?)
    ensures ReturnsOlder(c, s, steps, r, e, n)
  {
    var step := Deliver(cmd, false);
    var rest;
    rest, r := ReadsStored(c, Apply(c, s, step), e, n, cmd.inst);
    Prepend(c, s, step, rest, r, e, n);
    steps := [step] + rest;
  }

  lemma FillReturns(c: Config, s: State, e: Entry, n: nat, q: nat) returns (steps: seq<Step>, r: nat)
    requires q in s.reqs && LoomingRequest(c, s.reqs[q], e, n) && s.reqs[q].pc.stage.Fill?
    requires c.settings(s.reqs[q].inst).grouped <==> e.Field?
    ensures ReturnsOlder(c, s, steps, r, e, n)
  {
    var step := Act(q, Write(Acked));
    var rest;
    rest, r := ReadsStored(c, Apply(c, s, step), e, n, s.reqs[q].inst);
    Prepend(c, s, step, rest, r, e, n);
    steps := [step] + rest;
  }

  lemma LoadReturns(c: Config, s: State, e: Entry, n: nat, q: nat) returns (steps: seq<Step>, r: nat)
    requires q in s.reqs && LoomingRequest(c, s.reqs[q], e, n) && s.reqs[q].pc.stage.Loading?
    requires n <= s.commits && (c.settings(s.reqs[q].inst).grouped <==> e.Field?)
    ensures ReturnsOlder(c, s, steps, r, e, n)
  {
    var v: nat, jitter: nat :| s.reqs[q].pc.stage.start <= v < n && jitter <= Ttl.MAX_JITTER_MS
                               && Lands(c, s.reqs[q].inst, e, v, jitter);
    var step := Act(q, LoaderReturns(v, jitter));
    var rest;
    rest, r := FillReturns(c, Apply(c, s, step), e, n, q);
    Prepend(c, s, step, rest, r, e, n);
    steps := [step] + rest;
  }

  lemma LoomingReturns(c: Config, s0: State, before: seq<Step>, e: Entry, n: nat) returns (steps: seq<Step>, r: nat)
    requires Init(s0) && Legal(c, s0, before) && n <= Run(c, s0, before).commits
    requires !NoneLooming(c, Run(c, s0, before), e, n)
    ensures ReturnsOlder(c, Run(c, s0, before), steps, r, e, n)
  {
    SingleFlight.Reachable(c, s0, before);
    Expiry.RunKeeps(c, s0, before);
    var s := Run(c, s0, before);
    if cmd :| cmd in s.wire && LoomingCommand(c, cmd, e, n) {
      assert Expiry.TimedPut(c, cmd);
      steps, r := CommandReturns(c, s, e, n, cmd);
    } else {
      var q :| q in s.reqs && LoomingRequest(c, s.reqs[q], e, n);
      if s.reqs[q].pc.stage.Fill? {
        steps, r := FillReturns(c, s, e, n, q);
      } else {
        steps, r := LoadReturns(c, s, e, n, q);
      }
    }
  }

  // ---- Theorems ----

  /** Freshness is exact, for every codec and all settings. In every reachable state, all later
      requests for `e` are safe from data older than commit `n` if and only if the store does not show
      older data now and no older data can still land: no load begun on older data that would
      serialise, read back and be stored is between the start of its loader and the end of its write,
      on any instance. */
  lemma RecentExact(c: Config, s0: State, before: seq<Step>, e: Entry, n: nat, inst: nat)
    requires Init(s0) && Legal(c, s0, before)
    requires n <= Run(c, s0, before).commits && (c.settings(inst).grouped <==> e.Field?)
    ensures var s := Run(c, s0, before);
            AlwaysRecent(c, s, e, n) <==> NoneShown(c, s, e, n) && NoneLooming(c, s, e, n)
  {
    var s := Run(c, s0, before);
    if !NoneLooming(c, s, e, n) {
      var steps, r := LoomingReturns(c, s0, before, e, n);
    } else if !NoneShown(c, s, e, n) {
      var steps, r := ReadsStored(c, s, e, n, inst);
    } else {
      RecentSuffices(c, s, e, n);
    }
  }

  /** Hence what a delete gives: safety from older data if and only if, when it took effect, no older
      data could still land. */
  lemma DeleteExact(c: Config, s0: State, before: seq<Step>, gone: set<Entry>, e: Entry, n: nat)
    requires Init(s0) && Legal(c, s0, before)
    requires e in gone && n <= Run(c, s0, before).commits
    ensures var s := Run(c, s0, before);
            AlwaysRecent(c, Apply(c, s, Invalidate(gone)), e, n) <==> NoneLooming(c, s, e, n)
  {
    var s := Run(c, s0, before);
    if NoneLooming(c, s, e, n) {
      RecentSuffices(c, Apply(c, s, Invalidate(gone)), e, n);
    } else {
      Append(c, s0, before, Invalidate(gone));
      var steps, r := LoomingReturns(c, s0, before + [Invalidate(gone)], e, n);
    }
  }

  /** In particular after a delete with no older load or write of the entry under way. */
  lemma DeleteSuffices(c: Config, s: State, gone: set<Entry>, e: Entry, n: nat)
    requires e in gone && n <= s.commits && NoneStale(s, e, n)
    ensures AlwaysRecent(c, Apply(c, s, Invalidate(gone)), e, n)
  {
    StaleIfLooming(c, s, e, n);
    RecentSuffices(c, Apply(c, s, Invalidate(gone)), e, n);
  }

  lemma StaleIfLooming(c: Config, s: State, e: Entry, n: nat)
    requires NoneStale(s, e, n)
    ensures NoneLooming(c, s, e, n)
  {
    forall r <- s.reqs ensures !LoomingRequest(c, s.reqs[r], e, n) { assert !StaleRequest(s.reqs[r], e, n); }
  }

  /** The codec round-trips, the source's content always encodes, and no TTL is configured as zero. */
  ghost predicate Working(c: Config) {
    && (forall e, n :: c.encode(c.content(e, n)).Some?)
    && (forall v :: c.encode(v).Some? ==> c.decode(c.encode(v).value) == Some(v))
    && (forall i :: c.settings(i).cacheSecs > 0 && c.settings(i).nullSecs > 0)
  }

  lemma DrawnSendable(c: Config, inst: nat, payload: Text, ttl: Option<nat>)
    requires Working(c) && Expiry.Drawn(c, inst, payload, ttl)
    ensures Sendable(ttl)
  {
  }

  lemma WorkingLands(c: Config, inst: nat, e: Entry, version: nat)
    requires Working(c)
    ensures Lands(c, inst, e, version, 0)
  {
    var payload := c.encode(c.content(e, version)).value;
    DrawnSendable(c, inst, payload, FillTtl(c, inst, payload, 0));
  }

  lemma StaleRequestLooms(c: Config, q: Request, e: Entry, n: nat, commits: nat)
    requires Working(c) && StaleRequest(q, e, n)
    requires Agreement.TrueRequest(c, q, commits) && Expiry.TimedRequest(c, q)
    ensures LoomingRequest(c, q, e, n)
  {
    if q.pc.stage.Fill? {
      DrawnSendable(c, q.inst, q.pc.stage.payload, q.pc.stage.ttl);
    } else {
      WorkingLands(c, q.inst, e, q.pc.stage.start);
    }
  }

  /** With a working codec and no zero TTL, all that is under way can land: then the exact condition
      is simply that no load begun on older data is between loader start and end of its write. */
  lemma LoomingIsStale(c: Config, s0: State, before: seq<Step>, e: Entry, n: nat)
    requires Working(c) && Init(s0) && Agreement.TrueStore(c, s0) && Legal(c, s0, before)
    ensures var s := Run(c, s0, before); NoneLooming(c, s, e, n) <==> NoneStale(s, e, n)
  {
    SingleFlight.Reachable(c, s0, before);
    assert Agreement.Faithful(c);
    Agreement.RunKeeps(c, s0, before);
    Expiry.RunKeeps(c, s0, before);
    var s := Run(c, s0, before);
    if NoneStale(s, e, n) {
      StaleIfLooming(c, s, e, n);
    } else if cmd :| cmd in s.wire && StaleCommand(cmd, e, n) {
      assert Expiry.TimedPut(c, cmd);
      assert LoomingCommand(c, cmd, e, n);
    } else {
      var r :| r in s.reqs && StaleRequest(s.reqs[r], e, n);
      StaleRequestLooms(c, s.reqs[r], e, n, s.commits);
    }
  }

  // ---- What time alone gives ----

  /** The older data shown now will have expired by `limit`. */
  predicate Lapses(s: State, e: Entry, limit: nat) {
    e in s.store && s.store[e].expires.Some? && s.store[e].expires.value <= limit
  }

  /** Whatever happens until then, from `limit` on later requests are safe from older data. */
  ghost predicate HealsBy(c: Config, s: State, e: Entry, n: nat, limit: nat) {
    forall after :: Legal(c, s, after) && limit <= Run(c, s, after).now ==> AlwaysRecent(c, Run(c, s, after), e, n)
  }

  lemma {:induction false} LapseKeeps(c: Config, s: State, after: seq<Step>, e: Entry, n: nat, limit: nat)
    requires Legal(c, s, after) && n <= s.commits && NoneLooming(c, s, e, n)
    requires NoneShown(c, s, e, n) || Lapses(s, e, limit)
    ensures var t := Run(c, s, after);
            n <= t.commits && NoneLooming(c, t, e, n) && (NoneShown(c, t, e, n) || Lapses(t, e, limit))
    decreases |after|
  {
    if after != [] {
      LoomingKeeps(c, s, after[0], e, n);
      LapseStep(c, s, after[0], e, n, limit);
      LapseKeeps(c, Apply(c, s, after[0]), after[1..], e, n, limit);
    }
  }

  /** Older data on view stays as it is, or gives way to data that is not older. */
  lemma LapseStep(c: Config, s: State, step: Step, e: Entry, n: nat, limit: nat)
    requires Enabled(c, s, step) && NoneLooming(c, s, e, n)
    requires NoneShown(c, s, e, n) || Lapses(s, e, limit)
    ensures NoneShown(c, Apply(c, s, step), e, n) || Lapses(Apply(c, s, step), e, limit)
  {
    if step.Act? { assert !LoomingRequest(c, s.reqs[step.r], e, n); }
    if step.Deliver? { assert !LoomingCommand(c, step.cmd, e, n); }
  }

  lemma WaitSuffices(c: Config, s: State, e: Entry, n: nat, limit: nat)
    requires n <= s.commits && NoneLooming(c, s, e, n) && (NoneShown(c, s, e, n) || Lapses(s, e, limit))
    ensures HealsBy(c, s, e, n, limit)
  {
    forall after | Legal(c, s, after) && limit <= Run(c, s, after).now
      ensures AlwaysRecent(c, Run(c, s, after), e, n)
    {
      LapseKeeps(c, s, after, e, n, limit);
      RecentSuffices(c, Run(c, s, after), e, n);
    }
  }

  /** What waiting gives is exact too: after any run reaching `limit` older data is out of reach if and
      only if nothing older looms now and what is shown now is not older or expires by then. In
      particular, while older data can still land no length of time is enough. */
  lemma WaitExact(c: Config, s0: State, before: seq<Step>, e: Entry, n: nat, limit: nat, inst: nat)
    requires Init(s0) && Legal(c, s0, before)
    requires n <= Run(c, s0, before).commits && (c.settings(inst).grouped <==> e.Field?)
    ensures var s := Run(c, s0, before);
            HealsBy(c, s, e, n, limit)
            <==> NoneLooming(c, s, e, n) && (NoneShown(c, s, e, n) || Lapses(s, e, limit))
  {
    var s := Run(c, s0, before);
    if NoneLooming(c, s, e, n) && (NoneShown(c, s, e, n) || Lapses(s, e, limit)) {
      WaitSuffices(c, s, e, n, limit);
    } else {
      var wait := Tick(if limit <= s.now then 0 else limit - s.now);
      Append(c, s0, before, wait);
      RecentExact(c, s0, before + [wait], e, n, inst);
      Append(c, s, [], wait);
      assert limit <= Run(c, s, [] + [wait]).now;
    }
  }

  /** The longest a written cell can stay, by its writer's settings; none without a backstop. */
  function LongestStay(c: Config, e: Entry, cell: Cell): Option<nat>
    requires cell.writer.Filled?
  {
    var cfg := c.settings(cell.writer.inst);
    if e.Field? then if cfg.backstopMs == 0 then None else Some(cfg.backstopMs + 1000)
    else if Ttl.IsEmptyPayload(cell.payload) then Some(cfg.nullSecs * 1000)
    else Some(cfg.cacheSecs * 1000 + 1000)
  }

  /** Hence what a TTL gives, for fields and for keys: once no older data can still land, a TTL and a
      second later nothing older can be seen, without any delete and whatever happens meanwhile. */
  lemma TtlHeals(c: Config, s0: State, before: seq<Step>, e: Entry, n: nat, ms: nat)
    requires Init(s0) && Legal(c, s0, before) && n <= Run(c, s0, before).commits
    requires NoneLooming(c, Run(c, s0, before), e, n)
    requires var s := Run(c, s0, before);
             e in s.store ==> s.store[e].writer.Filled?
                              && LongestStay(c, e, s.store[e]).Some? && LongestStay(c, e, s.store[e]).value <= ms
    ensures HealsBy(c, Run(c, s0, before), e, n, Run(c, s0, before).now + ms)
  {
    Expiry.NoImmortals(c, s0, before, e);
    WaitSuffices(c, Run(c, s0, before), e, n, Run(c, s0, before).now + ms);
  }
}
