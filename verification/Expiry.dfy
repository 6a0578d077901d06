/** Every entry a cache writes carries the deadline its settings call for. */
module Expiry {
  import opened Texts
  import opened Protocol
  import Ttl
  import SingleFlight

  /** `ttl` is one the instance would draw for this payload. */
  ghost predicate Drawn(c: Config, inst: nat, payload: Text, ttl: Option<nat>) {
    exists jitter: nat :: jitter <= Ttl.MAX_JITTER_MS && ttl == FillTtl(c, inst, payload, jitter)
  }

  ghost predicate TimedCell(c: Config, e: Entry, cell: Cell, now: nat) {
    cell.writer.Filled? ==>
      && cell.writer.at <= now
      && (c.settings(cell.writer.inst).grouped <==> e.Field?)
      && exists ttl :: Sendable(ttl) && Drawn(c, cell.writer.inst, cell.payload, ttl)
                       && cell.expires == Deadline(cell.writer.at, ttl)
  }

  ghost predicate TimedPut(c: Config, cmd: Command) {
    cmd.Put? ==>
      && Sendable(cmd.ttl) && Drawn(c, cmd.inst, cmd.payload, cmd.ttl)
      && (c.settings(cmd.inst).grouped <==> cmd.entry.Field?)
  }

  ghost predicate TimedRequest(c: Config, q: Request) {
    q.pc.Inside? && q.pc.stage.Fill? ==> Drawn(c, q.inst, q.pc.stage.payload, q.pc.stage.ttl)
  }

  ghost predicate TimedInv(c: Config, s: State) {
    && (forall e <- s.store :: TimedCell(c, e, s.store[e], s.now))
    && (forall cmd <- s.wire :: TimedPut(c, cmd))
    && (forall r <- s.reqs :: TimedRequest(c, s.reqs[r]))
  }

  lemma StepKeeps(c: Config, s: State, step: Step)
    requires TimedInv(c, s) && SingleFlight.Kinds(c, s) && Enabled(c, s, step)
    ensures TimedInv(c, Apply(c, s, step))
  {
  }

  lemma {:induction false} RunKeeps(c: Config, s: State, steps: seq<Step>)
    requires TimedInv(c, s) && SingleFlight.FlightInv(c, s) && Legal(c, s, steps)
    ensures TimedInv(c, Run(c, s, steps))
    decreases |steps|
  {
    if steps != [] {
      StepKeeps(c, s, steps[0]);
      SingleFlight.StepKeeps(c, s, steps[0]);
      RunKeeps(c, Apply(c, s, steps[0]), steps[1..]);
    }
  }

  /** No immortal fields: with a positive backstop, whatever a grouped cache has stored has a
      deadline between the backstop and the backstop plus a second after its write. A `CacheLayer`
      entry always has one: the null TTL if the payload is an empty one, else the TTL plus jitter. */
  lemma NoImmortals(c: Config, s0: State, steps: seq<Step>, e: Entry)
    requires Init(s0) && Legal(c, s0, steps)
    ensures var s := Run(c, s0, steps);
            e in s.store && s.store[e].writer.Filled? ==>
              var cell, at := s.store[e], s.store[e].writer.at;
              var cfg := c.settings(cell.writer.inst);
              && at <= s.now
              && (e.Field? ==> (cell.expires.None? <==> cfg.backstopMs == 0))
              && (e.Field? && cfg.backstopMs > 0 ==>
                    at + cfg.backstopMs <= cell.expires.value <= at + cfg.backstopMs + 1000)
              && (e.Flat? ==> cell.expires.Some? && at < cell.expires.value)
              && (e.Flat? && Ttl.IsEmptyPayload(cell.payload) ==>
                    cell.expires.value == at + Ttl.SaturatingMul(cfg.nullSecs, 1000))
              && (e.Flat? && !Ttl.IsEmptyPayload(cell.payload) ==>
                    at + Ttl.SaturatingMul(cfg.cacheSecs, 1000) <= cell.expires.value
                    <= at + cfg.cacheSecs * 1000 + 1000)
  {
    RunKeeps(c, s0, steps);
    var s := Run(c, s0, steps);
    if e in s.store { assert TimedCell(c, e, s.store[e], s.now); }
  }

  /** A hit is never older than its TTL allows: what a read can return was written less than the
      backstop and a second ago, or less than the `CacheLayer` TTL for its kind of payload. */
  lemma HitsAreYoung(c: Config, s0: State, steps: seq<Step>, e: Entry)
    requires Init(s0) && Legal(c, s0, steps)
    ensures var s := Run(c, s0, steps);
            Lookup(c, s, e).Some? && s.store[e].writer.Filled? ==>
              var cell, cfg := s.store[e], c.settings(s.store[e].writer.inst);
              var age := s.now - cell.writer.at;
              && (e.Field? && cfg.backstopMs > 0 ==> age < cfg.backstopMs + 1000)
              && (e.Flat? && Ttl.IsEmptyPayload(cell.payload) ==> age < cfg.nullSecs * 1000)
              && (e.Flat? && !Ttl.IsEmptyPayload(cell.payload) ==> age < cfg.cacheSecs * 1000 + 1000)
  {
    NoImmortals(c, s0, steps, e);
  }
}
