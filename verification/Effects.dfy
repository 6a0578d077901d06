/** What the steps do to the store and to the locks, and what they leave alone. */
module Effects {
  import opened Texts
  import opened Protocol
  import Leases
  import CrossNode

  // ---- Frames ----

  /** An action changes nothing of the others: at most the actor's own entry, and only by a write that
      took effect or was withdrawn; at most its own lock, and only by an acknowledged bid or release;
      and of the requests only the actor. */
  lemma ActFrame(c: Config, s: State, r: nat, a: Action)
    requires Can(c, s, r, a)
    ensures var s', e := Do(c, s, r, a), s.reqs[r].entry;
            && s'.now == s.now && s'.commits == s.commits
            && s'.store - {e} == s.store - {e}
            && (s'.store != s.store ==> a == Write(Acked) || a == Write(Withdrawn))
            && s'.leases - {LeaseKey(e)} == s.leases - {LeaseKey(e)}
            && (s'.leases != s.leases ==> a == SendBid(Acked) || a == SendUnbid(Acked))
            && s.wire <= s'.wire && (forall cmd <- s'.wire - s.wire :: cmd.from == r)
            && s'.reqs.Keys == s.reqs.Keys && s'.reqs - {r} == s.reqs - {r}
  {
  }

  /** A command lands once, and what lands is a write to one entry, stored or taken back, or a bid or a
      release on one lock; no request hears of it. */
  lemma DeliverFrame(c: Config, s: State, cmd: Command, withdrawn: bool)
    requires Enabled(c, s, Deliver(cmd, withdrawn))
    ensures var s' := Apply(c, s, Deliver(cmd, withdrawn));
            && s'.wire == s.wire - {cmd} && s'.reqs == s.reqs && s'.locks == s.locks
            && s'.now == s.now && s'.commits == s.commits
            && match cmd
               case Put(_, _, e, payload, _, _) =>
                 && s'.leases == s.leases && s'.store - {e} == s.store - {e}
                 && (e in s'.store <==> !withdrawn) && (e in s'.store ==> s'.store[e].payload == payload)
               case Grab(_, key) =>
                 s'.store == s.store && s'.leases - {key} == s.leases - {key} && Leases.Live(s'.leases, s.now, key)
               case Free(from, key) =>
                 && s'.store == s.store && s'.leases - {key} == s.leases - {key}
                 && (Leases.Live(s'.leases, s.now, key) ==> s'.leases[key].token != from)
  {
  }

  /** Whoever acts, the others stay where they are. */
  predicate ActsFor(step: Step, r: nat) { step.Act? && step.r == r }

  lemma {:induction false} OthersLeaveIt(c: Config, s: State, steps: seq<Step>, r: nat)
    requires Legal(c, s, steps) && r in s.reqs && forall step <- steps :: !ActsFor(step, r)
    ensures r in Run(c, s, steps).reqs && Run(c, s, steps).reqs[r] == s.reqs[r]
    decreases |steps|
  {
    if steps != [] {
      assert !ActsFor(steps[0], r) && forall step <- steps[1..] :: step in steps;
      OthersLeaveIt(c, Apply(c, s, steps[0]), steps[1..], r);
    }
  }

  // ---- What a fill stores ----

  function Min(a: nat, b: nat): nat { if a < b then a else b }

  /** The bytes of `[]`, `null`, `{}` and nothing at all. */
  predicate Blank(payload: Text) {
    payload == [91, 93] || payload == [110, 117, 108, 108] || payload == [123, 125] || payload == []
  }

  /** The TTL the code calls for, in plain arithmetic: a field gets the backstop and its jitter, or none;
      a key gets the null TTL for a blank payload, else the TTL and its jitter, no more than a u64 holds. */
  function DueTtl(cfg: Settings, e: Entry, payload: Text, jitter: nat): Option<nat> {
    if e.Field? then
      if cfg.backstopMs == 0 then None else Some(cfg.backstopMs + jitter)
    else if Blank(payload) then Some(Min(cfg.nullSecs * 1000, 18446744073709551615))
    else Some(Min(cfg.cacheSecs * 1000 + jitter, 18446744073709551615))
  }

  function DueCell(c: Config, inst: nat, e: Entry, payload: Text, jitter: nat, version: nat, at: nat): Cell {
    var ttl := DueTtl(c.settings(inst), e, payload, jitter);
    Cell(payload, if ttl.None? then None else Some(at + ttl.value), version, Filled(inst, at))
  }

  lemma FillTtlDue(c: Config, inst: nat, e: Entry, payload: Text, jitter: nat)
    requires jitter <= 1000 && (c.settings(inst).grouped <==> e.Field?)
    ensures FillTtl(c, inst, payload, jitter) == DueTtl(c.settings(inst), e, payload, jitter)
  {
  }

  /** From the loader's return to the write: whatever happens in between, an acknowledged write stores
      exactly what was loaded, serialised, with the deadline the drawn jitter calls for. Any jitter up
      to 1000 ms can be drawn, and no other. */
  lemma FillExact(c: Config, s: State, r: nat, version: nat, jitter: nat, mid: seq<Step>)
    requires Can(c, s, r, LoaderReturns(version, jitter)) && c.encode(c.content(s.reqs[r].entry, version)).Some?
    requires c.settings(s.reqs[r].inst).grouped <==> s.reqs[r].entry.Field?
    requires Legal(c, Do(c, s, r, LoaderReturns(version, jitter)), mid) && forall step <- mid :: !ActsFor(step, r)
    requires Can(c, Run(c, Do(c, s, r, LoaderReturns(version, jitter)), mid), r, Write(Acked))
    ensures var e, inst := s.reqs[r].entry, s.reqs[r].inst;
            var t := Run(c, Do(c, s, r, LoaderReturns(version, jitter)), mid);
            && jitter <= 1000
            && Do(c, t, r, Write(Acked)).store ==
               t.store[e := DueCell(c, inst, e, c.encode(c.content(e, version)).value, jitter, version, t.now)]
  {
    var s' := Do(c, s, r, LoaderReturns(version, jitter));
    OthersLeaveIt(c, s', mid, r);
    FillTtlDue(c, s.reqs[r].inst, s.reqs[r].entry, c.encode(c.content(s.reqs[r].entry, version)).value, jitter);
  }

  /** The draw ranges over all of 0 to 1000. */
  lemma AnyJitter(c: Config, s: State, r: nat, version: nat, jitter: nat)
    requires CrossNode.InCharge(s, r) && s.reqs[r].pc.stage.Loading?
    requires s.reqs[r].pc.stage.start <= version <= s.commits
    ensures Can(c, s, r, LoaderReturns(version, jitter)) <==> jitter <= 1000
  {
  }

  // ---- Commands that land late ----

  /** A write whose sender was cancelled while it was under way, or never heard of it again, lands as if
      it had just been sent: same payload, same TTL counted from its landing. */
  lemma LateWrite(c: Config, s: State, r: nat, a: Action, mid: seq<Step>)
    requires Can(c, s, r, a) && s.reqs[r].pc.Inside? && s.reqs[r].pc.stage.Fill?
    requires a == Cancel(true) || a == Write(Unknown)
    requires var stage := s.reqs[r].pc.stage;
             var cmd := Put(r, s.reqs[r].inst, s.reqs[r].entry, stage.payload, stage.ttl, stage.version);
             && Legal(c, Do(c, s, r, a), mid) && (forall step <- mid :: step.Deliver? ==> step.cmd != cmd)
    ensures var stage, q := s.reqs[r].pc.stage, s.reqs[r];
            var cmd := Put(r, q.inst, q.entry, stage.payload, stage.ttl, stage.version);
            var t := Run(c, Do(c, s, r, a), mid);
            && Do(c, s, r, a).store == s.store
            && Enabled(c, t, Deliver(cmd, false))
            && Apply(c, t, Deliver(cmd, false)).store ==
               t.store[q.entry := Cell(stage.payload, if stage.ttl.None? then None else Some(t.now + stage.ttl.value),
                                       stage.version, Filled(q.inst, t.now))]
  {
    var stage, q := s.reqs[r].pc.stage, s.reqs[r];
    StaysOnWire(c, Do(c, s, r, a), mid, Put(r, q.inst, q.entry, stage.payload, stage.ttl, stage.version));
  }

  lemma {:induction false} StaysOnWire(c: Config, s: State, steps: seq<Step>, cmd: Command)
    requires Legal(c, s, steps) && cmd in s.wire && forall step <- steps :: step.Deliver? ==> step.cmd != cmd
    ensures cmd in Run(c, s, steps).wire
    decreases |steps|
  {
    if steps != [] {
      assert steps[0] in steps && forall step <- steps[1..] :: step in steps;
      StaysOnWire(c, Apply(c, s, steps[0]), steps[1..], cmd);
    }
  }

  /** A lost bid that lands on a free lock shuts everybody else out for 3000 ms. */
  lemma LateBid(c: Config, s: State, r: nat, a: Action, mid: seq<Step>, other: nat, at: nat)
    requires Can(c, s, r, a) && AtStage(s.reqs[r], Bid) && (a == Cancel(true) || a == SendBid(Unknown))
    requires var cmd := Grab(r, LeaseKey(s.reqs[r].entry));
             && Legal(c, Do(c, s, r, a), mid) && (forall step <- mid :: step.Deliver? ==> step.cmd != cmd)
             && var t := Run(c, Do(c, s, r, a), mid);
                !Leases.Live(t.leases, t.now, LeaseKey(s.reqs[r].entry)) && t.now <= at < t.now + 3000
    ensures var key := LeaseKey(s.reqs[r].entry);
            var t := Run(c, Do(c, s, r, a), mid);
            && Enabled(c, t, Deliver(Grab(r, key), false))
            && var u := Apply(c, t, Deliver(Grab(r, key), false));
               && Leases.TryAcquire(u.leases, at, key, other) == u.leases
               && !Leases.Live(u.leases, t.now + 3000, key)
  {
    StaysOnWire(c, Do(c, s, r, a), mid, Grab(r, LeaseKey(s.reqs[r].entry)));
  }

  /** A lost release that lands frees its own lock, if it is still there, and no other. */
  lemma LateRelease(c: Config, s: State, r: nat, a: Action, mid: seq<Step>, k: Text)
    requires Can(c, s, r, a) && s.reqs[r].pc.Inside? && s.reqs[r].pc.stage.Unbid?
    requires a == Cancel(true) || a == SendUnbid(Unknown)
    requires var cmd := Free(r, LeaseKey(s.reqs[r].entry));
             && Legal(c, Do(c, s, r, a), mid) && (forall step <- mid :: step.Deliver? ==> step.cmd != cmd)
    ensures var key := LeaseKey(s.reqs[r].entry);
            var t := Run(c, Do(c, s, r, a), mid);
            && Enabled(c, t, Deliver(Free(r, key), false))
            && var u := Apply(c, t, Deliver(Free(r, key), false));
               && (Leases.Live(u.leases, u.now, key) ==> u.leases[key].token != r)
               && (k in t.leases && (k != key || t.leases[k].token != r)
                   ==> k in u.leases && u.leases[k] == t.leases[k])
  {
    StaysOnWire(c, Do(c, s, r, a), mid, Free(r, LeaseKey(s.reqs[r].entry)));
  }

  /** An overwritten entry is a miss until somebody fills it again. */
  lemma CorruptedMisses(c: Config, s: State, e: Entry, payload: Text, expires: Option<nat>)
    requires c.decode(payload).None?
    ensures Enabled(c, s, Corrupt(e, payload, expires))
    ensures var s' := Apply(c, s, Corrupt(e, payload, expires));
            e in s'.store && Lookup(c, s', e) == None && s'.store - {e} == s.store - {e}
  {
  }
}
