/** The two `get_or_load` methods as written, run among whatever the rest of the system does at
    each of their awaits. Their steps are steps of `Protocol`, so its theorems are about them. */
module GetOrLoad {
  import opened Texts
  import opened Protocol
  import Leases
  import Effects

  /** How things go for one call: its k-th read may fail, its commands are answered so or so, its
      loader fails or shows a certain commit, others do this and that during its k-th await, and it
      may be cancelled at one of its awaits, its pending command sent or not. */
  datatype Luck = Luck(
    readFails: nat -> bool,
    bid: Reply,
    loader: Option<nat>,
    jitter: nat,
    write: Reply,
    unbid: Reply,
    meanwhile: nat -> seq<Step>,
    cancelAt: Option<nat>,
    sent: bool)

  predicate Plausible(l: Luck) {
    !l.bid.Withdrawn? && !l.unbid.Withdrawn? && l.jitter <= 1000
  }

  /** Cancelled, with at most its guards left to drop. */
  predicate Unwinding(pc: Pc) {
    match pc
    case Inside(_, Unlock(o)) => o.Cancelled?
    case Leaving(_, o) => o.Cancelled?
    case Done(o) => o.Cancelled?
    case _ => false
  }

  /** The state once others have taken their steps, those that were possible, in their order. */
  function Carried(c: Config, s: State, others: seq<Step>, r: nat): State {
    if others == [] then s
    else
      var t, step := Carried(c, s, others[..|others| - 1], r), others[|others| - 1];
      if Enabled(c, t, step) && !Effects.ActsFor(step, r) then Apply(c, t, step) else t
  }

  /** Steps of others that make up a run are all taken. */
  lemma {:induction false} CarriedRuns(c: Config, s: State, others: seq<Step>, r: nat)
    requires Legal(c, s, others) && forall step <- others :: !Effects.ActsFor(step, r)
    ensures Carried(c, s, others, r) == Run(c, s, others)
    decreases |others|
  {
    if others != [] {
      var init, last := others[..|others| - 1], others[|others| - 1];
      assert others == init + [last] && last in others;
      Prefix(c, s, init, [last]);
      CarriedRuns(c, s, init, r);
      Append(c, s, init, last);
    }
  }

  /** The reply a write gets: none but a refusal with a zero TTL, and only the script can take it back. */
  function WriteReply(l: Luck, e: Entry, ttl: Option<nat>): Reply {
    if ttl == Some(0) || (l.write.Withdrawn? && !(e.Field? && ttl.Some?)) then Rejected else l.write
  }

  /** The loaded value is stored as it should be. */
  ghost predicate HasFill(c: Config, t: State, inst: nat, e: Entry, l: Luck, o: Outcome) {
    && o.Ok? && c.encode(o.value).Some? && e in t.store
    && t.store[e] == Effects.DueCell(c, inst, e, c.encode(o.value).value, l.jitter, o.version, t.now)
  }

  /** The write is one the store takes and acknowledges. */
  predicate Fillable(c: Config, inst: nat, e: Entry, l: Luck, o: Outcome) {
    && (c.settings(inst).grouped <==> e.Field?) && l.write.Acked? && o.Ok? && c.encode(o.value).Some?
    && Effects.DueTtl(c.settings(inst), e, c.encode(o.value).value, l.jitter) != Some(0)
  }

  /** Somewhere along the trace, from its `from`-th step on, the loaded value was stored. */
  ghost predicate FilledIn(
    c: Config, start: State, trace: seq<Step>, from: nat, inst: nat, e: Entry, l: Luck, o: Outcome)
  {
    exists k: nat :: from <= k <= |trace| && FilledAt(c, start, trace[..k], inst, e, l, o)
  }

  ghost predicate FilledAt(c: Config, start: State, prefix: seq<Step>, inst: nat, e: Entry, l: Luck, o: Outcome) {
    Legal(c, start, prefix) && HasFill(c, Run(c, start, prefix), inst, e, l, o)
  }

  lemma FilledStays(
    c: Config, start: State, xs: seq<Step>, ys: seq<Step>, from: nat, inst: nat, e: Entry, l: Luck, o: Outcome)
    requires xs <= ys && FilledIn(c, start, xs, from, inst, e, l, o)
    ensures FilledIn(c, start, ys, from, inst, e, l, o)
  {
    var k: nat :| from <= k <= |xs| && FilledAt(c, start, xs[..k], inst, e, l, o);
    assert xs[..k] == ys[..k];
  }

  /** How the way to the second miss ends. */
  datatype Way = Ended(outcome: Outcome) | Waiting | Missed

  class System {
    const c: Config
    var s: State
    var awaits: nat
    ghost const start: State
    ghost var trace: seq<Step>

    ghost predicate Valid()
      reads this
    {
      Legal(c, start, trace) && Run(c, start, trace) == s
    }

    constructor (c: Config, s: State)
      ensures Valid() && this.c == c && this.s == s && start == s && trace == []
    {
      this.c, this.s, this.start := c, s, s;
      awaits, trace := 0, [];
    }

    method Take(step: Step)
      requires Valid() && Enabled(c, s, step)
      modifies this
      ensures Valid() && s == Apply(c, old(s), step)
      ensures trace == old(trace) + [step] && awaits == old(awaits)
    {
      Append(c, start, trace, step);
      s := Apply(c, s, step);
      trace := trace + [step];
    }

    /** Others act, as far as they can. */
    method Others(r: nat, others: seq<Step>)
      requires Valid() && r in s.reqs
      modifies this
      ensures Valid() && old(trace) <= trace && awaits == old(awaits)
      ensures r in s.reqs && s.reqs[r] == old(s.reqs[r])
      ensures old(s.now) <= s.now && old(s.commits) <= s.commits
      ensures s == Carried(c, old(s), others, r)
    {
      for i := 0 to |others|
        invariant Valid() && old(trace) <= trace && awaits == old(awaits)
        invariant s == Carried(c, old(s), others[..i], r)
        invariant r in s.reqs && s.reqs[r] == old(s.reqs[r])
        invariant old(s.now) <= s.now && old(s.commits) <= s.commits
      {
        var step := others[i];
        assert others[..i + 1][..i] == others[..i];
        if Enabled(c, s, step) && !Effects.ActsFor(step, r) {
          Take(step);
        }
      }
      assert others[..|others|] == others;
    }

    /** Request `r` is suspended; others act, and then it goes on or is dropped. */
    method Await(r: nat, l: Luck) returns (dropped: bool)
      requires Valid() && r in s.reqs && AtAwait(s.reqs[r].pc)
      modifies this
      ensures Valid() && old(trace) <= trace && awaits == old(awaits) + 1
      ensures dropped <==> l.cancelAt == Some(old(awaits))
      ensures var q := old(s.reqs[r]); At(r, q.inst, q.entry, if dropped then AfterCancel(q.pc) else q.pc)
      ensures old(s.now) <= s.now && old(s.commits) <= s.commits
      ensures var t := Carried(c, old(s), l.meanwhile(old(awaits)), r);
              && s.store == t.store && s.leases == t.leases && s.now == t.now && t.wire <= s.wire
              && (!dropped ==> s == t)
      ensures dropped && l.sent && Pending(r, old(s.reqs[r])).Some? ==> Pending(r, old(s.reqs[r])).value in s.wire
    {
      Others(r, l.meanwhile(awaits));
      dropped := l.cancelAt == Some(awaits);
      if dropped {
        Take(Act(r, Cancel(l.sent && Pending(r, s.reqs[r]).Some?)));
      }
      awaits := awaits + 1;
    }

    // ---- Parts of both methods ----

    ghost predicate At(r: nat, inst: nat, e: Entry, pc: Pc)
      reads this
    {
      r in s.reqs && s.reqs[r] == Request(inst, e, pc)
    }

    /** The call was dropped: it is the same request, unwinding. */
    ghost predicate Dropped(r: nat, inst: nat, e: Entry)
      reads this
    {
      r in s.reqs && s.reqs[r].inst == inst && s.reqs[r].entry == e && Unwinding(s.reqs[r].pc)
    }

    /** Awaiting a GET or HGET: what the store shows at that moment. An error counts as a miss, and so
        does a value that does not decode. */
    method ReadEntry(r: nat, l: Luck, k: nat) returns (found: Option<(Value, nat)>, dropped: bool)
      requires Valid() && r in s.reqs
      requires var pc := s.reqs[r].pc; pc.Probe? || (pc.Inside? && (pc.stage.Recheck? || pc.stage.Peek?))
      modifies this
      ensures Valid() && old(trace) <= trace && old(s.now) <= s.now && (dropped ==> l.cancelAt.Some?)
      ensures var q := old(s.reqs[r]);
              if dropped then Dropped(r, q.inst, q.entry) && found.None?
              else At(r, q.inst, q.entry, AfterRead(q, c.settings(q.inst).grouped, found))
                   && found == if l.readFails(k) then None else Lookup(c, s, q.entry)
    {
      found := None;
      dropped := Await(r, l);
      if dropped { return; }
      found := if l.readFails(k) then None else Lookup(c, s, s.reqs[r].entry);
      Take(Act(r, Read(l.readFails(k))));
    }

    /** Register, then wait for the mutex; if it stays queued, somebody holds the mutex. */
    method EnterFlight(r: nat, l: Luck) returns (entered: bool, dropped: bool)
      requires Valid() && r in s.reqs && s.reqs[r].pc.Miss?
      modifies this
      ensures Valid() && old(trace) <= trace && old(s.now) <= s.now && (dropped ==> l.cancelAt.Some?)
      ensures r in s.reqs && s.reqs[r] == old(s.reqs[r]).(pc := s.reqs[r].pc)
      ensures dropped ==> Unwinding(s.reqs[r].pc)
      ensures !dropped && entered ==> s.reqs[r].pc.Inside? && s.reqs[r].pc.stage.Recheck?
      ensures !dropped && !entered ==> s.reqs[r].pc.Queued? && s.reqs[r].pc.lock in s.locks.owner
    {
      entered := false;
      Take(Act(r, Register));
      dropped := Await(r, l);
      if dropped { return; }
      entered := s.reqs[r].pc.lock !in s.locks.owner;
      if entered {
        Take(Act(r, Lock));
      }
    }

    /** Awaiting the PSETEX, the HSET or the write script: acknowledged, the payload is stored with its
        deadline; taken back, the field is gone; otherwise the store is as the others left it, and a
        command whose fate is unknown is under way. Its failure is logged and forgotten. */
    method WriteBack(r: nat, l: Luck) returns (dropped: bool)
      requires Valid() && r in s.reqs && s.reqs[r].pc.Inside? && s.reqs[r].pc.stage.Fill?
      modifies this
      ensures Valid() && old(trace) <= trace && (dropped ==> l.cancelAt.Some?)
      ensures old(s.now) <= s.now && old(s.commits) <= s.commits
      ensures var q, stage := old(s.reqs[r]), old(s.reqs[r].pc.stage);
              if dropped then Dropped(r, q.inst, q.entry)
              else At(r, q.inst, q.entry, Inside(q.pc.lock, Concluded(stage.permit, Ok(stage.value, stage.version))))
      ensures var q, stage := old(s.reqs[r]), old(s.reqs[r].pc.stage);
              var t, reply := Carried(c, old(s), l.meanwhile(old(awaits)), r), WriteReply(l, q.entry, stage.ttl);
              if dropped || reply.Rejected? || reply.Unknown? then s.store == t.store
              else if reply.Withdrawn? then s.store == t.store - {q.entry}
              else s.store == t.store[q.entry := Cell(stage.payload, Deadline(s.now, stage.ttl), stage.version,
                                                      Filled(q.inst, s.now))]
      ensures var q, stage := old(s.reqs[r]), old(s.reqs[r].pc.stage);
              (if dropped then l.sent else l.write.Unknown?) && stage.ttl != Some(0) ==>
                Put(r, q.inst, q.entry, stage.payload, stage.ttl, stage.version) in s.wire
    {
      var e, ttl := s.reqs[r].entry, s.reqs[r].pc.stage.ttl;
      dropped := Await(r, l);
      if dropped { return; }
      Take(Act(r, Write(WriteReply(l, e, ttl))));
    }

    /** The loader and serialisation. It fails exactly if the loader does or the value does not serialise;
        the value is the data at a commit during the call, the one the loader meant if there is one. */
    method RunLoader(r: nat, l: Luck) returns (outcome: Outcome)
      requires Valid() && Plausible(l) && r in s.reqs && s.reqs[r].pc.Inside? && s.reqs[r].pc.stage.Call?
      modifies this
      ensures Valid() && old(trace) <= trace && old(s.now) <= s.now && (outcome.Cancelled? ==> l.cancelAt.Some?)
      ensures var q := old(s.reqs[r]);
              if outcome.Cancelled? then Dropped(r, q.inst, q.entry)
              else if outcome.Ok? then
                && c.encode(outcome.value).Some?
                && var payload := c.encode(outcome.value).value;
                   var ttl := FillTtl(c, q.inst, payload, l.jitter);
                   At(r, q.inst, q.entry,
                      Inside(q.pc.lock, Fill(q.pc.stage.permit, outcome.value, payload, ttl, outcome.version)))
              else At(r, q.inst, q.entry, Inside(q.pc.lock, Concluded(q.pc.stage.permit, outcome)))
      ensures !outcome.Cancelled? ==> (outcome.LoaderFailed? <==> l.loader.None?)
      ensures outcome.EncodeFailed? ==>
                exists v: nat :: old(s.commits) <= v <= s.commits && c.encode(c.content(old(s.reqs[r].entry), v)).None?
      ensures outcome.Ok? ==>
                && outcome.value == c.content(old(s.reqs[r].entry), outcome.version)
                && old(s.commits) <= outcome.version <= s.commits
                && (old(s.commits) <= l.loader.value <= s.commits ==> outcome.version == l.loader.value)
    {
      Take(Act(r, CallLoader));
      var begun := s.commits;
      var dropped := Await(r, l);
      if dropped { return Cancelled; }
      if l.loader.None? {
        Take(Act(r, LoaderFails));
        return LoaderFailed;
      }
      var version := if begun <= l.loader.value <= s.commits then l.loader.value else s.commits;
      var data := c.content(s.reqs[r].entry, version);
      Take(Act(r, LoaderReturns(version, l.jitter)));
      return if c.encode(data).None? then EncodeFailed else Ok(data, version);
    }

    /** The loader, serialisation and the write back. A failing write is no failure; an acknowledged one has
        stored the value. */
    method LoadAndFill(r: nat, l: Luck) returns (outcome: Outcome)
      requires Valid() && Plausible(l) && r in s.reqs && s.reqs[r].pc.Inside? && s.reqs[r].pc.stage.Call?
      modifies this
      ensures Valid() && old(trace) <= trace && old(s.now) <= s.now && (outcome.Cancelled? ==> l.cancelAt.Some?)
      ensures var q := old(s.reqs[r]);
              if outcome.Cancelled? then Dropped(r, q.inst, q.entry)
              else At(r, q.inst, q.entry, Inside(q.pc.lock, Concluded(q.pc.stage.permit, outcome)))
      ensures !outcome.Cancelled? ==> (outcome.LoaderFailed? <==> l.loader.None?)
      ensures outcome.EncodeFailed? ==>
                exists v: nat :: old(s.commits) <= v <= s.commits && c.encode(c.content(old(s.reqs[r].entry), v)).None?
      ensures outcome.Ok? ==>
                && outcome.value == c.content(old(s.reqs[r].entry), outcome.version) && c.encode(outcome.value).Some?
                && old(s.commits) <= outcome.version <= s.commits
      ensures var q := old(s.reqs[r]);
              Fillable(c, q.inst, q.entry, l, outcome) ==> HasFill(c, s, q.inst, q.entry, l, outcome)
    {
      ghost var q := s.reqs[r];
      outcome := RunLoader(r, l);
      if !outcome.Ok? { return; }
      if c.settings(q.inst).grouped <==> q.entry.Field? {
        Effects.FillTtlDue(c, q.inst, q.entry, c.encode(outcome.value).value, l.jitter);
      }
      var dropped := WriteBack(r, l);
      if dropped { return Cancelled; }
    }

    /** Scope end: the mutex guard drops, then the registration. */
    method LeaveFlight(r: nat)
      requires Valid() && r in s.reqs && s.reqs[r].pc.Inside? && s.reqs[r].pc.stage.Unlock?
      modifies this
      ensures Valid() && old(trace) <= trace
      ensures s.store == old(s.store) && s.leases == old(s.leases) && s.now == old(s.now)
      ensures var q := old(s.reqs[r]); At(r, q.inst, q.entry, Done(q.pc.stage.outcome))
    {
      Take(Act(r, Release));
      Take(Act(r, Leave));
    }

    /** What dropping the future at an await leaves to do. */
    method Unwind(r: nat)
      requires Valid() && r in s.reqs && Unwinding(s.reqs[r].pc)
      modifies this
      ensures Valid() && old(trace) <= trace
      ensures s.now == old(s.now)
      ensures var q := old(s.reqs[r]); At(r, q.inst, q.entry, Done(Cancelled))
    {
      if s.reqs[r].pc.Inside? {
        LeaveFlight(r);
      } else if s.reqs[r].pc.Leaving? {
        Take(Act(r, Leave));
      }
    }

    /** Both reads, with the wait for the mutex between them. */
    method Approach(r: nat, inst: nat, e: Entry, l: Luck) returns (way: Way)
      requires Valid() && r !in s.reqs && (c.settings(inst).grouped <==> e.Field?)
      modifies this
      ensures Valid() && old(trace) <= trace && old(s.now) <= s.now
      ensures r in s.reqs && s.reqs[r].inst == inst && s.reqs[r].entry == e
      ensures match way
              case Ended(o) => s.reqs[r].pc == Done(o) && (o.Ok? || (o.Cancelled? && l.cancelAt.Some?))
              case Waiting => s.reqs[r].pc.Queued? && s.reqs[r].pc.lock in s.locks.owner
              case Missed => s.reqs[r].pc.Inside? && s.reqs[r].pc.stage == if e.Field? then Bid else Call(Unleased)
    {
      Take(Arrive(r, inst, e));
      var cached, dropped := ReadEntry(r, l, 0);
      if dropped { Unwind(r); return Ended(Cancelled); }
      if cached.Some? {
        return Ended(Ok(cached.value.0, cached.value.1));
      }
      var entered;
      entered, dropped := EnterFlight(r, l);
      if dropped { Unwind(r); return Ended(Cancelled); }
      if !entered { return Waiting; }
      cached, dropped := ReadEntry(r, l, 1);
      if dropped { Unwind(r); return Ended(Cancelled); }
      if cached.Some? {
        LeaveFlight(r);
        return Ended(Ok(cached.value.0, cached.value.1));
      }
      return Missed;
    }

    /** If the value is stored now, it has been stored along the trace. */
    lemma NoteFill(from: nat, inst: nat, e: Entry, l: Luck, o: Outcome) returns (filled: seq<Step>)
      requires Valid() && from <= |trace|
      ensures filled == trace
      ensures Fillable(c, inst, e, l, o) && HasFill(c, s, inst, e, l, o)
              ==> FilledIn(c, start, filled, from, inst, e, l, o)
    {
      filled := trace;
      assert trace[..|trace|] == trace;
    }

    lemma KeepFill(filled: seq<Step>, from: nat, inst: nat, e: Entry, l: Luck, o: Outcome)
      requires filled <= trace
      ensures FilledIn(c, start, filled, from, inst, e, l, o) ==> FilledIn(c, start, trace, from, inst, e, l, o)
    {
      if FilledIn(c, start, filled, from, inst, e, l, o) {
        FilledStays(c, start, filled, trace, from, inst, e, l, o);
      }
    }

    // ---- CacheLayer ----

    /** What a finished or still queued call of either method has returned and done since step `from`:
        at most one load; errors only from it; and a loaded value, if the store took the write, stored at
        some point with the deadline its jitter calls for. */
    ghost predicate Returned(from: nat, r: nat, inst: nat, e: Entry, l: Luck, result: Option<Outcome>, loads: nat)
      reads this
    {
      && r in s.reqs && s.reqs[r].inst == inst && s.reqs[r].entry == e && loads <= 1
      && match result
         case None => s.reqs[r].pc.Queued? && s.reqs[r].pc.lock in s.locks.owner && loads == 0
         case Some(o) =>
           && s.reqs[r].pc == Done(o)
           && (o.Cancelled? ==> l.cancelAt.Some?)
           && (o.LoaderFailed? || o.EncodeFailed? ==> loads == 1)
           && (loads == 1 && !o.Cancelled? ==> (o.LoaderFailed? <==> l.loader.None?))
           && (loads == 1 && Fillable(c, inst, e, l, o) ==> FilledIn(c, start, trace, from, inst, e, l, o))
    }

    /** `CacheLayer::get_or_load`. Whatever the others do and wherever it is cancelled, its steps extend
        the run of the protocol, and it returns what the protocol says; no result only while it queues
        for a mutex that somebody holds. */
    method LayerGetOrLoad(r: nat, inst: nat, key: Text, l: Luck) returns (result: Option<Outcome>, loads: nat)
      requires Valid() && Plausible(l) && r !in s.reqs && !c.settings(inst).grouped
      modifies this
      ensures Valid() && old(trace) <= trace && Returned(|old(trace)|, r, inst, Flat(key), l, result, loads)
    {
      var way := Approach(r, inst, Flat(key), l);
      if way.Ended? { return Some(way.outcome), 0; }
      if way.Waiting? { return None, 0; }
      var outcome := LoadAndFill(r, l);
      if outcome.Cancelled? { Unwind(r); return Some(Cancelled), 1; }
      ghost var filled := NoteFill(|old(trace)|, inst, Flat(key), l, outcome);
      LeaveFlight(r);
      KeepFill(filled, |old(trace)|, inst, Flat(key), l, outcome);
      return Some(outcome), 1;
    }

    // ---- GroupedCache ----

    /** `sleep(poll_ms).await`, at least that long. */
    method Sleep(r: nat, l: Luck) returns (dropped: bool)
      requires Valid() && r in s.reqs && s.reqs[r].pc.Inside? && s.reqs[r].pc.stage.PollHead?
      requires s.now < s.reqs[r].pc.stage.since + WAIT_MS
      modifies this
      ensures Valid() && old(trace) <= trace && (dropped ==> l.cancelAt.Some?)
      ensures var q, stage := old(s.reqs[r]), old(s.reqs[r].pc.stage);
              if dropped then Dropped(r, q.inst, q.entry)
              else At(r, q.inst, q.entry, Inside(q.pc.lock, Peek(stage.since, stage.polls + 1)))
                   && old(s.now) + POLL_MS <= s.now
    {
      var wake := s.now + POLL_MS;
      Take(Act(r, Turn));
      dropped := Await(r, l);
      if dropped { return; }
      if s.now < wake { Take(Tick(wake - s.now)); }
      Take(Act(r, Wake));
    }

    /** The wait for another node: at most 50 polls, each after a sleep, until the entry shows up or
        the second is over. The first poll that finds it ends the wait; without a find all missed. */
    method WaitForOther(r: nat, l: Luck)
      returns (found: Option<(Value, nat)>, polls: nat, dropped: bool, ghost seen: seq<Option<(Value, nat)>>)
      requires Valid() && r in s.reqs && AtStage(s.reqs[r], Outbid)
      modifies this
      ensures Valid() && old(trace) <= trace && polls <= 50 && (dropped ==> l.cancelAt.Some?)
      ensures var q := old(s.reqs[r]);
              if dropped then Dropped(r, q.inst, q.entry)
              else match found
                case Some((v, version)) => At(r, q.inst, q.entry, Inside(q.pc.lock, Unlock(Ok(v, version))))
                case None =>
                  && r in s.reqs && s.reqs[r] == q.(pc := s.reqs[r].pc)
                  && s.reqs[r].pc.Inside? && s.reqs[r].pc.lock == q.pc.lock
                  && s.reqs[r].pc.stage.Call? && s.reqs[r].pc.stage.permit.TimedOut?
                  && old(s.now) + WAIT_MS <= s.now
      ensures |seen| <= polls <= |seen| + 1 && (!dropped ==> |seen| == polls)
      ensures !dropped && found.None? ==> forall i :: 0 <= i < polls ==> seen[i].None?
      ensures found.Some? ==> polls > 0 && |seen| == polls && seen[polls - 1] == found
    {
      var q := s.reqs[r];
      seen := [];
      Take(Act(r, BeginWait));
      var since := s.now;
      found, polls, dropped := None, 0, false;
      while s.now < since + WAIT_MS
        invariant Valid() && old(trace) <= trace && old(s.now) <= since && !dropped
        invariant At(r, q.inst, q.entry, Inside(q.pc.lock, PollHead(since, polls)))
        invariant since + POLL_MS * polls <= s.now && polls <= 50
        invariant found.None? && |seen| == polls && forall i :: 0 <= i < polls ==> seen[i].None?
        decreases since + WAIT_MS - s.now
      {
        dropped := Sleep(r, l);
        if dropped { return; }
        polls := polls + 1;
        found, dropped := ReadEntry(r, l, polls + 1);
        if dropped { return; }
        seen := seen + [found];
        if found.Some? { return; }
      }
      Take(Act(r, Turn));
    }

    /** `SET lock token NX PX`. Acquired means an acknowledged bid that put this call's own token in
        place for three seconds; not acquired means an error or a live lease in the way. */
    method Acquire(r: nat, l: Luck) returns (acquired: bool, dropped: bool)
      requires Valid() && Plausible(l) && r in s.reqs && AtStage(s.reqs[r], Bid)
      modifies this
      ensures Valid() && old(trace) <= trace && old(s.now) <= s.now && (dropped ==> l.cancelAt.Some?)
      ensures var q, key := old(s.reqs[r]), LeaseKey(old(s.reqs[r]).entry);
              if dropped then Dropped(r, q.inst, q.entry)
              else if acquired then
                && At(r, q.inst, q.entry, Inside(q.pc.lock, Call(Owned(s.now + 3000))))
                && l.bid.Acked? && key in s.leases && s.leases[key] == Leases.Lease(r, s.now + 3000)
              else
                && At(r, q.inst, q.entry, Inside(q.pc.lock, Outbid))
                && (l.bid.Acked? ==> Leases.Live(s.leases, s.now, key))
      ensures var t := Carried(c, old(s), l.meanwhile(old(awaits)), r);
              dropped || !l.bid.Acked? ==> s.leases == t.leases
      ensures (if dropped then l.sent else l.bid.Unknown?) ==> Grab(r, LeaseKey(old(s.reqs[r].entry))) in s.wire
    {
      acquired := false;
      dropped := Await(r, l);
      if dropped { return; }
      acquired := l.bid.Acked? && !Leases.Live(s.leases, s.now, LeaseKey(s.reqs[r].entry));
      Take(Act(r, SendBid(l.bid)));
    }

    /** No live lease on the entry carries the request's token. */
    ghost predicate Freed(r: nat, e: Entry)
      reads this
    {
      Leases.Live(s.leases, s.now, LeaseKey(e)) ==> s.leases[LeaseKey(e)].token != r
    }

    /** The owner of the lease loads and then releases it, whatever came of the load. */
    method LoadAndRelease(r: nat, l: Luck) returns (outcome: Outcome)
      requires Valid() && Plausible(l) && r in s.reqs && s.reqs[r].pc.Inside?
      requires s.reqs[r].pc.stage.Call? && s.reqs[r].pc.stage.permit.Owned?
      modifies this
      ensures Valid() && old(trace) <= trace && (outcome.Cancelled? ==> l.cancelAt.Some?)
      ensures var q := old(s.reqs[r]);
              if outcome.Cancelled? then Dropped(r, q.inst, q.entry)
              else At(r, q.inst, q.entry, Inside(q.pc.lock, Unlock(outcome)))
      ensures !outcome.Cancelled? ==> (outcome.LoaderFailed? <==> l.loader.None?)
      ensures !outcome.Cancelled? && l.unbid.Acked? ==> Freed(r, old(s.reqs[r].entry))
      ensures !outcome.Cancelled? && l.unbid.Unknown? ==> Free(r, LeaseKey(old(s.reqs[r].entry))) in s.wire
      ensures var q := old(s.reqs[r]);
              Fillable(c, q.inst, q.entry, l, outcome)
              ==> FilledIn(c, start, trace, |old(trace)|, q.inst, q.entry, l, outcome)
    {
      ghost var q := s.reqs[r];
      outcome := LoadAndFill(r, l);
      if outcome.Cancelled? { return; }
      ghost var filled := NoteFill(|old(trace)|, q.inst, q.entry, l, outcome);
      var dropped := Await(r, l);
      if dropped { return Cancelled; }
      Take(Act(r, SendUnbid(l.unbid)));
      KeepFill(filled, |old(trace)|, q.inst, q.entry, l, outcome);
    }

    /** The second level: the owner of the lease loads and releases it, the others wait and at worst
        load without it. */
    method FlyAcrossNodes(r: nat, l: Luck) returns (outcome: Outcome, loads: nat, owner: bool)
      requires Valid() && Plausible(l) && r in s.reqs && AtStage(s.reqs[r], Bid)
      modifies this
      ensures Valid() && old(trace) <= trace && (outcome.Cancelled? ==> l.cancelAt.Some?)
      ensures var q := old(s.reqs[r]);
              if outcome.Cancelled? then Dropped(r, q.inst, q.entry)
              else At(r, q.inst, q.entry, Inside(q.pc.lock, Unlock(outcome)))
      ensures loads <= 1 && (loads == 0 ==> outcome.Ok? || outcome.Cancelled?)
      ensures loads == 1 && !outcome.Cancelled? ==> (outcome.LoaderFailed? <==> l.loader.None?)
      ensures owner ==> loads == 1 && l.bid.Acked?
      ensures loads == 1 && !owner ==> old(s.now) + 1000 <= s.now
      ensures owner && !outcome.Cancelled? && l.unbid.Acked? ==> Freed(r, old(s.reqs[r].entry))
      ensures var q := old(s.reqs[r]);
              loads == 1 && Fillable(c, q.inst, q.entry, l, outcome)
              ==> FilledIn(c, start, trace, |old(trace)|, q.inst, q.entry, l, outcome)
    {
      ghost var q := s.reqs[r];
      var acquired, dropped := Acquire(r, l);
      if dropped { return Cancelled, 0, false; }
      if acquired {
        outcome := LoadAndRelease(r, l);
        return outcome, 1, true;
      }
      var cached, polls;
      ghost var seen;
      cached, polls, dropped, seen := WaitForOther(r, l);
      if dropped { return Cancelled, 0, false; }
      if cached.Some? {
        return Ok(cached.value.0, cached.value.1), 0, false;
      }
      outcome := LoadAndFill(r, l);
      ghost var filled := NoteFill(|old(trace)|, q.inst, q.entry, l, outcome);
      return outcome, 1, false;
    }

    /** `GroupedCache::get_or_load`, likewise. An owner that finishes has released the lock. */
    method GroupedGetOrLoad(r: nat, inst: nat, group: Text, field: Text, l: Luck)
      returns (result: Option<Outcome>, loads: nat, owner: bool)
      requires Valid() && Plausible(l) && r !in s.reqs && c.settings(inst).grouped
      modifies this
      ensures Valid() && old(trace) <= trace
      ensures Returned(|old(trace)|, r, inst, Field(group, field), l, result, loads)
      ensures owner && result.Some? && !result.value.Cancelled? && l.unbid.Acked? ==> Freed(r, Field(group, field))
      ensures owner ==> loads == 1 && l.bid.Acked?
      ensures loads == 1 && !owner ==> old(s.now) + 1000 <= s.now
    {
      owner := false;
      var way := Approach(r, inst, Field(group, field), l);
      if way.Ended? { return Some(way.outcome), 0, false; }
      if way.Waiting? { return None, 0, false; }
      var outcome;
      outcome, loads, owner := FlyAcrossNodes(r, l);
      if outcome.Cancelled? { Unwind(r); return Some(Cancelled), loads, owner; }
      ghost var flown := trace;
      LeaveFlight(r);
      KeepFill(flown, |old(trace)|, inst, Field(group, field), l, outcome);
      return Some(outcome), loads, owner;
    }
  }
}
