/** Cache-aside with single flight, as a state machine over the awaits of `get_or_load`.

    One machine covers both caches: a request on a `Flat` entry runs `CacheLayer::get_or_load`, a
    request on a `Field` entry runs `GroupedCache::get_or_load`. Any number of cache instances and
    requests share one store and one source. Each backend command takes effect atomically; it may
    be refused, and its reply may be lost, in which case the command may still land later. */
module Protocol {
  import opened Texts
  import Keys
  import Ttl
  import Flights
  import Leases

  // ---- Data ----

  type Value(==, !new)

  /** What a request asks for: a `CacheLayer` key, or a field of a `GroupedCache` group. */
  datatype Entry = Flat(key: Text) | Field(group: Text, field: Text)

  /** Construction parameters of one cache instance. */
  datatype Settings = Settings(grouped: bool, cacheSecs: nat, nullSecs: nat, backstopMs: nat)

  /** `content(e, n)` is what the source holds for `e` after its first `n` commits. */
  datatype Config = Config(
    settings: nat -> Settings,
    content: (Entry, nat) -> Value,
    encode: Value -> Option<Text>,
    decode: Text -> Option<Value>)

  const WAIT_MS: nat := 1000
  const POLL_MS: nat := 20

  datatype Writer = Foreign | Filled(inst: nat, at: nat)

  /** A stored payload; `version` and `writer` record where it came from and steer nothing. */
  datatype Cell = Cell(payload: Text, expires: Option<nat>, version: nat, writer: Writer)

  /** A per-key lock of one instance: the place in the table it was allocated for, and a serial. */
  datatype Slot = Slot(inst: nat, key: Text)
  datatype LockId = LockId(home: Slot, serial: nat)

  /** `version` records which commit the value shows and steers nothing. */
  datatype Outcome = Ok(value: Value, version: nat) | LoaderFailed | EncodeFailed | Cancelled

  /** On what ground a request calls its loader. */
  datatype Permit =
    | Unleased              // `CacheLayer`: no cross-node lock
    | Owned(expires: nat)   // holds the cross-node lock, until this time at the latest
    | TimedOut(since: nat)  // waited since this time in vain

  /** Where a request stands once it holds the in-process mutex. */
  datatype Stage =
    | Recheck
    | Bid
    | Outbid
    | PollHead(since: nat, polls: nat)
    | Nap(since: nat, polls: nat, wake: nat)
    | Peek(since: nat, polls: nat)
    | Call(permit: Permit)
    | Loading(permit: Permit, start: nat)
    | Fill(permit: Permit, value: Value, payload: Text, ttl: Option<nat>, version: nat)
    | Unbid(outcome: Outcome)
    | Unlock(outcome: Outcome)

  datatype Pc =
    | Probe                                   // about to make the first read
    | Miss                                    // first read missed, about to register
    | Queued(lock: LockId)                    // registered, waiting for the mutex
    | Inside(lock: LockId, stage: Stage)      // registered, holding the mutex
    | Leaving(lock: LockId, outcome: Outcome) // registered, mutex given back
    | Done(outcome: Outcome)

  datatype Request = Request(inst: nat, entry: Entry, pc: Pc)

  /** A command whose sender no longer waits for the reply. */
  datatype Command =
    | Put(from: nat, inst: nat, entry: Entry, payload: Text, ttl: Option<nat>, version: nat)
    | Grab(from: nat, key: Text)
    | Free(from: nat, key: Text)

  datatype Locks = Locks(arena: Flights.Arena<Slot, LockId>, serial: nat, owner: map<LockId, nat>)

  datatype State = State(
    now: nat,
    commits: nat,
    store: map<Entry, Cell>,
    leases: Leases.Table,
    wire: set<Command>,
    locks: Locks,
    reqs: map<nat, Request>)

  datatype Reply =
    | Acked      // took effect, reply arrived
    | Rejected   // no effect
    | Withdrawn  // the field script undid its own write
    | Unknown    // the reply is an error, the command may still land

  datatype Action =
    | Read(fails: bool)
    | Register
    | Lock
    | SendBid(reply: Reply)
    | BeginWait
    | Turn
    | Wake
    | CallLoader
    | LoaderReturns(version: nat, jitter: nat)
    | LoaderFails
    | Write(reply: Reply)
    | SendUnbid(reply: Reply)
    | Release
    | Leave
    | Cancel(sent: bool)

  datatype Step =
    | Arrive(r: nat, inst: nat, entry: Entry)
    | Act(r: nat, action: Action)
    | Deliver(cmd: Command, withdrawn: bool)
    | Tick(ms: nat)
    | Commit
    | Invalidate(gone: set<Entry>)
    | Corrupt(entry: Entry, payload: Text, expires: Option<nat>)

  // ---- Keys ----

  /** The key of the in-process lock table. */
  function SlotOf(q: Request): Slot {
    Slot(q.inst, match q.entry case Flat(key) => key case Field(g, f) => Keys.FlightKey(g, f))
  }

  /** The key of the cross-node lock; only grouped entries have one. */
  function LeaseKey(e: Entry): Text {
    match e case Flat(_) => [] case Field(g, f) => Keys.LockKey(g, f)
  }

  // ---- Reading and writing the store ----

  function Lookup(c: Config, s: State, e: Entry): Option<(Value, nat)> {
    if e !in s.store || !Fresh(s.store[e].expires, s.now) then None
    else match c.decode(s.store[e].payload)
      case None => None
      case Some(v) => Some((v, s.store[e].version))
  }

  predicate Fresh(expires: Option<nat>, now: nat) {
    expires.None? || now < expires.value
  }

  function Deadline(now: nat, ttl: Option<nat>): Option<nat> {
    match ttl case None => None case Some(ms) => Some(now + ms)
  }

  /** The TTL a fill is sent with. */
  function FillTtl(c: Config, inst: nat, payload: Text, jitter: nat): Option<nat> {
    var cfg := c.settings(inst);
    if cfg.grouped then Ttl.FieldTtlMs(cfg.backstopMs, jitter)
    else Some(Ttl.LayerTtlMs(cfg.cacheSecs, cfg.nullSecs, payload, jitter))
  }

  /** Redis refuses a zero expiry. */
  predicate Sendable(ttl: Option<nat>) { ttl != Some(0) }

  // ---- One request's next program point ----

  predicate Registered(pc: Pc) { pc.Queued? || pc.Inside? || pc.Leaving? }

  predicate AtStage(q: Request, stage: Stage) { q.pc.Inside? && q.pc.stage == stage }

  /** A suspended future can be dropped here. */
  predicate AtAwait(pc: Pc) {
    match pc
    case Probe => true
    case Queued(_) => true
    case Inside(_, stage) =>
      stage.Recheck? || stage.Bid? || stage.Nap? || stage.Peek? || stage.Loading? || stage.Fill? || stage.Unbid?
    case _ => false
  }

  /** The command a request is waiting on, if it is one that changes the store. */
  function Pending(r: nat, q: Request): Option<Command> {
    if !q.pc.Inside? then None
    else match q.pc.stage
      case Bid => Some(Grab(r, LeaseKey(q.entry)))
      case Fill(_, _, payload, ttl, version) =>
        if Sendable(ttl) then Some(Put(r, q.inst, q.entry, payload, ttl, version)) else None
      case Unbid(_) => Some(Free(r, LeaseKey(q.entry)))
      case _ => None
  }

  predicate Can(c: Config, s: State, r: nat, a: Action)
  {
    r in s.reqs &&
    var q := s.reqs[r];
    match a
    case Read(_) => q.pc.Probe? || (q.pc.Inside? && (q.pc.stage.Recheck? || q.pc.stage.Peek?))
    case Register => q.pc.Miss?
    case Lock => q.pc.Queued? && q.pc.lock !in s.locks.owner
    case SendBid(reply) => AtStage(q, Bid) && !reply.Withdrawn?
    case BeginWait => AtStage(q, Outbid)
    case Turn => q.pc.Inside? && q.pc.stage.PollHead?
    case Wake => q.pc.Inside? && q.pc.stage.Nap? && q.pc.stage.wake <= s.now
    case CallLoader => q.pc.Inside? && q.pc.stage.Call?
    case LoaderReturns(version, jitter) =>
      q.pc.Inside? && q.pc.stage.Loading? && q.pc.stage.start <= version <= s.commits && jitter <= Ttl.MAX_JITTER_MS
    case LoaderFails => q.pc.Inside? && q.pc.stage.Loading?
    case Write(reply) =>
      && q.pc.Inside? && q.pc.stage.Fill?
      && (reply.Acked? || reply.Unknown? ==> Sendable(q.pc.stage.ttl))
      && (reply.Withdrawn? ==> q.entry.Field? && q.pc.stage.ttl.Some?)
    case SendUnbid(reply) => q.pc.Inside? && q.pc.stage.Unbid? && !reply.Withdrawn?
    case Release => q.pc.Inside? && q.pc.stage.Unlock?
    case Leave => q.pc.Leaving?
    case Cancel(sent) => AtAwait(q.pc) && (sent ==> Pending(r, q).Some?)
  }

  /** A read either ends the request's search or sends it on. */
  function AfterRead(q: Request, grouped: bool, found: Option<(Value, nat)>): Pc
    requires q.pc.Probe? || (q.pc.Inside? && (q.pc.stage.Recheck? || q.pc.stage.Peek?))
  {
    match found
    case Some((v, version)) =>
      if q.pc.Probe? then Done(Ok(v, version)) else Inside(q.pc.lock, Unlock(Ok(v, version)))
    case None =>
      if q.pc.Probe? then Miss
      else if q.pc.stage.Peek? then Inside(q.pc.lock, PollHead(q.pc.stage.since, q.pc.stage.polls))
      else Inside(q.pc.lock, if grouped then Bid else Call(Unleased))
  }

  /** With the outcome known, the owner of the cross-node lock releases it first. */
  function Concluded(permit: Permit, outcome: Outcome): Stage {
    if permit.Owned? then Unbid(outcome) else Unlock(outcome)
  }

  function AfterLoad(c: Config, q: Request, permit: Permit, version: nat, jitter: nat): Stage {
    var value := c.content(q.entry, version);
    match c.encode(value)
    case None => Concluded(permit, EncodeFailed)
    case Some(payload) => Fill(permit, value, payload, FillTtl(c, q.inst, payload, jitter), version)
  }

  function AfterCancel(pc: Pc): Pc
    requires AtAwait(pc)
  {
    match pc
    case Probe => Done(Cancelled)
    case Queued(lock) => Leaving(lock, Cancelled)
    case Inside(lock, _) => Inside(lock, Unlock(Cancelled)) // the mutex guard drops before the registration
  }

  function NextPc(c: Config, s: State, r: nat, a: Action): Pc
    requires Can(c, s, r, a)
  {
    var q := s.reqs[r];
    match a
    case Read(fails) =>
      AfterRead(q, c.settings(q.inst).grouped, if fails then None else Lookup(c, s, q.entry))
    case Register => Queued(Flights.LockFor(s.locks.arena, SlotOf(q), Spare(s, q)))
    case Lock => Inside(q.pc.lock, Recheck)
    case SendBid(reply) =>
      if reply.Acked? && !Leases.Live(s.leases, s.now, LeaseKey(q.entry))
      then Inside(q.pc.lock, Call(Owned(s.now + Leases.LOCK_TTL_MS)))
      else Inside(q.pc.lock, Outbid)
    case BeginWait => Inside(q.pc.lock, PollHead(s.now, 0))
    case Turn =>
      var since, polls := q.pc.stage.since, q.pc.stage.polls;
      if s.now < since + WAIT_MS then Inside(q.pc.lock, Nap(since, polls, s.now + POLL_MS))
      else Inside(q.pc.lock, Call(TimedOut(since)))
    case Wake => Inside(q.pc.lock, Peek(q.pc.stage.since, q.pc.stage.polls + 1))
    case CallLoader => Inside(q.pc.lock, Loading(q.pc.stage.permit, s.commits))
    case LoaderReturns(version, jitter) => Inside(q.pc.lock, AfterLoad(c, q, q.pc.stage.permit, version, jitter))
    case LoaderFails => Inside(q.pc.lock, Concluded(q.pc.stage.permit, LoaderFailed))
    case Write(_) => Inside(q.pc.lock, Concluded(q.pc.stage.permit, Ok(q.pc.stage.value, q.pc.stage.version)))
    case SendUnbid(_) => Inside(q.pc.lock, Unlock(q.pc.stage.outcome))
    case Release => Leaving(q.pc.lock, q.pc.stage.outcome)
    case Leave => Done(q.pc.outcome)
    case Cancel(_) => AfterCancel(q.pc)
  }

  // ---- What an action does to the shared state ----

  /** The allocation a registration would make if its key had no lock yet. */
  function Spare(s: State, q: Request): LockId { LockId(SlotOf(q), s.locks.serial) }

  function StoreAfter(c: Config, s: State, r: nat, a: Action): map<Entry, Cell>
    requires Can(c, s, r, a)
  {
    var q := s.reqs[r];
    match a
    case Write(Acked) =>
      var stage := q.pc.stage;
      s.store[q.entry := Cell(stage.payload, Deadline(s.now, stage.ttl), stage.version, Filled(q.inst, s.now))]
    case Write(Withdrawn) => s.store - {q.entry}
    case _ => s.store
  }

  function LeasesAfter(c: Config, s: State, r: nat, a: Action): Leases.Table
    requires Can(c, s, r, a)
  {
    match a
    case SendBid(Acked) => Leases.TryAcquire(s.leases, s.now, LeaseKey(s.reqs[r].entry), r)
    case SendUnbid(Acked) => Leases.CompareAndDelete(s.leases, s.now, LeaseKey(s.reqs[r].entry), r)
    case _ => s.leases
  }

  function WireAfter(c: Config, s: State, r: nat, a: Action): set<Command>
    requires Can(c, s, r, a)
  {
    var pending := Pending(r, s.reqs[r]);
    var stays := match a
      case SendBid(reply) => reply.Unknown?
      case Write(reply) => reply.Unknown?
      case SendUnbid(reply) => reply.Unknown?
      case Cancel(sent) => sent
      case _ => false;
    if stays && pending.Some? then s.wire + {pending.value} else s.wire
  }

  function LocksAfter(c: Config, s: State, r: nat, a: Action): Locks
    requires Can(c, s, r, a)
  {
    var q := s.reqs[r];
    match a
    case Register =>
      s.locks.(arena := Flights.Enter(s.locks.arena, SlotOf(q), Spare(s, q)), serial := s.locks.serial + 1)
    case Lock => s.locks.(owner := s.locks.owner[q.pc.lock := r])
    case Release => s.locks.(owner := s.locks.owner - {q.pc.lock})
    case Leave => s.locks.(arena := Flights.Leave(s.locks.arena, SlotOf(q), q.pc.lock))
    case _ => s.locks
  }

  function Do(c: Config, s: State, r: nat, a: Action): State
    requires Can(c, s, r, a)
  {
    State(s.now, s.commits, StoreAfter(c, s, r, a), LeasesAfter(c, s, r, a), WireAfter(c, s, r, a),
          LocksAfter(c, s, r, a), s.reqs[r := s.reqs[r].(pc := NextPc(c, s, r, a))])
  }

  /** A command landing after its sender gave up on it. */
  function Landed(s: State, cmd: Command, withdrawn: bool): State {
    var rest := s.(wire := s.wire - {cmd});
    match cmd
    case Put(_, inst, entry, payload, ttl, version) =>
      rest.(store := if withdrawn then s.store - {entry}
                     else s.store[entry := Cell(payload, Deadline(s.now, ttl), version, Filled(inst, s.now))])
    case Grab(from, key) => rest.(leases := Leases.TryAcquire(s.leases, s.now, key, from))
    case Free(from, key) => rest.(leases := Leases.CompareAndDelete(s.leases, s.now, key, from))
  }

  // ---- Steps and runs ----

  predicate Enabled(c: Config, s: State, step: Step) {
    match step
    case Arrive(r, inst, entry) => r !in s.reqs && (c.settings(inst).grouped <==> entry.Field?)
    case Act(r, a) => Can(c, s, r, a)
    case Deliver(cmd, withdrawn) => cmd in s.wire && (withdrawn ==> cmd.Put? && cmd.entry.Field? && cmd.ttl.Some?)
    case Corrupt(_, payload, _) => c.decode(payload).None?
    case _ => true
  }

  function Apply(c: Config, s: State, step: Step): State
    requires Enabled(c, s, step)
  {
    match step
    case Arrive(r, inst, entry) => s.(reqs := s.reqs[r := Request(inst, entry, Probe)])
    case Act(r, a) => Do(c, s, r, a)
    case Deliver(cmd, withdrawn) => Landed(s, cmd, withdrawn)
    case Tick(ms) => s.(now := s.now + ms)
    case Commit => s.(commits := s.commits + 1)
    case Invalidate(gone) => s.(store := s.store - gone)
    case Corrupt(entry, payload, expires) => s.(store := s.store[entry := Cell(payload, expires, 0, Foreign)])
  }

  ghost predicate Legal(c: Config, s: State, steps: seq<Step>)
    decreases |steps|
  {
    steps == [] || (Enabled(c, s, steps[0]) && Legal(c, Apply(c, s, steps[0]), steps[1..]))
  }

  ghost function Run(c: Config, s: State, steps: seq<Step>): State
    requires Legal(c, s, steps)
    decreases |steps|
  {
    if steps == [] then s else Run(c, Apply(c, s, steps[0]), steps[1..])
  }

  /** Nothing in flight; the store may already hold anything. */
  ghost predicate Init(s: State) {
    && s.leases == map[] && s.wire == {} && s.reqs == map[]
    && s.locks == Locks(Flights.Arena(map[], map[]), 0, map[])
    && (forall e <- s.store :: s.store[e].writer.Foreign?)
  }

  // ---- Composing runs ----

  lemma {:induction false} Append(c: Config, s: State, xs: seq<Step>, step: Step)
    requires Legal(c, s, xs) && Enabled(c, Run(c, s, xs), step)
    ensures Legal(c, s, xs + [step]) && Run(c, s, xs + [step]) == Apply(c, Run(c, s, xs), step)
    decreases |xs|
  {
    if xs == [] {
      var t := Apply(c, s, step);
      assert xs + [step] == [step] && [step][1..] == [];
      assert Legal(c, t, []) && Run(c, t, []) == t;
    } else {
      Append(c, Apply(c, s, xs[0]), xs[1..], step);
      assert (xs + [step])[1..] == xs[1..] + [step];
    }
  }

  lemma {:induction false} Prefix(c: Config, s: State, xs: seq<Step>, ys: seq<Step>)
    requires Legal(c, s, xs + ys)
    ensures Legal(c, s, xs) && Legal(c, Run(c, s, xs), ys)
    decreases |xs|
  {
    if xs == [] {
      assert xs + ys == ys;
    } else {
      assert (xs + ys)[1..] == xs[1..] + ys;
      Prefix(c, Apply(c, s, xs[0]), xs[1..], ys);
    }
  }

  lemma {:induction false} Concat(c: Config, s: State, xs: seq<Step>, ys: seq<Step>)
    requires Legal(c, s, xs) && Legal(c, Run(c, s, xs), ys)
    ensures Legal(c, s, xs + ys) && Run(c, s, xs + ys) == Run(c, Run(c, s, xs), ys)
    decreases |xs|
  {
    if xs == [] {
      assert xs + ys == ys;
    } else {
      Concat(c, Apply(c, s, xs[0]), xs[1..], ys);
      assert (xs + ys)[1..] == xs[1..] + ys;
    }
  }

  lemma TwoSteps(c: Config, s: State, x: Step, y: Step)
    requires Enabled(c, s, x) && Enabled(c, Apply(c, s, x), y)
    ensures Legal(c, s, [x, y]) && Run(c, s, [x, y]) == Apply(c, Apply(c, s, x), y)
  {
    assert [x, y][1..] == [y] && [y][1..] == [];
    var s' := Apply(c, s, x);
    assert Legal(c, s', [y]) && Run(c, s', [y]) == Run(c, Apply(c, s', y), []);
  }
}
