/** Every value the caches hand out is the source's. */
module Agreement {
  import opened Texts
  import opened Protocol

  /** What was encoded decodes to itself or not at all. */
  ghost predicate Faithful(c: Config) {
    forall v :: match c.encode(v)
      case None => true
      case Some(payload) => c.decode(payload) == None || c.decode(payload) == Some(v)
  }

  function OutcomeOf(pc: Pc): Option<Outcome> {
    match pc
    case Inside(_, Unbid(o)) => Some(o)
    case Inside(_, Unlock(o)) => Some(o)
    case Leaving(_, o) => Some(o)
    case Done(o) => Some(o)
    case _ => None
  }

  predicate True(c: Config, e: Entry, v: Value, version: nat, commits: nat) {
    v == c.content(e, version) && version <= commits
  }

  predicate TrueOutcome(c: Config, e: Entry, o: Option<Outcome>, commits: nat) {
    match o case Some(Ok(v, version)) => True(c, e, v, version, commits) case _ => true
  }

  predicate TruePayload(c: Config, e: Entry, payload: Text, version: nat, commits: nat) {
    version <= commits && c.encode(c.content(e, version)) == Some(payload)
  }

  predicate TrueCell(c: Config, e: Entry, cell: Cell, commits: nat) {
    match c.decode(cell.payload) case None => true case Some(v) => True(c, e, v, cell.version, commits)
  }

  predicate TrueStage(c: Config, q: Request, commits: nat) {
    match q.pc
    case Inside(_, Loading(_, start)) => start <= commits
    case Inside(_, Fill(_, value, payload, _, version)) =>
      True(c, q.entry, value, version, commits) && c.encode(value) == Some(payload)
    case _ => true
  }

  predicate TrueRequest(c: Config, q: Request, commits: nat) {
    TrueOutcome(c, q.entry, OutcomeOf(q.pc), commits) && TrueStage(c, q, commits)
  }

  ghost predicate TrueStore(c: Config, s: State) {
    forall e <- s.store :: TrueCell(c, e, s.store[e], s.commits)
  }

  ghost predicate AgreeInv(c: Config, s: State) {
    && TrueStore(c, s)
    && (forall cmd <- s.wire :: cmd.Put? ==> TruePayload(c, cmd.entry, cmd.payload, cmd.version, s.commits))
    && (forall r <- s.reqs :: TrueRequest(c, s.reqs[r], s.commits))
  }

  // ---- Preservation ----

  lemma PayloadDecodesTrue(
    c: Config, e: Entry, payload: Text, version: nat, commits: nat, expires: Option<nat>, w: Writer)
    requires Faithful(c) && TruePayload(c, e, payload, version, commits)
    ensures TrueCell(c, e, Cell(payload, expires, version, w), commits)
  {
  }

  lemma ActKeepsRequest(c: Config, s: State, r: nat, a: Action)
    requires AgreeInv(c, s) && Can(c, s, r, a)
    ensures TrueRequest(c, Do(c, s, r, a).reqs[r], s.commits)
  {
  }

  lemma ActKeepsShared(c: Config, s: State, r: nat, a: Action)
    requires AgreeInv(c, s) && Faithful(c) && Can(c, s, r, a)
    ensures TrueStore(c, Do(c, s, r, a))
    ensures forall cmd <- Do(c, s, r, a).wire :: cmd.Put? ==>
              TruePayload(c, cmd.entry, cmd.payload, cmd.version, s.commits)
  {
  }

  lemma StepKeeps(c: Config, s: State, step: Step)
    requires AgreeInv(c, s) && Faithful(c) && Enabled(c, s, step)
    ensures AgreeInv(c, Apply(c, s, step))
  {
    match step
    case Act(r, a) =>
      ActKeepsRequest(c, s, r, a);
      ActKeepsShared(c, s, r, a);
    case Deliver(cmd, withdrawn) =>
      if cmd.Put? {
        PayloadDecodesTrue(c, cmd.entry, cmd.payload, cmd.version, s.commits,
                           Deadline(s.now, cmd.ttl), Filled(cmd.inst, s.now));
      }
    case Commit => CommitKeeps(c, s);
    case _ =>
  }

  lemma CommitKeeps(c: Config, s: State)
    requires AgreeInv(c, s)
    ensures AgreeInv(c, Apply(c, s, Commit))
  {
  }

  lemma {:induction false} RunKeeps(c: Config, s: State, steps: seq<Step>)
    requires AgreeInv(c, s) && Faithful(c) && Legal(c, s, steps)
    ensures AgreeInv(c, Run(c, s, steps))
    decreases |steps|
  {
    if steps != [] {
      StepKeeps(c, s, steps[0]);
      RunKeeps(c, Apply(c, s, steps[0]), steps[1..]);
    }
  }

  // ---- Theorems ----

  /** If what the store held at the start was the source's, every Ok result is what the source held
      for exactly the requested entry at some commit, under any failures, expiries, invalidations,
      corrupted entries, cancellations and late-landing writes. */
  lemma ResultsAgree(c: Config, s0: State, steps: seq<Step>, r: nat)
    requires Init(s0) && TrueStore(c, s0) && Faithful(c) && Legal(c, s0, steps)
    ensures var s := Run(c, s0, steps);
            r in s.reqs && s.reqs[r].pc.Done? && s.reqs[r].pc.outcome.Ok? ==>
              var o := s.reqs[r].pc.outcome;
              o.version <= s.commits && o.value == c.content(s.reqs[r].entry, o.version)
  {
    RunKeeps(c, s0, steps);
    var s := Run(c, s0, steps);
    if r in s.reqs { assert TrueRequest(c, s.reqs[r], s.commits); }
  }

  /** With a source that does not change, the caches are invisible. */
  lemma FixedSource(c: Config, s0: State, steps: seq<Step>, r: nat, f: Entry -> Value)
    requires Init(s0) && TrueStore(c, s0) && Faithful(c) && Legal(c, s0, steps)
    requires forall e, n :: c.content(e, n) == f(e)
    ensures var s := Run(c, s0, steps);
            r in s.reqs && s.reqs[r].pc.Done? && s.reqs[r].pc.outcome.Ok? ==>
              s.reqs[r].pc.outcome.value == f(s.reqs[r].entry)
  {
    ResultsAgree(c, s0, steps, r);
  }
}
