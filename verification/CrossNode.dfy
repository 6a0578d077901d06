/** What the cross-node lock does and does not promise. */
module CrossNode {
  import opened Texts
  import opened Protocol
  import Keys
  import Leases
  import SingleFlight

  /** The ground on which a request is loading or about to load. */
  function PermitOf(pc: Pc): Option<Permit> {
    if !pc.Inside? then None
    else match pc.stage
      case Call(permit) => Some(permit)
      case Loading(permit, _) => Some(permit)
      case Fill(permit, _, _, _, _) => Some(permit)
      case _ => None
  }

  /** The request has no further use for its lease. */
  predicate Through(pc: Pc) {
    pc.Done? || pc.Leaving? || (pc.Inside? && pc.stage.Unlock?)
  }

  /** An unexpired lease is still in place under its owner's token. */
  predicate Sound(s: State, r: nat)
    requires r in s.reqs
  {
    var q := s.reqs[r];
    match PermitOf(q.pc)
    case Some(Owned(expires)) =>
      && q.entry.Field? && expires <= s.now + Leases.LOCK_TTL_MS
      && (s.now < expires ==>
            LeaseKey(q.entry) in s.leases && s.leases[LeaseKey(q.entry)] == Leases.Lease(r, expires))
    case Some(TimedOut(since)) => q.entry.Field? && since + WAIT_MS <= s.now
    case Some(Unleased) => q.entry.Flat?
    case None => true
  }

  /** Past the second read, only grouped requests deal with the cross-node lock. */
  predicate Bidding(q: Request) {
    var stage := if q.pc.Inside? then q.pc.stage else Recheck;
    stage.Bid? || stage.Outbid? || stage.PollHead? || stage.Nap? || stage.Peek? ==> q.entry.Field?
  }

  ghost predicate LeaseInv(s: State) {
    && (forall r <- s.reqs :: Sound(s, r) && Bidding(s.reqs[r]))
    && (forall cmd <- s.wire :: cmd.Free? ==> cmd.from in s.reqs && Through(s.reqs[cmd.from].pc))
  }

  // ---- Preservation ----

  lemma ActKeepsOthers(c: Config, s: State, r: nat, a: Action, o: nat)
    requires LeaseInv(s) && Can(c, s, r, a) && o in s.reqs && o != r
    ensures Sound(Do(c, s, r, a), o)
  {
  }

  lemma ActKeepsSelf(c: Config, s: State, r: nat, a: Action)
    requires LeaseInv(s) && SingleFlight.Kinds(c, s) && Can(c, s, r, a)
    ensures Sound(Do(c, s, r, a), r) && Bidding(Do(c, s, r, a).reqs[r])
    ensures Through(s.reqs[r].pc) ==> Through(Do(c, s, r, a).reqs[r].pc)
    ensures a.SendUnbid? || (a.Cancel? && Pending(r, s.reqs[r]).Some? && Pending(r, s.reqs[r]).value.Free?) ==>
              Through(Do(c, s, r, a).reqs[r].pc)
  {
  }

  lemma LandedKeeps(s: State, cmd: Command, withdrawn: bool, o: nat)
    requires LeaseInv(s) && cmd in s.wire && o in s.reqs
    ensures Sound(Landed(s, cmd, withdrawn), o)
  {
  }

  lemma StepKeeps(c: Config, s: State, step: Step)
    requires LeaseInv(s) && SingleFlight.Kinds(c, s) && Enabled(c, s, step)
    ensures LeaseInv(Apply(c, s, step))
  {
    var s' := Apply(c, s, step);
    match step
    case Act(r, a) =>
      ActKeepsSelf(c, s, r, a);
      forall o <- s'.reqs ensures Sound(s', o) && Bidding(s'.reqs[o]) {
        if o != r { ActKeepsOthers(c, s, r, a, o); }
      }
    case Deliver(cmd, withdrawn) =>
      forall o <- s'.reqs ensures Sound(s', o) { LandedKeeps(s, cmd, withdrawn, o); }
    case _ =>
      forall o <- s'.reqs ensures Sound(s', o) { assert o in s.reqs ==> Sound(s, o); }
  }

  lemma {:induction false} RunKeeps(c: Config, s: State, steps: seq<Step>)
    requires LeaseInv(s) && SingleFlight.FlightInv(c, s) && Legal(c, s, steps)
    ensures LeaseInv(Run(c, s, steps))
    decreases |steps|
  {
    if steps != [] {
      StepKeeps(c, s, steps[0]);
      SingleFlight.StepKeeps(c, s, steps[0]);
      RunKeeps(c, Apply(c, s, steps[0]), steps[1..]);
    }
  }

  // ---- Theorems ----

  /** From the permit to load until the end of the write. */
  predicate InCharge(s: State, r: nat) {
    r in s.reqs && PermitOf(s.reqs[r].pc).Some?
  }

  function PermitAt(s: State, r: nat): Permit
    requires InCharge(s, r)
  {
    PermitOf(s.reqs[r].pc).value
  }

  predicate Owner(s: State, r: nat) {
    InCharge(s, r) && PermitAt(s, r).Owned?
  }

  /** Still loading or writing although the lease it was granted has run out. */
  predicate Overstayed(s: State, r: nat) {
    Owner(s, r) && PermitAt(s, r).expires <= s.now
  }

  /** `r1` was granted its lease no later than `r2`. */
  predicate GrantedFirst(s: State, r1: nat, r2: nat) {
    Owner(s, r1) && Owner(s, r2) && PermitAt(s, r1).expires <= PermitAt(s, r2).expires
  }

  predicate Degraded(s: State, r: nat) {
    InCharge(s, r) && PermitAt(s, r).TimedOut? && PermitAt(s, r).since + WAIT_MS <= s.now
  }

  /** Two requests in charge of the same field at the same moment, anywhere between their permit to
      load and the end of their write, are always on different instances, and either one of them had
      waited out its whole second, or both were granted the lease and the earlier one's has run out. */
  lemma OverlapExplained(c: Config, s0: State, steps: seq<Step>, r1: nat, r2: nat)
    requires Init(s0) && Legal(c, s0, steps) && r1 != r2
    ensures var s := Run(c, s0, steps);
            InCharge(s, r1) && InCharge(s, r2) && s.reqs[r1].entry == s.reqs[r2].entry && s.reqs[r1].entry.Field?
            ==> && s.reqs[r1].inst != s.reqs[r2].inst
                && (|| Degraded(s, r1) || Degraded(s, r2)
                    || (GrantedFirst(s, r1, r2) && Overstayed(s, r1))
                    || (GrantedFirst(s, r2, r1) && Overstayed(s, r2)))
  {
    RunKeeps(c, s0, steps);
    SingleFlight.MutualExclusion(c, s0, steps, r1, r2);
    var s := Run(c, s0, steps);
    if InCharge(s, r1) && InCharge(s, r2) && s.reqs[r1].entry == s.reqs[r2].entry && s.reqs[r1].entry.Field? {
      assert Sound(s, r1) && Sound(s, r2);
    }
  }

  /** Whatever late releases, expired bids and stray commands went before, a request loading or
      writing on an unexpired lease finds the lock under its own token, and anyone bidding now is turned away. */
  lemma LeaseHolds(c: Config, s0: State, steps: seq<Step>, r: nat, other: nat)
    requires Init(s0) && Legal(c, s0, steps)
    ensures var s := Run(c, s0, steps);
            Owner(s, r) && s.now < PermitAt(s, r).expires ==>
              var key, mine := LeaseKey(s.reqs[r].entry), Leases.Lease(r, PermitAt(s, r).expires);
              && key in s.leases && s.leases[key] == mine
              && Leases.TryAcquire(s.leases, s.now, key, other) == s.leases
              && (other != r ==> Leases.CompareAndDelete(s.leases, s.now, key, other) == s.leases)
  {
    RunKeeps(c, s0, steps);
    var s := Run(c, s0, steps);
    if Owner(s, r) { assert Sound(s, r); }
  }

  /** Fields do not contend for each other's leases. */
  lemma LeasesIndependent(t: Leases.Table, now: nat, token: nat, e: Entry, e': Entry)
    requires e.Field? && e'.Field?
    ensures LeaseKey(e) == Keys.LockKey(e.group, e.field)
    ensures LeaseKey(e) == LeaseKey(e') <==> e == e'
    ensures e != e' ==>
              var t' := Leases.TryAcquire(t, now, LeaseKey(e), token);
              Leases.Live(t', now, LeaseKey(e')) == Leases.Live(t, now, LeaseKey(e'))
  {
    Keys.KeysInjective(e.group, e.field, e'.group, e'.field);
  }

  /** A holder that was cancelled or lost never locks the others out for more than three seconds: in
      every reachable state every lease on record has run out 3000 ms later. */
  lemma LocksLapse(c: Config, s0: State, steps: seq<Step>, key: Text)
    requires Init(s0) && Legal(c, s0, steps)
    ensures !Leases.Live(Run(c, s0, steps).leases, Run(c, s0, steps).now + 3000, key)
  {
    LapsingKeeps(c, s0, steps);
  }

  ghost predicate Lapsing(s: State) {
    forall k <- s.leases :: s.leases[k].expires <= s.now + Leases.LOCK_TTL_MS
  }

  lemma {:induction false} LapsingKeeps(c: Config, s: State, steps: seq<Step>)
    requires Lapsing(s) && Legal(c, s, steps)
    ensures Lapsing(Run(c, s, steps))
    decreases |steps|
  {
    if steps != [] { LapsingKeeps(c, Apply(c, s, steps[0]), steps[1..]); }
  }

  // ---- After a release ----

  /** Past its bid without the lock: a lost bid of such a request may still land. */
  predicate Spent(pc: Pc) {
    match pc
    case Inside(_, stage) => (
      match stage
      case Outbid => true
      case PollHead(_, _) => true
      case Nap(_, _, _) => true
      case Peek(_, _) => true
      case Call(permit) => permit.TimedOut?
      case Loading(permit, _) => permit.TimedOut?
      case Fill(permit, _, _, _, _) => permit.TimedOut?
      case Unlock(_) => true
      case _ => false
    )
    case Leaving(_, _) => true
    case Done(_) => true
    case _ => false
  }

  /** A token is only ever found under its request's own lock key, and only a request past its bid has
      a lost bid under way. */
  ghost predicate TokenInv(s: State) {
    && (forall k <- s.leases :: s.leases[k].token in s.reqs && k == LeaseKey(s.reqs[s.leases[k].token].entry))
    && (forall cmd <- s.wire :: cmd.Grab? ==>
          cmd.from in s.reqs && cmd.key == LeaseKey(s.reqs[cmd.from].entry) && Spent(s.reqs[cmd.from].pc))
  }

  lemma SpentStays(c: Config, s: State, r: nat, a: Action)
    requires Can(c, s, r, a)
    ensures Spent(s.reqs[r].pc) ==> Spent(NextPc(c, s, r, a))
    ensures AtStage(s.reqs[r], Bid) && (a.Cancel? || (a.SendBid? && !a.reply.Acked?)) ==> Spent(NextPc(c, s, r, a))
  {
  }

  lemma TokenKeeps(c: Config, s: State, step: Step)
    requires TokenInv(s) && Enabled(c, s, step)
    ensures TokenInv(Apply(c, s, step))
  {
    if step.Act? { SpentStays(c, s, step.r, step.action); }
  }

  lemma {:induction false} TokensReachable(c: Config, s: State, steps: seq<Step>)
    requires TokenInv(s) && Legal(c, s, steps)
    ensures TokenInv(Run(c, s, steps))
    decreases |steps|
  {
    if steps != [] {
      TokenKeeps(c, s, steps[0]);
      TokensReachable(c, Apply(c, s, steps[0]), steps[1..]);
    }
  }

  /** No live lock carries the request's token, and none will. */
  ghost predicate Released(s: State, r: nat) {
    && r in s.reqs && Through(s.reqs[r].pc)
    && (forall cmd <- s.wire :: cmd.Grab? ==> cmd.from != r)
    && (forall k <- s.leases :: s.leases[k].token == r ==> s.leases[k].expires <= s.now)
  }

  lemma {:induction false} ReleasedStays(c: Config, s: State, steps: seq<Step>, r: nat)
    requires Legal(c, s, steps) && Released(s, r)
    ensures Released(Run(c, s, steps), r)
    decreases |steps|
  {
    if steps != [] { ReleasedStays(c, Apply(c, s, steps[0]), steps[1..], r); }
  }

  /** Once a release is acknowledged no live lock carries the releaser's token, then or ever after; in
      particular the next to bid finds the lock free unless somebody else has taken it. */
  lemma ReleaseFrees(c: Config, s0: State, steps: seq<Step>, r: nat, after: seq<Step>, k: Text)
    requires Init(s0) && Legal(c, s0, steps) && Can(c, Run(c, s0, steps), r, SendUnbid(Acked))
    requires Legal(c, Do(c, Run(c, s0, steps), r, SendUnbid(Acked)), after)
    ensures var t := Run(c, Do(c, Run(c, s0, steps), r, SendUnbid(Acked)), after);
            Leases.Live(t.leases, t.now, k) ==> t.leases[k].token != r
  {
    TokensReachable(c, s0, steps);
    ReleasedStays(c, Do(c, Run(c, s0, steps), r, SendUnbid(Acked)), after, r);
  }
}
