/** Which requests fail, and how often a loader is called. */
module Outcomes {
  import opened Texts
  import opened Protocol
  import Agreement

  predicate FailsLoading(step: Step, r: nat) {
    step == Act(r, LoaderFails)
  }

  /** The loader returned a value that does not serialise. */
  predicate FailsEncoding(c: Config, step: Step, r: nat, e: Entry) {
    && step.Act? && step.r == r && step.action.LoaderReturns?
    && c.encode(c.content(e, step.action.version)).None?
  }

  predicate IsCancel(step: Step, r: nat) {
    step.Act? && step.r == r && step.action.Cancel?
  }

  /** How often `r` calls its loader. */
  function Calls(steps: seq<Step>, r: nat): nat {
    if steps == [] then 0 else (if steps[0] == Act(r, CallLoader) then 1 else 0) + Calls(steps[1..], r)
  }

  /** Still able to call the loader. */
  predicate MayCall(pc: Pc) {
    match pc
    case Probe => true
    case Miss => true
    case Queued(_) => true
    case Inside(_, stage) =>
      stage.Recheck? || stage.Bid? || stage.Outbid? || stage.PollHead? || stage.Nap? || stage.Peek? || stage.Call?
    case _ => false
  }

  /** What has happened to a request so far. */
  datatype Past = Past(loaderFailed: bool, encodeFailed: bool, cancelled: bool)

  function Extend(c: Config, past: Past, step: Step, r: nat, e: Entry): Past {
    Past(past.loaderFailed || FailsLoading(step, r),
         past.encodeFailed || FailsEncoding(c, step, r, e),
         past.cancelled || IsCancel(step, r))
  }

  function ExtendAll(c: Config, past: Past, steps: seq<Step>, r: nat, e: Entry): Past
    decreases |steps|
  {
    if steps == [] then past else ExtendAll(c, Extend(c, past, steps[0], r, e), steps[1..], r, e)
  }

  /** A decided outcome is the one the past calls for; nothing has happened to an undecided one. */
  predicate Fits(o: Option<Outcome>, past: Past) {
    match o
    case None => past == Past(false, false, false)
    case Some(Ok(_, _)) => past == Past(false, false, false)
    case Some(LoaderFailed) => past == Past(true, false, false)
    case Some(EncodeFailed) => past == Past(false, true, false)
    case Some(Cancelled) => past.cancelled
  }

  predicate Consistent(s: State, r: nat, e: Entry, past: Past) {
    if r in s.reqs then s.reqs[r].entry == e && Fits(Agreement.OutcomeOf(s.reqs[r].pc), past)
    else Fits(None, past)
  }

  lemma ActConsistent(c: Config, s: State, r: nat, a: Action, past: Past)
    requires Can(c, s, r, a) && Fits(Agreement.OutcomeOf(s.reqs[r].pc), past)
    ensures Fits(Agreement.OutcomeOf(NextPc(c, s, r, a)), Extend(c, past, Act(r, a), r, s.reqs[r].entry))
  {
  }

  lemma StepConsistent(c: Config, s: State, step: Step, r: nat, e: Entry, past: Past)
    requires Enabled(c, s, step) && Consistent(s, r, e, past) && (step.Arrive? && step.r == r ==> step.entry == e)
    ensures Consistent(Apply(c, s, step), r, e, Extend(c, past, step, r, e))
  {
    if step.Act? && step.r == r { ActConsistent(c, s, r, step.action, past); }
  }

  lemma {:induction false} RunConsistent(c: Config, s: State, steps: seq<Step>, r: nat, e: Entry, past: Past)
    requires Legal(c, s, steps) && Consistent(s, r, e, past)
    requires r in Run(c, s, steps).reqs && Run(c, s, steps).reqs[r].entry == e
    ensures Consistent(Run(c, s, steps), r, e, ExtendAll(c, past, steps, r, e))
    decreases |steps|
  {
    if steps != [] {
      EntryStays(c, Apply(c, s, steps[0]), steps[1..], r);
      StepConsistent(c, s, steps[0], r, e, past);
      RunConsistent(c, Apply(c, s, steps[0]), steps[1..], r, e, Extend(c, past, steps[0], r, e));
    }
  }

  lemma {:induction false} EntryStays(c: Config, s: State, steps: seq<Step>, r: nat)
    requires Legal(c, s, steps)
    ensures r in s.reqs ==> r in Run(c, s, steps).reqs && Run(c, s, steps).reqs[r].entry == s.reqs[r].entry
    decreases |steps|
  {
    if steps != [] { EntryStays(c, Apply(c, s, steps[0]), steps[1..], r); }
  }

  lemma {:induction false} ExtendAllMeaning(c: Config, past: Past, steps: seq<Step>, r: nat, e: Entry)
    ensures var end := ExtendAll(c, past, steps, r, e);
            && (end.loaderFailed <==> past.loaderFailed || exists step <- steps :: FailsLoading(step, r))
            && (end.encodeFailed <==> past.encodeFailed || exists step <- steps :: FailsEncoding(c, step, r, e))
            && (end.cancelled <==> past.cancelled || exists step <- steps :: IsCancel(step, r))
    decreases |steps|
  {
    if steps != [] {
      ExtendAllMeaning(c, Extend(c, past, steps[0], r, e), steps[1..], r, e);
      assert forall step :: step in steps <==> step == steps[0] || step in steps[1..];
    }
  }

  lemma {:induction false} CallsBounded(c: Config, s: State, steps: seq<Step>, r: nat)
    requires Legal(c, s, steps)
    ensures Calls(steps, r) <= if r in s.reqs && !MayCall(s.reqs[r].pc) then 0 else 1
    decreases |steps|
  {
    if steps != [] { CallsBounded(c, Apply(c, s, steps[0]), steps[1..], r); }
  }

  /** Backend faults never surface. For every pattern of failing, lost and late commands, a finished
      request was cancelled, or failed because its own loader ran and failed, or because the loaded
      value did not serialise; otherwise it returned a value. And it called its loader at most once. */
  lemma FaultTransparency(c: Config, s0: State, steps: seq<Step>, r: nat)
    requires Init(s0) && Legal(c, s0, steps)
    requires r in Run(c, s0, steps).reqs && Run(c, s0, steps).reqs[r].pc.Done?
    ensures var q := Run(c, s0, steps).reqs[r];
            var o, cancelled := q.pc.outcome, exists step <- steps :: IsCancel(step, r);
            && (o == Cancelled <==> cancelled)
            && (!cancelled ==> (o == LoaderFailed <==> exists step <- steps :: FailsLoading(step, r)))
            && (!cancelled ==> (o == EncodeFailed <==> exists step <- steps :: FailsEncoding(c, step, r, q.entry)))
    ensures Calls(steps, r) <= 1
  {
    var q := Run(c, s0, steps).reqs[r];
    RunConsistent(c, s0, steps, r, q.entry, Past(false, false, false));
    ExtendAllMeaning(c, Past(false, false, false), steps, r, q.entry);
    CallsBounded(c, s0, steps, r);
  }
}
