/** What decides the fate of each leg, read off the steps of the run alone. */
module SagaTraces {
  import opened Common
  import opened Uuid
  import opened Domain
  import opened Saga
  import opened SagaInvariant
  import opened SagaLedger
  import B = CircuitBreaker

  /** The calls one leg goroutine has made, in order. */
  function ActsOf(steps: seq<Step>, i: nat): seq<LegAct> {
    if steps == [] then []
    else
      var before, last := ActsOf(steps[..|steps| - 1], i), steps[|steps| - 1];
      if last.LegStep? && last.i == i then before + [last.a] else before
  }

  /** The leg is as planned, except that it is settled under the bank's reference. */
  predicate SettledAs(p: SplitLeg, l: Leg, ref: string) {
    l.err == None && l.leg == SplitLeg(p.sourceID, p.provider, p.assetType, p.amount, ref, Settled, p.error)
  }

  /** The leg is as planned, except that it has failed with this fault. */
  predicate FailedWith(p: SplitLeg, l: Leg, f: Fault) {
    l.err == Some(f) && l.leg == SplitLeg(p.sourceID, p.provider, p.assetType, p.amount, p.externalRef, SplitStatus.Failed, Some(f))
  }

  /** The first calls of every leg: breaker, provider, account reference, bank. */
  predicate Began(acts: seq<LegAct>, n: nat) {
    && n <= |acts|
    && (n > 0 ==> acts[0].AskBreaker?) && (n > 1 ==> acts[1].FindProvider?)
    && (n > 2 ==> acts[2].FindAccountRef?) && (n > 3 ==> acts[3].Initiate?)
  }

  /** After an accepted payment: the key is looked up, and batch and event are written or neither is. */
  predicate Recorded(acts: seq<LegAct>, n: nat) {
    && n <= |acts| && (n == 5 || n == 7)
    && acts[4].CheckLedger? && (n == 7 ==> acts[5].SaveBatch? && acts[6].Enqueue?)
  }

  /** A leg that has returned stopped at the first gate that was closed, or asked the bank and reported the answer. */
  predicate Finished(p: SplitLeg, l: Leg, acts: seq<LegAct>) {
    var n := |acts|;
    if n <= 3 then
      && n > 0 && Began(acts, n)
      && FailedWith(p, l, if n == 1 then CircuitOpen(p.provider) else if n == 2 then NoConnection(p.provider) else NoAccountRef(p.sourceID))
    else
      && Began(acts, 4) && acts[n - 1].ReportResult?
      && match acts[3].reply
         case Err(message) => n == 5 && FailedWith(p, l, BankError(message))
         case Ok(ref) => Recorded(acts, n - 1) && SettledAs(p, l, ref)
  }

  /** The same for a leg that is still under way. */
  predicate Underway(p: SplitLeg, l: Leg, acts: seq<LegAct>) {
    var n := |acts|;
    match l.pc
    case AtBreaker => n == 0 && l.leg == p && l.err == None
    case AtProvider => n == 1 && Began(acts, 1) && l.leg == p && l.err == None
    case AtAccountRef => n == 2 && Began(acts, 2) && l.leg == p && l.err == None
    case AtBank => n == 3 && Began(acts, 3) && l.leg == p && l.err == None
    case AtCheck => n == 4 && Began(acts, 4) && acts[3].reply.Ok? && SettledAs(p, l, acts[3].reply.value)
    case AtSave => n == 5 && Began(acts, 4) && acts[3].reply.Ok? && Recorded(acts, 5) && SettledAs(p, l, acts[3].reply.value)
    case AtOutbox =>
      n == 6 && Began(acts, 4) && acts[3].reply.Ok? && acts[4].CheckLedger? && acts[5].SaveBatch? && SettledAs(p, l, acts[3].reply.value)
    case AtReport =>
      Began(acts, 4) && (match acts[3].reply
                         case Err(message) => n == 4 && FailedWith(p, l, BankError(message))
                         case Ok(ref) => Recorded(acts, n) && SettledAs(p, l, ref))
    case Done => Finished(p, l, acts)
  }

  lemma {:induction false} ActAmong(steps: seq<Step>, i: nat, a: LegAct)
    ensures a in ActsOf(steps, i) <==> LegStep(i, a) in steps
  {
    if steps != [] {
      var before, last := steps[..|steps| - 1], steps[|steps| - 1];
      ActAmong(before, i, a);
      assert steps == before + [last];
    }
  }

  lemma TraceNext(job: Job, cfg: B.Config, s: State, p: SplitLeg, l: Leg, acts: seq<LegAct>, a: LegAct)
    requires Underway(p, l, acts) && l.pc == PcOf(a)
    ensures Underway(p, NewLeg(job, cfg, s, l, a), acts + [a])
  {
    var more := acts + [a];
    assert more[|acts|] == a && forall k :: 0 <= k < |acts| ==> more[k] == acts[k];
  }

  lemma {:induction false} LegTrace(job: Job, cfg: B.Config, s0: State, steps: seq<Step>, i: nat)
    requires Init(job, s0) && Valid(job, cfg, s0, steps) && i < |job.plan|
    ensures var s := Run(job, cfg, s0, steps);
            |s.legs| == |job.plan| && Underway(job.plan[i], s.legs[i], ActsOf(steps, i))
  {
    if steps != [] {
      var before, step := steps[..|steps| - 1], steps[|steps| - 1];
      LegTrace(job, cfg, s0, before, i);
      var s := Run(job, cfg, s0, before);
      if step.LegStep? && step.i == i {
        TraceNext(job, cfg, s, job.plan[i], s.legs[i], ActsOf(before, i), step.a);
      }
    }
  }

  /** When a payment ends, each leg of its plan is as planned apart from its outcome, and the outcome is that of the leg's own
      calls: the reference the bank gave, or the first refusal it met. */
  lemma {:induction false} LegsTellTheirStory(job: Job, cfg: B.Config, s0: State, steps: seq<Step>, i: nat)
    requires Init(job, s0) && Valid(job, cfg, s0, steps) && Final(Run(job, cfg, s0, steps).status) && i < |job.plan|
    ensures var s := Run(job, cfg, s0, steps);
            |s.plan| == |s.legs| == |job.plan| && s.plan[i] == s.legs[i].leg && Finished(job.plan[i], s.legs[i], ActsOf(steps, i))
  {
    InvHolds(job, cfg, s0, steps);
    LegTrace(job, cfg, s0, steps, i);
  }

  predicate Accepted(acts: seq<LegAct>) {
    |acts| > 3 && acts[3].Initiate? && acts[3].reply.Ok?
  }

  lemma {:induction false} AcceptedLeg(job: Job, cfg: B.Config, s0: State, steps: seq<Step>, i: nat)
    requires Init(job, s0) && Valid(job, cfg, s0, steps) && Final(Run(job, cfg, s0, steps).status) && i < |job.plan|
    ensures var s := Run(job, cfg, s0, steps);
            |s.legs| == |job.plan| && (s.legs[i].err.None? <==> Accepted(ActsOf(steps, i)))
  {
    LegsTellTheirStory(job, cfg, s0, steps, i);
  }

  lemma {:induction false} ApprovedIffNoFault(job: Job, cfg: B.Config, s0: State, steps: seq<Step>)
    requires Init(job, s0) && Valid(job, cfg, s0, steps) && Final(Run(job, cfg, s0, steps).status)
    ensures var s := Run(job, cfg, s0, steps);
            |s.legs| == |job.plan| && (s.status == Approved <==> forall i :: 0 <= i < |s.legs| ==> s.legs[i].err.None?)
  {
    InvHolds(job, cfg, s0, steps);
    FirstFaultIff(Run(job, cfg, s0, steps).legs);
  }

  /** A payment is approved exactly when every bank accepted. */
  lemma {:induction false} ApprovedIffAllAccepted(job: Job, cfg: B.Config, s0: State, steps: seq<Step>)
    requires Init(job, s0) && Valid(job, cfg, s0, steps) && Final(Run(job, cfg, s0, steps).status)
    ensures Run(job, cfg, s0, steps).status == Approved <==> forall i :: 0 <= i < |job.plan| ==> Accepted(ActsOf(steps, i))
  {
    ApprovedIffNoFault(job, cfg, s0, steps);
    var s := Run(job, cfg, s0, steps);
    if s.status == Approved {
      forall i | 0 <= i < |job.plan| ensures Accepted(ActsOf(steps, i)) {
        AcceptedLeg(job, cfg, s0, steps, i);
        assert s.legs[i].err.None?;
      }
    } else {
      var i :| 0 <= i < |s.legs| && s.legs[i].err.Some?;
      AcceptedLeg(job, cfg, s0, steps, i);
    }
  }

  // ---- gates --------------------------------------------------------------------

  function PcRank(pc: LegPc): nat {
    match pc
    case AtBreaker => 0
    case AtProvider => 1
    case AtAccountRef => 2
    case _ => 3
  }

  function FaultRank(f: Fault): nat {
    match f
    case CircuitOpen(_) => 0
    case NoConnection(_) => 1
    case NoAccountRef(_) => 2
    case BankError(_) => 3
  }

  /** Through the gate numbered `g` of breaker, provider and account reference. */
  predicate Through(l: Leg, g: nat) {
    PcRank(l.pc) > g && (l.err.Some? ==> FaultRank(l.err.value) > g)
  }

  lemma NextLegKeeps(job: Job, cfg: B.Config, s: State, step: Step, i: nat, g: nat)
    requires Enabled(job, s, step) && i < |s.legs| && g <= 2
    ensures var t := Next(job, cfg, s, step);
            && |t.legs| == |s.legs|
            && (s.legs[i].pc == Done ==> t.legs[i] == s.legs[i])
            && (Through(s.legs[i], g) ==> Through(t.legs[i], g))
  {
    if step.LegStep? && step.i == i {
      assert Through(s.legs[i], g) ==> Through(NewLeg(job, cfg, s, s.legs[i], step.a), g);
    }
  }

  /** A leg stays through the gates it has passed, and does nothing more once it has returned. */
  lemma {:induction false} LegKeeps(job: Job, cfg: B.Config, s0: State, steps: seq<Step>, k: nat, i: nat, g: nat)
    requires Init(job, s0) && Valid(job, cfg, s0, steps) && k <= |steps| && i < |job.plan| && g <= 2
    ensures Valid(job, cfg, s0, steps[..k])
    ensures var s, t := Run(job, cfg, s0, steps[..k]), Run(job, cfg, s0, steps);
            && |s.legs| == |t.legs| == |job.plan|
            && (s.legs[i].pc == Done ==> t.legs[i] == s.legs[i])
            && (Through(s.legs[i], g) ==> Through(t.legs[i], g))
    decreases |steps|
  {
    if k == |steps| {
      assert steps[..k] == steps;
      LegTrace(job, cfg, s0, steps, i);
    } else {
      var before := steps[..|steps| - 1];
      LegKeeps(job, cfg, s0, before, k, i, g);
      assert before[..k] == steps[..k];
      NextLegKeeps(job, cfg, Run(job, cfg, s0, before), steps[|steps| - 1], i, g);
    }
  }

  /** What a step of a leg found, and what it made of it. */
  lemma {:induction false} LegAtStep(job: Job, cfg: B.Config, s0: State, steps: seq<Step>, k: nat, i: nat, a: LegAct)
    requires Init(job, s0) && Valid(job, cfg, s0, steps) && k < |steps| && steps[k] == LegStep(i, a)
    ensures i < |job.plan| && Valid(job, cfg, s0, steps[..k]) && Valid(job, cfg, s0, steps[..k + 1])
    ensures var s, t := Run(job, cfg, s0, steps[..k]), Run(job, cfg, s0, steps[..k + 1]);
            && |s.legs| == |t.legs| == |job.plan| && s.legs[i].pc == PcOf(a)
            && t.legs[i] == NewLeg(job, cfg, s, s.legs[i], a)
            && Underway(job.plan[i], s.legs[i], ActsOf(steps[..k], i))
  {
    PrefixIsValid(job, cfg, s0, steps, k);
    PrefixIsValid(job, cfg, s0, steps, k + 1);
    assert steps[..k + 1][..k] == steps[..k];
    InvHolds(job, cfg, s0, steps[..k]);
    LegTrace(job, cfg, s0, steps[..k], i);
  }

  lemma {:induction false} PrefixIsValid(job: Job, cfg: B.Config, s0: State, steps: seq<Step>, k: nat)
    requires Valid(job, cfg, s0, steps) && k <= |steps|
    ensures Valid(job, cfg, s0, steps[..k])
    decreases |steps|
  {
    if k == |steps| {
      assert steps[..k] == steps;
    } else {
      var before := steps[..|steps| - 1];
      PrefixIsValid(job, cfg, s0, before, k);
      assert before[..k] == steps[..k];
    }
  }

  lemma NextRegistry(job: Job, cfg: B.Config, s: State, step: Step, name: string, source: UUID)
    requires Enabled(job, s, step)
    ensures name in Next(job, cfg, s, step).providers <==> name in s.providers || step == Other(RegisterProvider(name))
    ensures source in Next(job, cfg, s, step).refs <==> source in s.refs || step == Other(RegisterAccountRef(source))
  {
  }

  /** The registry holds what it held at the start and what has been registered since. */
  lemma {:induction false} RegistryOf(job: Job, cfg: B.Config, s0: State, steps: seq<Step>, name: string, source: UUID)
    requires Valid(job, cfg, s0, steps)
    ensures name in Run(job, cfg, s0, steps).providers <==> name in s0.providers || Other(RegisterProvider(name)) in steps
    ensures source in Run(job, cfg, s0, steps).refs <==> source in s0.refs || Other(RegisterAccountRef(source)) in steps
  {
    if steps != [] {
      var before, step := steps[..|steps| - 1], steps[|steps| - 1];
      RegistryOf(job, cfg, s0, before, name, source);
      NextRegistry(job, cfg, Run(job, cfg, s0, before), step, name, source);
      InSnoc(before, step, Other(RegisterProvider(name)));
      InSnoc(before, step, Other(RegisterAccountRef(source)));
      assert steps == before + [step];
    }
  }

  lemma InSnoc(before: seq<Step>, last: Step, step: Step)
    ensures step in before + [last] <==> step in before || step == last
  {
  }

  /** A leg fails for want of a provider exactly when its provider was registered neither before the run nor in it before the
      lookup. */
  lemma {:induction false} ProviderGate(job: Job, cfg: B.Config, s0: State, steps: seq<Step>, k: nat, i: nat)
    requires Init(job, s0) && Valid(job, cfg, s0, steps) && k < |steps| && steps[k] == LegStep(i, FindProvider)
    ensures i < |job.plan| && |Run(job, cfg, s0, steps).legs| == |job.plan|
    ensures var p := job.plan[i].provider;
            Run(job, cfg, s0, steps).legs[i].err == Some(NoConnection(p))
            <==> p !in s0.providers && Other(RegisterProvider(p)) !in steps[..k]
  {
    LegAtStep(job, cfg, s0, steps, k, i, FindProvider);
    RegistryOf(job, cfg, s0, steps[..k], job.plan[i].provider, job.plan[i].sourceID);
    LegKeeps(job, cfg, s0, steps, k + 1, i, 1);
  }

  /** The same for the account reference. */
  lemma {:induction false} AccountRefGate(job: Job, cfg: B.Config, s0: State, steps: seq<Step>, k: nat, i: nat)
    requires Init(job, s0) && Valid(job, cfg, s0, steps) && k < |steps| && steps[k] == LegStep(i, FindAccountRef)
    ensures i < |job.plan| && |Run(job, cfg, s0, steps).legs| == |job.plan|
    ensures var id := job.plan[i].sourceID;
            Run(job, cfg, s0, steps).legs[i].err == Some(NoAccountRef(id))
            <==> id !in s0.refs && Other(RegisterAccountRef(id)) !in steps[..k]
  {
    LegAtStep(job, cfg, s0, steps, k, i, FindAccountRef);
    RegistryOf(job, cfg, s0, steps[..k], job.plan[i].provider, job.plan[i].sourceID);
    LegKeeps(job, cfg, s0, steps, k + 1, i, 2);
  }
}
