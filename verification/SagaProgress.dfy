/** Every payment terminates, never gets stuck, and its result does not depend on the interleaving. */
module SagaProgress {
  import opened Common
  import opened Uuid
  import opened Domain
  import opened IdempotencyKeys
  import opened Saga
  import opened SagaInvariant
  import opened SagaLedger
  import opened SagaSafety
  import L = Ledger
  import B = CircuitBreaker

  // ---- termination -----------------------------------------------------------------

  /** Steps a goroutine may still take. */
  function LegWork(pc: LegPc): nat {
    match pc
    case AtBreaker => 8
    case AtProvider => 7
    case AtAccountRef => 6
    case AtBank => 5
    case AtCheck => 4
    case AtSave => 3
    case AtOutbox => 2
    case AtReport => 1
    case Done => 0
  }

  function CompWork(pc: CompPc): nat {
    match pc
    case AtResolve => 4
    case AtReverse => 3
    case AtCompCheck => 2
    case AtCompSave => 1
    case CompDone => 0
  }

  function LegsWork(ls: seq<Leg>): nat {
    if ls == [] then 0 else LegsWork(ls[..|ls| - 1]) + LegWork(ls[|ls| - 1].pc)
  }

  function CompsWork(cs: seq<Comp>): nat {
    if cs == [] then 0 else CompsWork(cs[..|cs| - 1]) + CompWork(cs[|cs| - 1].pc)
  }

  /** A bound on the steps the payment itself may still take. */
  function Remaining(s: State): nat {
    if s.status == Authorizing then LegsWork(s.legs) + 4 * |s.legs| + 2
    else if s.status == RollingBack then CompsWork(s.comps) + 1
    else 0
  }

  lemma {:induction false} LegsWorkUpdate(ls: seq<Leg>, i: nat, l: Leg)
    requires i < |ls|
    ensures LegsWork(ls[i := l]) + LegWork(ls[i].pc) == LegsWork(ls) + LegWork(l.pc)
  {
    var n := |ls| - 1;
    if i < n {
      LegsWorkUpdate(ls[..n], i, l);
      assert ls[i := l][..n] == ls[..n][i := l];
    } else {
      assert ls[i := l][..n] == ls[..n];
    }
  }

  lemma {:induction false} CompsWorkUpdate(cs: seq<Comp>, j: nat, c: Comp)
    requires j < |cs|
    ensures CompsWork(cs[j := c]) + CompWork(cs[j].pc) == CompsWork(cs) + CompWork(c.pc)
  {
    var n := |cs| - 1;
    if j < n {
      CompsWorkUpdate(cs[..n], j, c);
      assert cs[j := c][..n] == cs[..n][j := c];
    } else {
      assert cs[j := c][..n] == cs[..n];
    }
  }

  lemma {:induction false} NewCompsWork(cs: seq<Comp>)
    requires forall j :: 0 <= j < |cs| ==> cs[j].pc == AtResolve
    ensures CompsWork(cs) == 4 * |cs|
  {
    if cs != [] {
      NewCompsWork(cs[..|cs| - 1]);
    }
  }

  lemma {:induction false} SucceededShorter(ls: seq<Leg>)
    ensures |Succeeded(ls)| <= |ls|
  {
    if ls != [] {
      SucceededShorter(ls[..|ls| - 1]);
    }
  }

  lemma LegStepDecreases(job: Job, cfg: B.Config, s: State, i: nat, a: LegAct)
    requires Enabled(job, s, LegStep(i, a))
    ensures Remaining(AfterLeg(job, cfg, s, i, a)) < Remaining(s)
  {
    LegsWorkUpdate(s.legs, i, NewLeg(job, cfg, s, s.legs[i], a));
  }

  lemma CompStepDecreases(job: Job, s: State, j: nat, a: CompAct)
    requires Enabled(job, s, CompStep(j, a))
    ensures Remaining(AfterComp(job, s, j, a)) < Remaining(s)
  {
    CompsWorkUpdate(s.comps, j, NewComp(job, s, s.comps[j], a));
  }

  lemma JoinDecreases(job: Job, s: State)
    requires Enabled(job, s, Join)
    ensures Remaining(AfterJoin(s)) < Remaining(s)
  {
    if FirstFault(s.legs).Some? {
      NewCompsWork(AfterJoin(s).comps);
      SucceededShorter(s.legs);
    }
  }

  /** Each step of the payment itself brings it closer to its end; steps of others do not set it back. */
  lemma StepsDecrease(job: Job, cfg: B.Config, s: State, step: Step)
    requires Enabled(job, s, step)
    ensures step.Other? ==> Remaining(Next(job, cfg, s, step)) == Remaining(s)
    ensures !step.Other? ==> Remaining(Next(job, cfg, s, step)) < Remaining(s)
  {
    match step
    case LegStep(i, a) => LegStepDecreases(job, cfg, s, i, a);
    case CompStep(j, a) => CompStepDecreases(job, s, j, a);
    case Join => JoinDecreases(job, s);
    case _ =>
  }

  /** The steps of the payment itself among those of an execution. */
  function OwnSteps(steps: seq<Step>): nat {
    if steps == [] then 0 else OwnSteps(steps[..|steps| - 1]) + (if steps[|steps| - 1].Other? then 0 else 1)
  }

  /** No execution contains more than eight steps per leg, four per compensation, a join and a conclusion. */
  lemma {:induction false} RunsAreBounded(job: Job, cfg: B.Config, s0: State, steps: seq<Step>)
    requires Init(job, s0) && Valid(job, cfg, s0, steps)
    ensures OwnSteps(steps) + Remaining(Run(job, cfg, s0, steps)) <= 12 * |job.plan| + 2
  {
    if steps == [] {
      FreshLegsWork(s0.legs);
    } else {
      var before := steps[..|steps| - 1];
      RunsAreBounded(job, cfg, s0, before);
      StepsDecrease(job, cfg, Run(job, cfg, s0, before), steps[|steps| - 1]);
    }
  }

  lemma {:induction false} FreshLegsWork(ls: seq<Leg>)
    requires forall i :: 0 <= i < |ls| ==> ls[i].pc == AtBreaker
    ensures LegsWork(ls) == 8 * |ls|
  {
    if ls != [] {
      FreshLegsWork(ls[..|ls| - 1]);
    }
  }

  function SomeLegAct(pc: LegPc, id: UUID): LegAct
    requires pc != Done
    ensures PcOf(SomeLegAct(pc, id)) == pc
    ensures SomeLegAct(pc, id).Enqueue? ==> SomeLegAct(pc, id).id == id
  {
    match pc
    case AtBreaker => AskBreaker(0)
    case AtProvider => FindProvider
    case AtAccountRef => FindAccountRef
    case AtBank => Initiate(Ok(""))
    case AtCheck => CheckLedger
    case AtSave => SaveBatch
    case AtOutbox => Enqueue(id)
    case AtReport => ReportResult(0, 0)
  }

  function SomeCompAct(pc: CompPc): CompAct
    requires pc != CompDone
    ensures CompPcOf(SomeCompAct(pc)) == pc
  {
    match pc
    case AtResolve => Resolve
    case AtReverse => Reverse(None)
    case AtCompCheck => CheckReversal
    case AtCompSave => SaveReversal
  }

  /** An unfinished payment always has a step of its own to take, as long as fresh event identifiers can be generated. */
  lemma {:induction false} NeverStuck(job: Job, cfg: B.Config, s0: State, steps: seq<Step>, fresh_: UUID)
    requires Init(job, s0) && Valid(job, cfg, s0, steps)
    requires !Final(Run(job, cfg, s0, steps).status) && fresh_ !in Run(job, cfg, s0, steps).outbox
    ensures exists step: Step :: !step.Other? && Enabled(job, Run(job, cfg, s0, steps), step)
  {
    var s := Run(job, cfg, s0, steps);
    InvHolds(job, cfg, s0, steps);
    if s.status == Authorizing {
      if i :| 0 <= i < |s.legs| && s.legs[i].pc != Done {
        assert Enabled(job, s, LegStep(i, SomeLegAct(s.legs[i].pc, fresh_)));
      } else {
        assert Enabled(job, s, Join);
      }
    } else {
      if j :| 0 <= j < |s.comps| && s.comps[j].pc != CompDone {
        assert Enabled(job, s, CompStep(j, SomeCompAct(s.comps[j].pc)));
      } else {
        assert Enabled(job, s, Conclude);
      }
    }
  }

  // ---- confluence -----------------------------------------------------------------------

  /** How a leg is going to fare, and what each bank is going to answer to a reversal. */
  datatype Verdict = Accepted(ref: string) | Refused(fault: Fault)

  datatype Oracle = Oracle(legs: seq<Verdict>, reversals: map<UUID, Option<string>>)

  /** The step has the outcome the oracle foretells. */
  predicate Obeys(job: Job, cfg: B.Config, o: Oracle, s: State, step: Step)
    requires Enabled(job, s, step)
  {
    match step
    case LegStep(i, a) =>
      && i < |o.legs|
      && (a.Initiate? && a.reply.Ok? ==> o.legs[i] == Accepted(a.reply.value))
      && (var m := NewLeg(job, cfg, s, s.legs[i], a);
          s.legs[i].err.None? && m.err.Some? ==> o.legs[i] == Refused(m.err.value))
    case CompStep(j, Reverse(reply)) =>
      s.comps[j].leg.sourceID in o.reversals && o.reversals[s.comps[j].leg.sourceID] == reply
    case _ => true
  }

  predicate AllObey(job: Job, cfg: B.Config, o: Oracle, s0: State, steps: seq<Step>)
    requires Valid(job, cfg, s0, steps)
  {
    steps == [] ||
    var before := steps[..|steps| - 1];
    AllObey(job, cfg, o, s0, before) && Obeys(job, cfg, o, Run(job, cfg, s0, before), steps[|steps| - 1])
  }

  predicate LegFollows(v: Verdict, l: Leg) {
    (Paid(l) ==> v == Accepted(l.leg.externalRef)) && (l.err.Some? ==> v == Refused(l.err.value))
  }

  predicate CompFollows(o: Oracle, c: Comp) {
    c.pc !in {AtResolve, AtReverse} && !(c.err.Some? && c.err.value.Unresolved?) ==>
      && c.leg.sourceID in o.reversals
      && (match c.err
          case None => o.reversals[c.leg.sourceID] == None
          case Some(f) => o.reversals[c.leg.sourceID] == Some(f.message))
  }

  ghost predicate Follows(job: Job, o: Oracle, s: State) {
    && (forall i :: 0 <= i < |s.legs| && i < |o.legs| ==> LegFollows(o.legs[i], s.legs[i]))
    && (forall j :: 0 <= j < |s.comps| ==> CompFollows(o, s.comps[j]))
  }

  lemma LegStepFollows(job: Job, cfg: B.Config, o: Oracle, s: State, i: nat, a: LegAct)
    requires Shape(job, s) && Follows(job, o, s)
    requires Enabled(job, s, LegStep(i, a)) && Obeys(job, cfg, o, s, LegStep(i, a))
    ensures Follows(job, o, AfterLeg(job, cfg, s, i, a))
  {
    assert LegOk(job.plan[i], s.legs[i]) && LegFollows(o.legs[i], s.legs[i]);
    assert LegFollows(o.legs[i], NewLeg(job, cfg, s, s.legs[i], a));
  }

  lemma CompStepFollows(job: Job, cfg: B.Config, o: Oracle, s: State, j: nat, a: CompAct)
    requires Shape(job, s) && Follows(job, o, s)
    requires Enabled(job, s, CompStep(j, a)) && Obeys(job, cfg, o, s, CompStep(j, a))
    ensures Follows(job, o, AfterComp(job, s, j, a))
  {
    assert CompOk(Succeeded(s.legs)[j], s.comps[j]) && CompFollows(o, s.comps[j]);
    assert CompFollows(o, NewComp(job, s, s.comps[j], a));
  }

  lemma NextFollows(job: Job, cfg: B.Config, o: Oracle, s: State, step: Step)
    requires Shape(job, s) && Follows(job, o, s) && Enabled(job, s, step) && Obeys(job, cfg, o, s, step)
    ensures Follows(job, o, Next(job, cfg, s, step))
  {
    match step
    case LegStep(i, a) => LegStepFollows(job, cfg, o, s, i, a);
    case CompStep(j, a) => CompStepFollows(job, cfg, o, s, j, a);
    case _ => QuietStepFollows(job, cfg, o, s, step);
  }

  lemma QuietStepFollows(job: Job, cfg: B.Config, o: Oracle, s: State, step: Step)
    requires Follows(job, o, s) && Enabled(job, s, step) && !step.LegStep? && !step.CompStep?
    ensures Follows(job, o, Next(job, cfg, s, step))
  {
  }

  lemma {:induction false} RunFollows(job: Job, cfg: B.Config, o: Oracle, s0: State, steps: seq<Step>)
    requires Init(job, s0) && Valid(job, cfg, s0, steps) && AllObey(job, cfg, o, s0, steps)
    ensures Follows(job, o, Run(job, cfg, s0, steps))
  {
    if steps != [] {
      var before := steps[..|steps| - 1];
      RunFollows(job, cfg, o, s0, before);
      InvHolds(job, cfg, s0, before);
      NextFollows(job, cfg, o, Run(job, cfg, s0, before), steps[|steps| - 1]);
    }
  }

  /** A finished leg is determined by its plan and its verdict. */
  lemma SameLeg(p: SplitLeg, v: Verdict, l: Leg, m: Leg)
    requires LegOk(p, l) && LegOk(p, m) && LegFollows(v, l) && LegFollows(v, m)
    requires l.pc == Done && m.pc == Done
    ensures l == m
  {
  }

  lemma SameLegs(job: Job, o: Oracle, s: State, t: State)
    requires Shape(job, s) && Shape(job, t) && Follows(job, o, s) && Follows(job, o, t)
    requires AllDone(s.legs) && AllDone(t.legs) && |job.plan| <= |o.legs|
    ensures s.legs == t.legs
  {
    forall i | 0 <= i < |s.legs| ensures s.legs[i] == t.legs[i] {
      SameLeg(job.plan[i], o.legs[i], s.legs[i], t.legs[i]);
    }
  }

  lemma SameComps(job: Job, o: Oracle, s: State, t: State)
    requires Shape(job, s) && Shape(job, t) && Follows(job, o, s) && Follows(job, o, t)
    requires s.legs == t.legs && Final(s.status) && Final(t.status)
    ensures s.comps == t.comps
  {
    if FirstFault(s.legs).Some? {
      var todo := Succeeded(s.legs);
      forall j | 0 <= j < |s.comps| ensures s.comps[j] == t.comps[j] {
        assert CompOk(todo[j], s.comps[j]) && CompOk(todo[j], t.comps[j]);
        assert CompFollows(o, s.comps[j]) && CompFollows(o, t.comps[j]);
      }
    }
  }

  /** What a caller, the banks and an auditor of the ledger can see of a finished payment. */
  ghost predicate SameResult(job: Job, s: State, t: State) {
    && s.plan == t.plan && s.status == t.status && s.error == t.error
    && s.paid == t.paid && s.reversed == t.reversed
    && multiset(s.ledger.Of(job.id)) == multiset(t.ledger.Of(job.id))
  }

  /** The keys of this transaction that two ledgers hold. */
  ghost predicate SameKeys(job: Job, l: L.State, m: L.State) {
    forall src: UUID ::
      && (SettleKey(job.key, src) in l.entries <==> SettleKey(job.key, src) in m.entries)
      && (ReversalKey(job.key, src) in l.entries <==> ReversalKey(job.key, src) in m.entries)
  }

  lemma {:induction false} SameLogs(job: Job, l: L.State, m: L.State, legs: seq<SplitLeg>)
    requires SameKeys(job, l, m)
    ensures SettleLog(job, l, legs) == SettleLog(job, m, legs) && ReverseLog(job, l, legs) == ReverseLog(job, m, legs)
  {
    if legs != [] {
      SameLogs(job, l, m, legs[..|legs| - 1]);
    }
  }

  lemma FinalStatesAgree(job: Job, o: Oracle, l: L.State, s: State, m: L.State, t: State)
    requires Inv(job, l, s) && Inv(job, m, t) && Follows(job, o, s) && Follows(job, o, t) && SameKeys(job, l, m)
    requires Final(s.status) && Final(t.status) && |job.plan| <= |o.legs|
    ensures SameResult(job, s, t)
  {
    SameLegs(job, o, s, t);
    SameComps(job, o, s, t);
    FinalLog(job, l, s);
    FinalLog(job, m, t);
    SameLogs(job, l, m, Succeeded(s.legs));
    SameLogs(job, l, m, RolledBackLegs(s));
  }

  /** Given the outcome of each leg and of each reversal, any two complete executions end in the same plan in plan order,
      the same status and error, the same bank positions and the same ledger entries up to order, however their steps
      interleave and whatever other transactions do meanwhile. */
  lemma {:induction false} Confluence(job: Job, cfg: B.Config, o: Oracle, s0: State, steps: seq<Step>, t0: State, teps: seq<Step>)
    requires Init(job, s0) && Init(job, t0) && SameKeys(job, s0.ledger, t0.ledger) && |job.plan| <= |o.legs|
    requires Valid(job, cfg, s0, steps) && AllObey(job, cfg, o, s0, steps) && Final(Run(job, cfg, s0, steps).status)
    requires Valid(job, cfg, t0, teps) && AllObey(job, cfg, o, t0, teps) && Final(Run(job, cfg, t0, teps).status)
    ensures SameResult(job, Run(job, cfg, s0, steps), Run(job, cfg, t0, teps))
  {
    InvHolds(job, cfg, s0, steps);
    InvHolds(job, cfg, t0, teps);
    RunFollows(job, cfg, o, s0, steps);
    RunFollows(job, cfg, o, t0, teps);
    FinalStatesAgree(job, o, s0.ledger, Run(job, cfg, s0, steps), t0.ledger, Run(job, cfg, t0, teps));
  }

  /** The returned error is that of the lowest-indexed failing leg. */
  lemma {:induction false} FirstFaultIsLowest(ls: seq<Leg>, i: nat)
    requires i < |ls| && ls[i].err.Some? && forall k :: 0 <= k < i ==> ls[k].err.None?
    ensures FirstFault(ls) == ls[i].err
  {
    if i > 0 {
      FirstFaultIsLowest(ls[1..], i - 1);
    }
  }

  // ---- the sequential loops around the goroutines -------------------------------------------

  /** The loop after the executor's join. */
  method CollectResults(results: seq<Leg>) returns (plan: seq<SplitLeg>, failed: bool, firstErr: Option<Fault>, succeeded: seq<SplitLeg>)
    ensures plan == LegsOf(results) && firstErr == FirstFault(results) && succeeded == Succeeded(results)
    ensures failed <==> exists i :: 0 <= i < |results| && results[i].err.Some?
    ensures failed ==> exists i :: 0 <= i < |results| && results[i].err.Some? && firstErr == results[i].err
                                   && forall k :: 0 <= k < i ==> results[k].err.None?
  {
    plan, failed, firstErr, succeeded := [], false, None, [];
    for i := 0 to |results|
      invariant plan == LegsOf(results[..i]) && succeeded == Succeeded(results[..i])
      invariant failed <==> exists k :: 0 <= k < i && results[k].err.Some?
      invariant failed <==> firstErr.Some?
      invariant failed ==> exists j :: 0 <= j < i && results[j].err.Some? && firstErr == results[j].err
                                       && forall k :: 0 <= k < j ==> results[k].err.None?
    {
      var r := results[i];
      assert results[..i + 1][..i] == results[..i];
      plan := plan + [r.leg];
      if r.err.Some? {
        failed := true;
        if firstErr.None? {
          firstErr := r.err;
        }
        continue;
      }
      succeeded := succeeded + [r.leg];
    }
    assert results[..|results|] == results;
    FirstFaultIff(results);
    if failed {
      var i :| 0 <= i < |results| && results[i].err.Some? && firstErr == results[i].err && forall k :: 0 <= k < i ==> results[k].err.None?;
      FirstFaultIsLowest(results, i);
    }
  }

  /** The loop after the rollback handler's join. */
  method CollectFailures(results: seq<Comp>) returns (failures: seq<(UUID, CompFault)>)
    ensures failures == Failures(results)
    ensures failures == [] <==> forall j :: 0 <= j < |results| ==> results[j].err.None?
  {
    failures := [];
    for j := 0 to |results|
      invariant failures == Failures(results[..j])
      invariant failures == [] <==> forall k :: 0 <= k < j ==> results[k].err.None?
    {
      assert results[..j + 1][..j] == results[..j];
      if results[j].err.Some? {
        failures := failures + [(results[j].leg.sourceID, results[j].err.value)];
      }
    }
    assert results[..|results|] == results;
  }
}
