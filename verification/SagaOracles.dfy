/** Which outcomes a payment can have: an outcome foretold for every leg and every reversal is reached by some complete run
    exactly when the registrations at the start allow it. */
module SagaOracles {
  import opened Common
  import opened Uuid
  import opened Domain
  import opened IdempotencyKeys
  import opened Saga
  import opened SagaInvariant
  import opened SagaLedger
  import opened SagaSafety
  import opened SagaProgress
  import L = Ledger
  import B = CircuitBreaker

  // ---- which outcomes are possible ----------------------------------------------------

  /** A leg's own circuit may open and its bank may answer as it likes; a missing registration must be missing at the start. */
  predicate Possible(s0: State, p: SplitLeg, v: Verdict) {
    match v
    case Accepted(_) => true
    case Refused(CircuitOpen(provider)) => provider == p.provider
    case Refused(NoConnection(provider)) => provider == p.provider && provider !in s0.providers
    case Refused(NoAccountRef(source)) => source == p.sourceID && source !in s0.refs
    case Refused(BankError(_)) => true
  }

  /** Each leg's verdict is possible, and if any leg is refused there is a reply for the reversal of every accepted one. */
  ghost predicate Realisable(job: Job, o: Oracle, s0: State) {
    && |job.plan| <= |o.legs|
    && (forall i :: 0 <= i < |job.plan| ==> Possible(s0, job.plan[i], o.legs[i]))
    && (forall i, k :: 0 <= i < |job.plan| && 0 <= k < |job.plan| && o.legs[i].Accepted? && o.legs[k].Refused?
                       ==> job.plan[i].sourceID in o.reversals)
  }

  /** A run to the end in which everything happens as the oracle foretells. */
  ghost predicate Complete(job: Job, cfg: B.Config, o: Oracle, s0: State, steps: seq<Step>) {
    Valid(job, cfg, s0, steps) && AllObey(job, cfg, o, s0, steps) && Final(Run(job, cfg, s0, steps).status)
  }

  // ---- building a run ---------------------------------------------------------------------

  /** The steps lead from `s0` to `s`, as the oracle foretells. */
  ghost predicate At(job: Job, cfg: B.Config, o: Oracle, s0: State, steps: seq<Step>, s: State) {
    Valid(job, cfg, s0, steps) && AllObey(job, cfg, o, s0, steps) && Run(job, cfg, s0, steps) == s
  }

  lemma Take(job: Job, cfg: B.Config, o: Oracle, s0: State, steps: seq<Step>, s: State, step: Step) returns (more: seq<Step>)
    requires At(job, cfg, o, s0, steps, s) && Enabled(job, s, step) && Obeys(job, cfg, o, s, step)
    ensures At(job, cfg, o, s0, more, Next(job, cfg, s, step))
  {
    more := steps + [step];
    assert more[..|more| - 1] == steps;
  }

  /** A leg goroutine about to take its next step. */
  predicate Ready(o: Oracle, s: State, i: nat, pc: LegPc) {
    s.status == Authorizing && i < |s.legs| && i < |o.legs| && s.legs[i].pc == pc && s.legs[i].err.None?
  }

  lemma PassBreaker(job: Job, cfg: B.Config, o: Oracle, s0: State, steps: seq<Step>, s: State, i: nat)
    returns (more: seq<Step>, t: State)
    requires At(job, cfg, o, s0, steps, s) && Ready(o, s, i, AtBreaker)
    ensures At(job, cfg, o, s0, more, t)
    ensures t == s.(legs := s.legs[i := s.legs[i].(pc := AtProvider)], breaker := t.breaker)
  {
    more := Take(job, cfg, o, s0, steps, s, Other(OtherBreaker(B.FRESH)));
    t := AfterOther(s, OtherBreaker(B.FRESH));
    more := Take(job, cfg, o, s0, more, t, LegStep(i, AskBreaker(0)));
    t := AfterLeg(job, cfg, t, i, AskBreaker(0));
  }

  lemma FailBreaker(job: Job, cfg: B.Config, o: Oracle, s0: State, steps: seq<Step>, s: State, i: nat)
    returns (more: seq<Step>, t: State)
    requires At(job, cfg, o, s0, steps, s) && Ready(o, s, i, AtBreaker)
    requires o.legs[i] == Refused(CircuitOpen(s.legs[i].leg.provider))
    ensures At(job, cfg, o, s0, more, t)
    ensures t == s.(legs := s.legs[i := Stop(s.legs[i], CircuitOpen(s.legs[i].leg.provider), Done)], breaker := t.breaker)
  {
    var p := s.legs[i].leg.provider;
    var open := B.State(map[], map[p := B.Open], map[p := 1 - cfg.openDuration]);
    more := Take(job, cfg, o, s0, steps, s, Other(OtherBreaker(open)));
    t := AfterOther(s, OtherBreaker(open));
    more := Take(job, cfg, o, s0, more, t, LegStep(i, AskBreaker(0)));
    t := AfterLeg(job, cfg, t, i, AskBreaker(0));
  }

  lemma PassProvider(job: Job, cfg: B.Config, o: Oracle, s0: State, steps: seq<Step>, s: State, i: nat)
    returns (more: seq<Step>, t: State)
    requires At(job, cfg, o, s0, steps, s) && Ready(o, s, i, AtProvider)
    ensures At(job, cfg, o, s0, more, t)
    ensures t == s.(legs := s.legs[i := s.legs[i].(pc := AtAccountRef)], providers := s.providers + {s.legs[i].leg.provider})
  {
    var register := RegisterProvider(s.legs[i].leg.provider);
    more := Take(job, cfg, o, s0, steps, s, Other(register));
    t := AfterOther(s, register);
    more := Take(job, cfg, o, s0, more, t, LegStep(i, FindProvider));
    t := AfterLeg(job, cfg, t, i, FindProvider);
  }

  lemma FailProvider(job: Job, cfg: B.Config, o: Oracle, s0: State, steps: seq<Step>, s: State, i: nat)
    returns (more: seq<Step>, t: State)
    requires At(job, cfg, o, s0, steps, s) && Ready(o, s, i, AtProvider) && s.legs[i].leg.provider !in s.providers
    requires o.legs[i] == Refused(NoConnection(s.legs[i].leg.provider))
    ensures At(job, cfg, o, s0, more, t)
    ensures t == s.(legs := s.legs[i := Stop(s.legs[i], NoConnection(s.legs[i].leg.provider), Done)])
  {
    more := Take(job, cfg, o, s0, steps, s, LegStep(i, FindProvider));
    t := AfterLeg(job, cfg, s, i, FindProvider);
  }

  lemma PassAccountRef(job: Job, cfg: B.Config, o: Oracle, s0: State, steps: seq<Step>, s: State, i: nat)
    returns (more: seq<Step>, t: State)
    requires At(job, cfg, o, s0, steps, s) && Ready(o, s, i, AtAccountRef)
    ensures At(job, cfg, o, s0, more, t)
    ensures t == s.(legs := s.legs[i := s.legs[i].(pc := AtBank)], refs := s.refs + {s.legs[i].leg.sourceID})
  {
    var register := RegisterAccountRef(s.legs[i].leg.sourceID);
    more := Take(job, cfg, o, s0, steps, s, Other(register));
    t := AfterOther(s, register);
    more := Take(job, cfg, o, s0, more, t, LegStep(i, FindAccountRef));
    t := AfterLeg(job, cfg, t, i, FindAccountRef);
  }

  lemma FailAccountRef(job: Job, cfg: B.Config, o: Oracle, s0: State, steps: seq<Step>, s: State, i: nat)
    returns (more: seq<Step>, t: State)
    requires At(job, cfg, o, s0, steps, s) && Ready(o, s, i, AtAccountRef) && s.legs[i].leg.sourceID !in s.refs
    requires o.legs[i] == Refused(NoAccountRef(s.legs[i].leg.sourceID))
    ensures At(job, cfg, o, s0, more, t)
    ensures t == s.(legs := s.legs[i := Stop(s.legs[i], NoAccountRef(s.legs[i].leg.sourceID), Done)])
  {
    more := Take(job, cfg, o, s0, steps, s, LegStep(i, FindAccountRef));
    t := AfterLeg(job, cfg, s, i, FindAccountRef);
  }

  lemma BankRefuses(job: Job, cfg: B.Config, o: Oracle, s0: State, steps: seq<Step>, s: State, i: nat, message: string)
    returns (more: seq<Step>, t: State)
    requires At(job, cfg, o, s0, steps, s) && Ready(o, s, i, AtBank) && o.legs[i] == Refused(BankError(message))
    ensures At(job, cfg, o, s0, more, t)
    ensures t == s.(legs := s.legs[i := Stop(s.legs[i], BankError(message), Done)], breaker := t.breaker)
  {
    more := Take(job, cfg, o, s0, steps, s, LegStep(i, Initiate(Err(message))));
    t := AfterLeg(job, cfg, s, i, Initiate(Err(message)));
    more := Take(job, cfg, o, s0, more, t, LegStep(i, ReportResult(0, 0)));
    t := AfterLeg(job, cfg, t, i, ReportResult(0, 0));
  }

  lemma BankAccepts(job: Job, cfg: B.Config, o: Oracle, s0: State, steps: seq<Step>, s: State, i: nat, ref: string)
    returns (more: seq<Step>, t: State)
    requires At(job, cfg, o, s0, steps, s) && Ready(o, s, i, AtBank) && o.legs[i] == Accepted(ref)
    ensures At(job, cfg, o, s0, more, t)
    ensures |t.legs| == |s.legs|
    ensures t == s.(legs := s.legs[i := Leg(t.legs[i].pc, SettledLeg(s.legs[i].leg, ref), None)], paid := t.paid)
    ensures t.legs[i].pc in {AtSave, AtReport}
  {
    more := Take(job, cfg, o, s0, steps, s, LegStep(i, Initiate(Ok(ref))));
    t := AfterLeg(job, cfg, s, i, Initiate(Ok(ref)));
    more := Take(job, cfg, o, s0, more, t, LegStep(i, CheckLedger));
    t := AfterLeg(job, cfg, t, i, CheckLedger);
  }

  lemma SaveAndAnnounce(job: Job, cfg: B.Config, o: Oracle, s0: State, steps: seq<Step>, s: State, i: nat, id: UUID)
    returns (more: seq<Step>, t: State)
    requires At(job, cfg, o, s0, steps, s) && Ready(o, s, i, AtSave) && id !in s.outbox
    ensures At(job, cfg, o, s0, more, t)
    ensures t == s.(legs := s.legs[i := s.legs[i].(pc := AtReport)], ledger := t.ledger, outbox := t.outbox)
    ensures t.outbox.Keys == s.outbox.Keys + {id}
  {
    more := Take(job, cfg, o, s0, steps, s, LegStep(i, SaveBatch));
    t := AfterLeg(job, cfg, s, i, SaveBatch);
    more := Take(job, cfg, o, s0, more, t, LegStep(i, Enqueue(id)));
    t := AfterLeg(job, cfg, t, i, Enqueue(id));
  }

  lemma Report(job: Job, cfg: B.Config, o: Oracle, s0: State, steps: seq<Step>, s: State, i: nat)
    returns (more: seq<Step>, t: State)
    requires At(job, cfg, o, s0, steps, s) && Ready(o, s, i, AtReport)
    ensures At(job, cfg, o, s0, more, t)
    ensures t == s.(legs := s.legs[i := s.legs[i].(pc := Done)], breaker := t.breaker)
  {
    more := Take(job, cfg, o, s0, steps, s, LegStep(i, ReportResult(0, 0)));
    t := AfterLeg(job, cfg, s, i, ReportResult(0, 0));
  }

  // ---- one leg to its end ---------------------------------------------------------------------

  /** Leg `i` has run to its end, and nothing else of the payment has moved. */
  ghost predicate Finished(s: State, t: State, i: nat, id: UUID) {
    && t.status == s.status && t.comps == s.comps
    && |t.legs| == |s.legs| && i < |s.legs| && t.legs[i].pc == Done
    && (forall k :: 0 <= k < |s.legs| && k != i ==> t.legs[k] == s.legs[k])
    && t.refs <= s.refs + {s.legs[i].leg.sourceID}
    && t.outbox.Keys <= s.outbox.Keys + {id}
  }

  lemma AcceptLeg(job: Job, cfg: B.Config, o: Oracle, s0: State, steps: seq<Step>, s: State, i: nat, id: UUID)
    returns (more: seq<Step>, t: State)
    requires At(job, cfg, o, s0, steps, s) && Ready(o, s, i, AtBank) && o.legs[i].Accepted? && id !in s.outbox
    ensures At(job, cfg, o, s0, more, t) && Finished(s, t, i, id)
  {
    more, t := BankAccepts(job, cfg, o, s0, steps, s, i, o.legs[i].ref);
    if t.legs[i].pc == AtSave {
      assert Ready(o, t, i, AtSave) && t.outbox == s.outbox;
      more, t := SaveAndAnnounce(job, cfg, o, s0, more, t, i, id);
    }
    assert Ready(o, t, i, AtReport);
    more, t := Report(job, cfg, o, s0, more, t, i);
  }

  lemma ReachBank(job: Job, cfg: B.Config, o: Oracle, s0: State, steps: seq<Step>, s: State, i: nat)
    returns (more: seq<Step>, t: State)
    requires At(job, cfg, o, s0, steps, s) && Ready(o, s, i, AtBreaker)
    ensures At(job, cfg, o, s0, more, t)
    ensures t == s.(legs := s.legs[i := s.legs[i].(pc := AtBank)], breaker := t.breaker, providers := t.providers,
                    refs := s.refs + {s.legs[i].leg.sourceID})
  {
    more, t := PassBreaker(job, cfg, o, s0, steps, s, i);
    more, t := PassProvider(job, cfg, o, s0, more, t, i);
    more, t := PassAccountRef(job, cfg, o, s0, more, t, i);
  }

  lemma MissAccountRef(job: Job, cfg: B.Config, o: Oracle, s0: State, steps: seq<Step>, s: State, i: nat, id: UUID)
    returns (more: seq<Step>, t: State)
    requires At(job, cfg, o, s0, steps, s) && Ready(o, s, i, AtBreaker) && s.legs[i].leg.sourceID !in s.refs
    requires o.legs[i] == Refused(NoAccountRef(s.legs[i].leg.sourceID))
    ensures At(job, cfg, o, s0, more, t) && Finished(s, t, i, id)
  {
    more, t := PassBreaker(job, cfg, o, s0, steps, s, i);
    more, t := PassProvider(job, cfg, o, s0, more, t, i);
    more, t := FailAccountRef(job, cfg, o, s0, more, t, i);
  }

  lemma RefuseLeg(job: Job, cfg: B.Config, o: Oracle, s0: State, steps: seq<Step>, s: State, i: nat, id: UUID)
    returns (more: seq<Step>, t: State)
    requires At(job, cfg, o, s0, steps, s) && Ready(o, s, i, AtBreaker) && o.legs[i].Refused? && o.legs[i].fault.BankError?
    ensures At(job, cfg, o, s0, more, t) && Finished(s, t, i, id)
  {
    more, t := ReachBank(job, cfg, o, s0, steps, s, i);
    more, t := BankRefuses(job, cfg, o, s0, more, t, i, o.legs[i].fault.message);
  }

  /** A leg whose provider is not the reason it fails. */
  lemma FinishLeg(job: Job, cfg: B.Config, o: Oracle, s0: State, steps: seq<Step>, s: State, i: nat, id: UUID)
    returns (more: seq<Step>, t: State)
    requires At(job, cfg, o, s0, steps, s) && Ready(o, s, i, AtBreaker) && id !in s.outbox
    requires Possible(s, s.legs[i].leg, o.legs[i]) && !(o.legs[i].Refused? && o.legs[i].fault.NoConnection?)
    ensures At(job, cfg, o, s0, more, t) && Finished(s, t, i, id)
  {
    match o.legs[i]
    case Refused(CircuitOpen(_)) =>
      more, t := FailBreaker(job, cfg, o, s0, steps, s, i);
    case Refused(NoAccountRef(_)) =>
      more, t := MissAccountRef(job, cfg, o, s0, steps, s, i, id);
    case Refused(BankError(_)) =>
      more, t := RefuseLeg(job, cfg, o, s0, steps, s, i, id);
    case Accepted(_) =>
      more, t := ReachBank(job, cfg, o, s0, steps, s, i);
      more, t := AcceptLeg(job, cfg, o, s0, more, t, i, id);
  }

  lemma FinishUnconnected(job: Job, cfg: B.Config, o: Oracle, s0: State, steps: seq<Step>, s: State, i: nat)
    returns (more: seq<Step>, t: State)
    requires At(job, cfg, o, s0, steps, s) && Ready(o, s, i, AtBreaker)
    requires Possible(s, s.legs[i].leg, o.legs[i]) && o.legs[i].Refused? && o.legs[i].fault.NoConnection?
    ensures At(job, cfg, o, s0, more, t)
    ensures |t.legs| == |s.legs|
    ensures t == s.(legs := s.legs[i := t.legs[i]], breaker := t.breaker) && t.legs[i].pc == Done
  {
    more, t := PassBreaker(job, cfg, o, s0, steps, s, i);
    more, t := FailProvider(job, cfg, o, s0, more, t, i);
  }

  // ---- all legs, the unconnected ones first -------------------------------------------------------

  predicate Unconnected(v: Verdict) {
    v.Refused? && v.fault.NoConnection?
  }

  /** The unconnected legs among the first `n` have ended, and nothing else of the payment has moved. */
  ghost predicate FirstPass(job: Job, o: Oracle, s0: State, s: State, n: nat) {
    && |job.plan| <= |o.legs| && n <= |job.plan| == |s.legs|
    && s.status == Authorizing && s.comps == []
    && s.providers == s0.providers && s.refs == s0.refs && s.outbox == s0.outbox
    && (forall i :: 0 <= i < |s.legs| ==>
          if i < n && Unconnected(o.legs[i]) then s.legs[i].pc == Done else s.legs[i] == Leg(AtBreaker, job.plan[i], None))
  }

  lemma {:induction false} RunFirstPass(job: Job, cfg: B.Config, o: Oracle, s0: State, n: nat)
    returns (steps: seq<Step>, s: State)
    requires Init(job, s0) && Realisable(job, o, s0) && n <= |job.plan|
    ensures At(job, cfg, o, s0, steps, s) && FirstPass(job, o, s0, s, n)
  {
    if n == 0 {
      steps, s := [], s0;
    } else {
      steps, s := RunFirstPass(job, cfg, o, s0, n - 1);
      if Unconnected(o.legs[n - 1]) {
        assert s.legs[n - 1] == Leg(AtBreaker, job.plan[n - 1], None);
        assert Possible(s0, job.plan[n - 1], o.legs[n - 1]);
        steps, s := FinishUnconnected(job, cfg, o, s0, steps, s, n - 1);
      }
    }
  }

  /** The first `n` legs and all unconnected ones have ended; the others have not started, and their account references and
      event identifiers are untouched. */
  ghost predicate SecondPass(job: Job, o: Oracle, s0: State, ids: seq<UUID>, s: State, n: nat) {
    && |job.plan| <= |o.legs| && n <= |job.plan| == |s.legs| == |ids|
    && s.status == Authorizing && s.comps == []
    && (forall i :: 0 <= i < |s.legs| ==>
          if i < n || Unconnected(o.legs[i]) then s.legs[i].pc == Done else s.legs[i] == Leg(AtBreaker, job.plan[i], None))
    && (forall i :: n <= i < |s.legs| ==> (job.plan[i].sourceID in s.refs ==> job.plan[i].sourceID in s0.refs) && ids[i] !in s.outbox)
  }

  /** Event identifiers generated for the legs: distinct, and not in use. */
  ghost predicate FreshIds(job: Job, s0: State, ids: seq<UUID>) {
    |ids| == |job.plan| && Distinct(ids) && forall i :: 0 <= i < |ids| ==> ids[i] !in s0.outbox
  }

  lemma SecondPassNext(job: Job, o: Oracle, s0: State, ids: seq<UUID>, s: State, t: State, n: nat)
    requires DistinctSources(job.plan) && FreshIds(job, s0, ids) && n < |job.plan|
    requires SecondPass(job, o, s0, ids, s, n) && s.legs[n].leg.sourceID == job.plan[n].sourceID && Finished(s, t, n, ids[n])
    ensures SecondPass(job, o, s0, ids, t, n + 1)
  {
    forall i | n + 1 <= i < |t.legs|
      ensures (job.plan[i].sourceID in t.refs ==> job.plan[i].sourceID in s0.refs) && ids[i] !in t.outbox
    {
      assert job.plan[n].sourceID != job.plan[i].sourceID;
      assert ids[n] != ids[i] && ids[i] !in s.outbox.Keys + {ids[n]};
    }
  }

  lemma {:induction false} RunSecondPass(job: Job, cfg: B.Config, o: Oracle, s0: State, ids: seq<UUID>, n: nat)
    returns (steps: seq<Step>, s: State)
    requires Init(job, s0) && Realisable(job, o, s0) && FreshIds(job, s0, ids) && n <= |job.plan|
    ensures At(job, cfg, o, s0, steps, s) && SecondPass(job, o, s0, ids, s, n)
  {
    if n == 0 {
      steps, s := RunFirstPass(job, cfg, o, s0, |job.plan|);
    } else {
      var k := n - 1;
      var before: State;
      steps, before := RunSecondPass(job, cfg, o, s0, ids, k);
      s := before;
      if Unconnected(o.legs[k]) {
        return;
      }
      assert before.legs[k] == Leg(AtBreaker, job.plan[k], None);
      assert Possible(s0, job.plan[k], o.legs[k]);
      steps, s := FinishLeg(job, cfg, o, s0, steps, before, k, ids[k]);
      SecondPassNext(job, o, s0, ids, before, s, k);
    }
  }

  // ---- the compensations ------------------------------------------------------------------------------

  /** Compensation `j` has moved to `c`, and no goroutine else. */
  ghost predicate CompMoved(s: State, t: State, j: nat, c: Comp) {
    && j < |s.comps| && t.comps == s.comps[j := c]
    && t.status == s.status && t.legs == s.legs && t.providers == s.providers
  }

  lemma ReverseComp(job: Job, cfg: B.Config, o: Oracle, s0: State, steps: seq<Step>, s: State, j: nat)
    returns (more: seq<Step>, t: State)
    requires At(job, cfg, o, s0, steps, s) && s.status == RollingBack && j < |s.comps|
    requires s.comps[j].pc == AtResolve && s.comps[j].leg.provider in s.providers && s.comps[j].leg.sourceID in o.reversals
    ensures |t.comps| == |s.comps|
    ensures At(job, cfg, o, s0, more, t) && CompMoved(s, t, j, t.comps[j]) && t.comps[j].pc == AtCompCheck
  {
    var reply := o.reversals[s.comps[j].leg.sourceID];
    more := Take(job, cfg, o, s0, steps, s, CompStep(j, Resolve));
    t := AfterComp(job, s, j, Resolve);
    more := Take(job, cfg, o, s0, more, t, CompStep(j, Reverse(reply)));
    t := AfterComp(job, t, j, Reverse(reply));
  }

  lemma RecordComp(job: Job, cfg: B.Config, o: Oracle, s0: State, steps: seq<Step>, s: State, j: nat)
    returns (more: seq<Step>, t: State)
    requires At(job, cfg, o, s0, steps, s) && s.status == RollingBack && j < |s.comps| && s.comps[j].pc == AtCompCheck
    ensures At(job, cfg, o, s0, more, t) && CompMoved(s, t, j, s.comps[j].(pc := CompDone))
  {
    more := Take(job, cfg, o, s0, steps, s, CompStep(j, CheckReversal));
    t := AfterComp(job, s, j, CheckReversal);
    if t.comps[j].pc == AtCompSave {
      more := Take(job, cfg, o, s0, more, t, CompStep(j, SaveReversal));
      t := AfterComp(job, t, j, SaveReversal);
    }
  }

  lemma FinishComp(job: Job, cfg: B.Config, o: Oracle, s0: State, steps: seq<Step>, s: State, j: nat)
    returns (more: seq<Step>, t: State)
    requires At(job, cfg, o, s0, steps, s) && s.status == RollingBack && j < |s.comps|
    requires s.comps[j].pc == AtResolve && s.comps[j].leg.provider in s.providers && s.comps[j].leg.sourceID in o.reversals
    ensures |t.comps| == |s.comps|
    ensures At(job, cfg, o, s0, more, t) && CompMoved(s, t, j, t.comps[j]) && t.comps[j].pc == CompDone
  {
    more, t := ReverseComp(job, cfg, o, s0, steps, s, j);
    more, t := RecordComp(job, cfg, o, s0, more, t, j);
  }

  /** The first `n` compensations have ended; the others can start and have a reply foretold. */
  ghost predicate Compensating(o: Oracle, s: State, n: nat) {
    && s.status == RollingBack && n <= |s.comps|
    && (forall j :: 0 <= j < n ==> s.comps[j].pc == CompDone)
    && (forall j :: n <= j < |s.comps| ==>
          s.comps[j].pc == AtResolve && s.comps[j].leg.provider in s.providers && s.comps[j].leg.sourceID in o.reversals)
  }

  lemma {:induction false} RunComps(job: Job, cfg: B.Config, o: Oracle, s0: State, steps: seq<Step>, s: State, n: nat)
    returns (more: seq<Step>, t: State)
    requires At(job, cfg, o, s0, steps, s) && Compensating(o, s, n)
    ensures At(job, cfg, o, s0, more, t) && Compensating(o, t, |t.comps|)
    decreases |s.comps| - n
  {
    if n == |s.comps| {
      more, t := steps, s;
    } else {
      more, t := FinishComp(job, cfg, o, s0, steps, s, n);
      more, t := RunComps(job, cfg, o, s0, more, t, n + 1);
    }
  }

  lemma {:induction false} AcceptedAreReversible(job: Job, o: Oracle, s0: State, ls: seq<Leg>, j: nat)
    requires LegsOk(job, ls) && Realisable(job, o, s0) && AllDone(ls)
    requires forall i :: 0 <= i < |ls| ==> LegFollows(o.legs[i], ls[i])
    requires FirstFault(ls).Some? && j < |Succeeded(ls)|
    ensures Succeeded(ls)[j].sourceID in o.reversals
  {
    var i := SucceededAmong(ls, j);
    FirstFaultIff(ls);
    var k :| 0 <= k < |ls| && ls[k].err.Some?;
    LegSources(job, ls);
    assert o.legs[i].Accepted? && o.legs[k].Refused?;
  }

  lemma JoinCompensates(job: Job, o: Oracle, s0: State, s: State)
    requires Shape(job, s) && Follows(job, o, s) && Realisable(job, o, s0) && Enabled(job, s, Join)
    ensures FirstFault(s.legs).Some? ==> Compensating(o, AfterJoin(s), 0)
  {
    if FirstFault(s.legs).Some? {
      var t := AfterJoin(s);
      JoinShape(job, s);
      forall j | 0 <= j < |t.comps| ensures t.comps[j].leg.sourceID in o.reversals {
        AcceptedAreReversible(job, o, s0, s.legs, j);
      }
    }
  }

  lemma FinishRollback(job: Job, cfg: B.Config, o: Oracle, s0: State, steps: seq<Step>, s: State) returns (more: seq<Step>)
    requires At(job, cfg, o, s0, steps, s) && Compensating(o, s, 0)
    ensures Complete(job, cfg, o, s0, more)
  {
    var t: State;
    more, t := RunComps(job, cfg, o, s0, steps, s, 0);
    assert Enabled(job, t, Conclude);
    more := Take(job, cfg, o, s0, more, t, Conclude);
    assert Final(AfterConclude(t).status);
  }

  lemma FinishRun(job: Job, cfg: B.Config, o: Oracle, s0: State, steps: seq<Step>, s: State) returns (more: seq<Step>)
    requires Init(job, s0) && Realisable(job, o, s0) && At(job, cfg, o, s0, steps, s)
    requires s.status == Authorizing && AllDone(s.legs)
    ensures Complete(job, cfg, o, s0, more)
  {
    InvHolds(job, cfg, s0, steps);
    RunFollows(job, cfg, o, s0, steps);
    JoinCompensates(job, o, s0, s);
    more := Take(job, cfg, o, s0, steps, s, Join);
    if FirstFault(s.legs).Some? {
      more := FinishRollback(job, cfg, o, s0, more, AfterJoin(s));
    }
  }

  /** Whatever is foretold and possible can happen. */
  lemma RealisableRuns(job: Job, cfg: B.Config, o: Oracle, s0: State, ids: seq<UUID>) returns (steps: seq<Step>)
    requires Init(job, s0) && Realisable(job, o, s0) && FreshIds(job, s0, ids)
    ensures Complete(job, cfg, o, s0, steps)
  {
    var s: State;
    steps, s := RunSecondPass(job, cfg, o, s0, ids, |job.plan|);
    steps := FinishRun(job, cfg, o, s0, steps, s);
  }

  // ---- nothing else can happen --------------------------------------------------------------------------

  /** Registrations only grow, and every failed leg failed in a possible way. */
  ghost predicate Plausible(job: Job, s0: State, s: State) {
    && s0.providers <= s.providers && s0.refs <= s.refs && |s.legs| == |job.plan|
    && forall i :: 0 <= i < |s.legs| && s.legs[i].err.Some? ==> Possible(s0, job.plan[i], Refused(s.legs[i].err.value))
  }

  lemma LegStepPlausible(job: Job, cfg: B.Config, s0: State, s: State, i: nat, a: LegAct)
    requires LegsOk(job, s.legs) && Plausible(job, s0, s) && Enabled(job, s, LegStep(i, a))
    ensures var m := NewLeg(job, cfg, s, s.legs[i], a);
            m.err.Some? ==> Possible(s0, job.plan[i], Refused(m.err.value))
  {
    assert LegOk(job.plan[i], s.legs[i]);
  }

  lemma QuietStepPlausible(job: Job, cfg: B.Config, s0: State, s: State, step: Step)
    requires Plausible(job, s0, s) && Enabled(job, s, step) && !step.LegStep?
    ensures Plausible(job, s0, Next(job, cfg, s, step))
  {
    var t := Next(job, cfg, s, step);
    assert t.legs == s.legs && s.providers <= t.providers && s.refs <= t.refs;
  }

  lemma NextPlausible(job: Job, cfg: B.Config, s0: State, s: State, step: Step)
    requires LegsOk(job, s.legs) && Plausible(job, s0, s) && Enabled(job, s, step)
    ensures Plausible(job, s0, Next(job, cfg, s, step))
  {
    match step
    case LegStep(i, a) => LegStepPlausible(job, cfg, s0, s, i, a);
    case _ => QuietStepPlausible(job, cfg, s0, s, step);
  }

  lemma {:induction false} RunPlausible(job: Job, cfg: B.Config, s0: State, steps: seq<Step>)
    requires Init(job, s0) && Valid(job, cfg, s0, steps)
    ensures Plausible(job, s0, Run(job, cfg, s0, steps))
  {
    if steps != [] {
      var before := steps[..|steps| - 1];
      RunPlausible(job, cfg, s0, before);
      InvHolds(job, cfg, s0, before);
      NextPlausible(job, cfg, s0, Run(job, cfg, s0, before), steps[|steps| - 1]);
    }
  }

  lemma FinalVerdict(job: Job, o: Oracle, s0: State, s: State, i: nat)
    requires Shape(job, s) && Follows(job, o, s) && Plausible(job, s0, s) && Final(s.status)
    requires |job.plan| <= |o.legs| && i < |job.plan|
    ensures Possible(s0, job.plan[i], o.legs[i]) && (o.legs[i].Accepted? <==> s.legs[i].err.None?)
  {
    assert LegOk(job.plan[i], s.legs[i]) && LegFollows(o.legs[i], s.legs[i]);
  }

  lemma ReversalForetold(o: Oracle, ls: seq<Leg>, cs: seq<Comp>, i: nat)
    requires CompsOk(ls, cs) && CompsDone(cs) && i < |ls| && ls[i].err.None?
    requires forall j :: 0 <= j < |cs| ==> CompFollows(o, cs[j])
    ensures ls[i].leg.sourceID in o.reversals
  {
    var j := SucceededContains(ls, i);
    assert CompOk(Succeeded(ls)[j], cs[j]) && CompFollows(o, cs[j]);
  }

  lemma CompleteIsRealisable(job: Job, cfg: B.Config, o: Oracle, s0: State, steps: seq<Step>)
    requires Init(job, s0) && |job.plan| <= |o.legs| && Complete(job, cfg, o, s0, steps)
    ensures Realisable(job, o, s0)
  {
    var s := Run(job, cfg, s0, steps);
    InvHolds(job, cfg, s0, steps);
    RunFollows(job, cfg, o, s0, steps);
    RunPlausible(job, cfg, s0, steps);
    LegSources(job, s.legs);
    forall i | 0 <= i < |job.plan|
      ensures Possible(s0, job.plan[i], o.legs[i]) && (o.legs[i].Accepted? <==> s.legs[i].err.None?)
    {
      FinalVerdict(job, o, s0, s, i);
    }
    forall i, k | 0 <= i < |job.plan| && 0 <= k < |job.plan| && o.legs[i].Accepted? && o.legs[k].Refused?
      ensures job.plan[i].sourceID in o.reversals
    {
      FirstFaultIff(s.legs);
      ReversalForetold(o, s.legs, s.comps, i);
    }
  }

  /** A foretold outcome is reached by some complete run exactly when it is possible from the start; confluence says that all
      its runs then end alike. */
  lemma RealisedIff(job: Job, cfg: B.Config, o: Oracle, s0: State, ids: seq<UUID>)
    requires Init(job, s0) && |job.plan| <= |o.legs| && FreshIds(job, s0, ids)
    ensures Realisable(job, o, s0) <==> exists steps :: Complete(job, cfg, o, s0, steps)
  {
    if Realisable(job, o, s0) {
      var steps := RealisableRuns(job, cfg, o, s0, ids);
    }
    if steps :| Complete(job, cfg, o, s0, steps) {
      CompleteIsRealisable(job, cfg, o, s0, steps);
    }
  }

  // ---- when every error nets to zero, told before the call ----------------------------------------------

  /** The run ends in an error. */
  ghost predicate EndsInError(job: Job, cfg: B.Config, s0: State, steps: seq<Step>) {
    Valid(job, cfg, s0, steps) && Run(job, cfg, s0, steps).status in {RolledBack, Status.Failed}
  }

  ghost predicate EveryErrorNetsToZero(job: Job, cfg: B.Config, s0: State) {
    forall steps :: EndsInError(job, cfg, s0, steps) ==> NetsToZero(job, Run(job, cfg, s0, steps))
  }

  /** All legs of the plan have both or neither of their keys in the ledger. */
  ghost predicate AllMatched(job: Job, l0: L.State) {
    forall i :: 0 <= i < |job.plan| ==> Matched(job, l0, job.plan[i])
  }

  lemma {:induction false} SucceededMatched(job: Job, l0: L.State, ls: seq<Leg>)
    requires LegsOk(job, ls) && FirstFault(ls).Some? && (|job.plan| <= 1 || AllMatched(job, l0))
    ensures forall j :: 0 <= j < |Succeeded(ls)| ==> Matched(job, l0, Succeeded(ls)[j])
  {
    LegSources(job, ls);
    FirstFaultIff(ls);
    forall j | 0 <= j < |Succeeded(ls)| ensures Matched(job, l0, Succeeded(ls)[j]) {
      var i := SucceededAmong(ls, j);
      assert Matched(job, l0, job.plan[i]);
    }
  }

  lemma {:induction false} MatchedErrorNets(job: Job, cfg: B.Config, s0: State, steps: seq<Step>)
    requires Init(job, s0) && EndsInError(job, cfg, s0, steps) && (|job.plan| <= 1 || AllMatched(job, s0.ledger))
    ensures NetsToZero(job, Run(job, cfg, s0, steps))
  {
    InvHolds(job, cfg, s0, steps);
    SucceededMatched(job, s0.ledger, Run(job, cfg, s0, steps).legs);
    FinalNetsToZero(job, s0.ledger, Run(job, cfg, s0, steps));
  }

  /** Leg `k` is accepted and every other one refused by its bank; all reversals are accepted. */
  function OnlyOne(job: Job, k: nat): Oracle
    requires k < |job.plan|
  {
    Oracle(seq(|job.plan|, i => if i == k then Accepted("") else Refused(BankError(""))), map[job.plan[k].sourceID := None])
  }

  lemma OnlyOneIsPossible(job: Job, s0: State, k: nat)
    requires k < |job.plan|
    ensures Realisable(job, OnlyOne(job, k), s0)
  {
  }

  lemma OnlyOneSucceeds(job: Job, cfg: B.Config, s0: State, steps: seq<Step>, k: nat) returns (j: nat)
    requires Init(job, s0) && k < |job.plan| && 2 <= |job.plan| && Complete(job, cfg, OnlyOne(job, k), s0, steps)
    ensures var s := Run(job, cfg, s0, steps);
            s.status in {RolledBack, Status.Failed}
            && j < |Succeeded(s.legs)| && Succeeded(s.legs)[j].sourceID == job.plan[k].sourceID
  {
    var s, o := Run(job, cfg, s0, steps), OnlyOne(job, k);
    InvHolds(job, cfg, s0, steps);
    RunFollows(job, cfg, o, s0, steps);
    RunPlausible(job, cfg, s0, steps);
    FinalVerdict(job, o, s0, s, k);
    FinalVerdict(job, o, s0, s, if k == 0 then 1 else 0);
    FirstFaultIff(s.legs);
    LegSources(job, s.legs);
    j := SucceededContains(s.legs, k);
  }

  lemma {:induction false} OnlyOneLeavesMoney(job: Job, cfg: B.Config, s0: State, steps: seq<Step>, k: nat)
    requires Init(job, s0) && k < |job.plan| && 2 <= |job.plan| && Complete(job, cfg, OnlyOne(job, k), s0, steps)
    requires !Matched(job, s0.ledger, job.plan[k])
    requires forall i :: 0 <= i < |job.plan| ==> job.plan[i].amount > 0 && job.plan[i].sourceID != CLEARING
    ensures EndsInError(job, cfg, s0, steps) && !NetsToZero(job, Run(job, cfg, s0, steps))
  {
    var j := OnlyOneSucceeds(job, cfg, s0, steps, k);
    assert !Matched(job, s0.ledger, Succeeded(Run(job, cfg, s0, steps).legs)[j]);
    ErrorNetsToZero(job, cfg, s0, steps);
  }

  /** From any start with an unmatched leg and another one, some run ends in an error and leaves money moved. */
  lemma UnmatchedLeavesMoney(job: Job, cfg: B.Config, s0: State, ids: seq<UUID>, k: nat) returns (steps: seq<Step>)
    requires Init(job, s0) && FreshIds(job, s0, ids) && k < |job.plan| && 2 <= |job.plan|
    requires !Matched(job, s0.ledger, job.plan[k])
    requires forall i :: 0 <= i < |job.plan| ==> job.plan[i].amount > 0 && job.plan[i].sourceID != CLEARING
    ensures EndsInError(job, cfg, s0, steps) && !NetsToZero(job, Run(job, cfg, s0, steps))
  {
    OnlyOneIsPossible(job, s0, k);
    steps := RealisableRuns(job, cfg, OnlyOne(job, k), s0, ids);
    OnlyOneLeavesMoney(job, cfg, s0, steps, k);
  }

  /** Told before the call: every run that ends in an error nets to zero exactly when each leg of the plan has both or neither
      of its keys in the ledger, or the plan has a single leg, which cannot succeed in a payment that fails. */
  lemma EveryErrorNetsToZeroIff(job: Job, cfg: B.Config, s0: State, ids: seq<UUID>)
    requires Init(job, s0) && FreshIds(job, s0, ids)
    requires forall i :: 0 <= i < |job.plan| ==> job.plan[i].amount > 0 && job.plan[i].sourceID != CLEARING
    ensures EveryErrorNetsToZero(job, cfg, s0) <==> |job.plan| <= 1 || AllMatched(job, s0.ledger)
  {
    if |job.plan| <= 1 || AllMatched(job, s0.ledger) {
      forall steps | EndsInError(job, cfg, s0, steps) ensures NetsToZero(job, Run(job, cfg, s0, steps)) {
        MatchedErrorNets(job, cfg, s0, steps);
      }
    } else {
      var k :| 0 <= k < |job.plan| && !Matched(job, s0.ledger, job.plan[k]);
      var steps := UnmatchedLeavesMoney(job, cfg, s0, ids, k);
    }
  }
}
