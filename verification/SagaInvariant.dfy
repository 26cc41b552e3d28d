/** What every step of a payment keeps, whatever the interleaving, the bank's replies and the other transactions. */
module SagaInvariant {
  import opened Common
  import opened Uuid
  import opened Domain
  import opened IdempotencyKeys
  import opened Saga
  import L = Ledger
  import B = CircuitBreaker

  // ---- legs -------------------------------------------------------------------

  /** The bank has accepted this leg's payment. */
  predicate Paid(l: Leg) {
    l.err.None? && l.pc in {AtCheck, AtSave, AtOutbox, AtReport, Done}
  }

  /** What a goroutine's copy of its planned leg looks like at each point. */
  predicate LegOk(p: SplitLeg, l: Leg) {
    match l.pc
    case AtBreaker => l.leg == p && l.err == None
    case AtProvider => l.leg == p && l.err == None
    case AtAccountRef => l.leg == p && l.err == None
    case AtBank => l.leg == p && l.err == None
    case AtCheck => l.err == None && l.leg == SettledLeg(p, l.leg.externalRef)
    case AtSave => l.err == None && l.leg == SettledLeg(p, l.leg.externalRef)
    case AtOutbox => l.err == None && l.leg == SettledLeg(p, l.leg.externalRef)
    case _ =>
      match l.err
      case None => l.leg == SettledLeg(p, l.leg.externalRef)
      case Some(f) => l.leg == FailedLeg(p, f)
  }

  ghost predicate LegsOk(job: Job, ls: seq<Leg>) {
    |ls| == |job.plan| && forall i :: 0 <= i < |ls| ==> LegOk(job.plan[i], ls[i])
  }

  ghost predicate AllDone(ls: seq<Leg>) {
    forall i :: 0 <= i < |ls| ==> ls[i].pc == Done
  }

  lemma LegSources(job: Job, ls: seq<Leg>)
    requires LegsOk(job, ls)
    ensures forall i :: 0 <= i < |ls| ==> ls[i].leg.sourceID == job.plan[i].sourceID && ls[i].leg.provider == job.plan[i].provider
                                          && ls[i].leg.amount == job.plan[i].amount
  {
    forall i | 0 <= i < |ls|
      ensures ls[i].leg.sourceID == job.plan[i].sourceID && ls[i].leg.provider == job.plan[i].provider
              && ls[i].leg.amount == job.plan[i].amount
    {
      assert LegOk(job.plan[i], ls[i]);
    }
  }

  lemma LegStepKeepsLegs(job: Job, cfg: B.Config, s: State, i: nat, a: LegAct)
    requires LegsOk(job, s.legs) && Enabled(job, s, LegStep(i, a))
    ensures LegsOk(job, AfterLeg(job, cfg, s, i, a).legs)
  {
    assert LegOk(job.plan[i], s.legs[i]);
    assert LegOk(job.plan[i], NewLeg(job, cfg, s, s.legs[i], a));
  }

  // ---- the legs that succeeded ------------------------------------------------

  lemma {:induction false} SucceededAmong(ls: seq<Leg>, j: nat) returns (i: nat)
    requires j < |Succeeded(ls)|
    ensures i < |ls| && ls[i].err.None? && ls[i].leg == Succeeded(ls)[j]
  {
    var n := |ls| - 1;
    if j < |Succeeded(ls[..n])| {
      i := SucceededAmong(ls[..n], j);
    } else {
      i := n;
    }
  }

  lemma {:induction false} SucceededContains(ls: seq<Leg>, i: nat) returns (j: nat)
    requires i < |ls| && ls[i].err.None?
    ensures j < |Succeeded(ls)| && Succeeded(ls)[j] == ls[i].leg
  {
    var n := |ls| - 1;
    if i < n {
      j := SucceededContains(ls[..n], i);
    } else {
      j := |Succeeded(ls[..n])|;
    }
  }

  lemma {:induction false} SucceededDistinct(ls: seq<Leg>)
    requires DistinctSources(LegsOf(ls))
    ensures DistinctSources(Succeeded(ls))
  {
    if ls != [] {
      var n := |ls| - 1;
      var before := ls[..n];
      assert LegsOf(before) == LegsOf(ls)[..n];
      SucceededDistinct(before);
      forall j | 0 <= j < |Succeeded(before)|
        ensures Succeeded(before)[j].sourceID != ls[n].leg.sourceID
      {
        var i := SucceededAmong(before, j);
        assert LegsOf(ls)[i].sourceID != LegsOf(ls)[n].sourceID;
      }
    }
  }

  lemma {:induction false} PlanDistinct(job: Job, ls: seq<Leg>)
    requires LegsOk(job, ls) && DistinctSources(job.plan)
    ensures DistinctSources(LegsOf(ls)) && DistinctSources(Succeeded(ls))
  {
    LegSources(job, ls);
    SucceededDistinct(ls);
  }

  lemma {:induction false} FirstFaultIff(ls: seq<Leg>)
    ensures FirstFault(ls).None? <==> forall i :: 0 <= i < |ls| ==> ls[i].err.None?
  {
    if ls != [] {
      FirstFaultIff(ls[1..]);
      assert forall i :: 0 <= i < |ls[1..]| ==> ls[1..][i] == ls[i + 1];
      assert forall i :: 1 <= i < |ls| ==> ls[i] == ls[1..][i - 1];
    }
  }

  // ---- phases --------------------------------------------------------------------

  predicate CompOk(leg: SplitLeg, c: Comp) {
    && c.leg == leg
    && (c.pc == AtResolve || c.pc == AtReverse ==> c.err.None?)
    && (c.err.Some? ==> c.err.value.NotReversed? && c.err.value.provider == leg.provider)
  }

  ghost predicate CompsOk(ls: seq<Leg>, cs: seq<Comp>) {
    |cs| == |Succeeded(ls)| && forall j :: 0 <= j < |cs| ==> CompOk(Succeeded(ls)[j], cs[j])
  }

  ghost predicate CompsDone(cs: seq<Comp>) {
    forall j :: 0 <= j < |cs| ==> cs[j].pc == CompDone
  }

  ghost predicate PhaseOk(job: Job, s: State) {
    && (s.status == Authorizing ==> s.plan == job.plan && s.comps == [] && s.error == None)
    && (s.status != Authorizing ==> AllDone(s.legs) && s.plan == LegsOf(s.legs))
    && (s.status == Approved ==> FirstFault(s.legs).None? && s.comps == [] && s.error == None)
    && (s.status in {RollingBack, RolledBack, Status.Failed} ==> FirstFault(s.legs).Some? && CompsOk(s.legs, s.comps))
    && (s.status == RollingBack ==> s.error == None)
    && (s.status == RolledBack ==> CompsDone(s.comps) && Failures(s.comps) == []
                                   && s.error == Some(LegFailed(FirstFault(s.legs).value)))
    && (s.status == Status.Failed ==> CompsDone(s.comps) && Failures(s.comps) != []
                                      && s.error == Some(CompensationFailed(Failures(s.comps), |s.comps|)))
    && s.status != Initiated && s.status != Planning
  }

  /** A provider that was found once stays registered, so a paid leg's provider is there for the reversal. */
  ghost predicate ProvidersOk(s: State) {
    && (forall i :: 0 <= i < |s.legs| && (s.legs[i].pc in {AtAccountRef, AtBank} || Paid(s.legs[i])) ==> s.legs[i].leg.provider in s.providers)
    && (forall j :: 0 <= j < |s.comps| ==> s.comps[j].leg.provider in s.providers)
  }

  /** The structural part of the invariant. */
  ghost predicate Shape(job: Job, s: State) {
    DistinctSources(job.plan) && LegsOk(job, s.legs) && PhaseOk(job, s) && ProvidersOk(s)
  }

  lemma InitShape(job: Job, s: State)
    requires Init(job, s)
    ensures Shape(job, s)
  {
  }

  lemma LegStepShape(job: Job, cfg: B.Config, s: State, i: nat, a: LegAct)
    requires Shape(job, s) && Enabled(job, s, LegStep(i, a))
    ensures Shape(job, AfterLeg(job, cfg, s, i, a))
  {
    LegStepKeepsLegs(job, cfg, s, i, a);
    assert LegOk(job.plan[i], s.legs[i]);
  }

  lemma JoinShape(job: Job, s: State)
    requires Shape(job, s) && Enabled(job, s, Join)
    ensures Shape(job, AfterJoin(s))
  {
    var t := AfterJoin(s);
    forall j | 0 <= j < |t.comps| ensures t.comps[j].leg.provider in t.providers {
      var i := SucceededAmong(s.legs, j);
      assert Paid(s.legs[i]);
    }
  }

  lemma CompStepShape(job: Job, s: State, j: nat, a: CompAct)
    requires Shape(job, s) && Enabled(job, s, CompStep(j, a))
    ensures Shape(job, AfterComp(job, s, j, a))
  {
    assert CompOk(Succeeded(s.legs)[j], s.comps[j]);
    assert s.comps[j].leg.provider in s.providers;
    assert CompOk(Succeeded(s.legs)[j], NewComp(job, s, s.comps[j], a));
  }

  lemma ConcludeShape(job: Job, s: State)
    requires Shape(job, s) && Enabled(job, s, Conclude)
    ensures Shape(job, AfterConclude(s))
  {
  }

  lemma OtherShape(job: Job, s: State, o: OtherAct)
    requires Shape(job, s)
    ensures Shape(job, AfterOther(s, o))
  {
  }

  lemma NextShape(job: Job, cfg: B.Config, s: State, step: Step)
    requires Shape(job, s) && Enabled(job, s, step)
    ensures Shape(job, Next(job, cfg, s, step))
  {
    match step
    case LegStep(i, a) => LegStepShape(job, cfg, s, i, a);
    case Join => JoinShape(job, s);
    case CompStep(j, a) => CompStepShape(job, s, j, a);
    case Conclude => ConcludeShape(job, s);
    case Other(o) => OtherShape(job, s, o);
  }

  // ---- the banks ------------------------------------------------------------------

  predicate Reversed(c: Comp) {
    c.err.None? && c.pc in {AtCompCheck, AtCompSave, CompDone}
  }

  ghost function PaidSources(ls: seq<Leg>): set<UUID> {
    set i | 0 <= i < |ls| && Paid(ls[i]) :: ls[i].leg.sourceID
  }

  ghost function ReversedSources(cs: seq<Comp>): set<UUID> {
    set j | 0 <= j < |cs| && Reversed(cs[j]) :: cs[j].leg.sourceID
  }

  /** The banks have carried out exactly the payments and reversals the goroutines know about. */
  ghost predicate BankOk(s: State) {
    s.paid == PaidSources(s.legs) && s.reversed == ReversedSources(s.comps)
  }

  lemma PaidUpdate(ls: seq<Leg>, i: nat, l: Leg)
    requires i < |ls| && l.leg.sourceID == ls[i].leg.sourceID && (Paid(ls[i]) ==> Paid(l))
    ensures PaidSources(ls[i := l]) == PaidSources(ls) + (if Paid(l) then {l.leg.sourceID} else {})
  {
    var ms := ls[i := l];
    forall x ensures x in PaidSources(ms) <==> x in PaidSources(ls) + (if Paid(l) then {l.leg.sourceID} else {}) {
      if x in PaidSources(ls) {
        var k :| 0 <= k < |ls| && Paid(ls[k]) && ls[k].leg.sourceID == x;
        assert Paid(ms[k]) && ms[k].leg.sourceID == x;
      }
      if x in PaidSources(ms) {
        var k :| 0 <= k < |ms| && Paid(ms[k]) && ms[k].leg.sourceID == x;
        assert k != i ==> Paid(ls[k]) && ls[k].leg.sourceID == x;
      }
      if Paid(l) && x == l.leg.sourceID {
        assert Paid(ms[i]) && ms[i].leg.sourceID == x;
      }
    }
  }

  lemma ReversedUpdate(cs: seq<Comp>, j: nat, c: Comp)
    requires j < |cs| && c.leg == cs[j].leg && (Reversed(cs[j]) ==> Reversed(c))
    ensures ReversedSources(cs[j := c]) == ReversedSources(cs) + (if Reversed(c) then {c.leg.sourceID} else {})
  {
    var ds := cs[j := c];
    forall x ensures x in ReversedSources(ds) <==> x in ReversedSources(cs) + (if Reversed(c) then {c.leg.sourceID} else {}) {
      if x in ReversedSources(cs) {
        var k :| 0 <= k < |cs| && Reversed(cs[k]) && cs[k].leg.sourceID == x;
        assert Reversed(ds[k]) && ds[k].leg.sourceID == x;
      }
      if x in ReversedSources(ds) {
        var k :| 0 <= k < |ds| && Reversed(ds[k]) && ds[k].leg.sourceID == x;
        assert k != j ==> Reversed(cs[k]) && cs[k].leg.sourceID == x;
      }
      if Reversed(c) && x == c.leg.sourceID {
        assert Reversed(ds[j]) && ds[j].leg.sourceID == x;
      }
    }
  }

  lemma InitBank(job: Job, s: State)
    requires Init(job, s)
    ensures BankOk(s)
  {
    assert PaidSources(s.legs) == {};
    assert ReversedSources(s.comps) == {};
  }

  lemma LegStepBank(job: Job, cfg: B.Config, s: State, i: nat, a: LegAct)
    requires Shape(job, s) && BankOk(s) && Enabled(job, s, LegStep(i, a))
    ensures BankOk(AfterLeg(job, cfg, s, i, a))
  {
    assert LegOk(job.plan[i], s.legs[i]);
    var l := NewLeg(job, cfg, s, s.legs[i], a);
    PaidUpdate(s.legs, i, l);
    if Paid(s.legs[i]) {
      assert s.legs[i].leg.sourceID in PaidSources(s.legs);
    }
  }

  lemma CompStepBank(job: Job, s: State, j: nat, a: CompAct)
    requires Shape(job, s) && BankOk(s) && Enabled(job, s, CompStep(j, a))
    ensures BankOk(AfterComp(job, s, j, a))
  {
    assert CompOk(Succeeded(s.legs)[j], s.comps[j]);
    assert s.comps[j].leg.provider in s.providers;
    var c := NewComp(job, s, s.comps[j], a);
    ReversedUpdate(s.comps, j, c);
    if Reversed(s.comps[j]) {
      assert s.comps[j].leg.sourceID in ReversedSources(s.comps);
    }
  }

  lemma NextBank(job: Job, cfg: B.Config, s: State, step: Step)
    requires Shape(job, s) && BankOk(s) && Enabled(job, s, step)
    ensures BankOk(Next(job, cfg, s, step))
  {
    match step
    case LegStep(i, a) => LegStepBank(job, cfg, s, i, a);
    case CompStep(j, a) => CompStepBank(job, s, j, a);
    case Join =>
      assert ReversedSources(AfterJoin(s).comps) == {};
      assert ReversedSources([]) == {};
    case _ =>
  }
}
