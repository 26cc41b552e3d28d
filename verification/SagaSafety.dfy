/** What a finished payment leaves behind, over every interleaving and every outcome. */
module SagaSafety {
  import opened Common
  import opened Uuid
  import opened Domain
  import opened IdempotencyKeys
  import opened Saga
  import opened SagaInvariant
  import opened SagaLedger
  import L = Ledger
  import B = CircuitBreaker

  // ---- the sequential log ---------------------------------------------------------

  /** What settling a leg writes when nothing else runs: nothing at all if its key was used before. */
  function SettleOf(job: Job, l0: L.State, leg: SplitLeg): seq<LedgerEntry> {
    if SettleKey(job.key, leg.sourceID) in l0.entries then [] else SettleEntries(job, leg)
  }

  function ReverseOf(job: Job, l0: L.State, leg: SplitLeg): seq<LedgerEntry> {
    if ReversalKey(job.key, leg.sourceID) in l0.entries then [] else ReversalEntries(job, leg)
  }

  function SettleLog(job: Job, l0: L.State, legs: seq<SplitLeg>): seq<LedgerEntry> {
    if legs == [] then [] else SettleLog(job, l0, legs[..|legs| - 1]) + SettleOf(job, l0, legs[|legs| - 1])
  }

  function ReverseLog(job: Job, l0: L.State, legs: seq<SplitLeg>): seq<LedgerEntry> {
    if legs == [] then [] else ReverseLog(job, l0, legs[..|legs| - 1]) + ReverseOf(job, l0, legs[|legs| - 1])
  }

  lemma SettlementsSnoc(job: Job, l0: L.State, ls: seq<Leg>, n: nat)
    requires |ls| == n + 1
    ensures Settlements(job, l0, ls) == Settlements(job, l0, ls[..n]) + SettlePart(job, l0, ls[n])
  {
    assert SettleParts(job, l0, ls)[..n] == SettleParts(job, l0, ls[..n]);
  }

  lemma {:induction false} SettleLogSnoc(job: Job, l0: L.State, legs: seq<SplitLeg>, leg: SplitLeg)
    ensures SettleLog(job, l0, legs + [leg]) == SettleLog(job, l0, legs) + SettleOf(job, l0, leg)
  {
    assert (legs + [leg])[..|legs|] == legs;
  }

  lemma {:induction false} DoneSettlements(job: Job, l0: L.State, ls: seq<Leg>)
    requires AllDone(ls)
    ensures Settlements(job, l0, ls) == SettleLog(job, l0, Succeeded(ls))
  {
    if ls != [] {
      var n := |ls| - 1;
      var last, before := ls[n], Succeeded(ls[..n]);
      DoneSettlements(job, l0, ls[..n]);
      SettlementsSnoc(job, l0, ls, n);
      SettleLogSnoc(job, l0, before, last.leg);
      assert Succeeded(ls) == if last.err.None? then before + [last.leg] else before;
    }
  }

  lemma {:induction false} DoneCompensations(job: Job, l0: L.State, cs: seq<Comp>, legs: seq<SplitLeg>)
    requires CompsDone(cs) && |cs| == |legs| && forall j :: 0 <= j < |cs| ==> cs[j].leg == legs[j]
    ensures Compensations(job, l0, cs) == ReverseLog(job, l0, legs)
  {
    if cs != [] {
      var n := |cs| - 1;
      DoneCompensations(job, l0, cs[..n], legs[..n]);
      assert CompParts(job, l0, cs)[..n] == CompParts(job, l0, cs[..n]);
      assert CompParts(job, l0, cs)[n] == CompPart(job, l0, cs[n]);
    }
  }

  /** The compensations a finished payment has gone through: those of all succeeded legs, or none when it was approved. */
  function RolledBackLegs(s: State): seq<SplitLeg> {
    if s.status == Approved then [] else Succeeded(s.legs)
  }

  lemma {:induction false} FinalLog(job: Job, l0: L.State, s: State)
    requires Inv(job, l0, s) && Final(s.status)
    ensures multiset(s.ledger.Of(job.id))
            == multiset(SettleLog(job, l0, Succeeded(s.legs)) + ReverseLog(job, l0, RolledBackLegs(s)))
  {
    DoneSettlements(job, l0, s.legs);
    forall j | 0 <= j < |s.comps| ensures s.comps[j].leg == RolledBackLegs(s)[j] {
      assert CompOk(Succeeded(s.legs)[j], s.comps[j]);
    }
    DoneCompensations(job, l0, s.comps, RolledBackLegs(s));
  }

  /** However the goroutines interleaved, the transaction's list is a permutation of the sequential log. */
  lemma {:induction false} FinishedLog(job: Job, cfg: B.Config, s0: State, steps: seq<Step>)
    requires Init(job, s0) && Valid(job, cfg, s0, steps) && Final(Run(job, cfg, s0, steps).status)
    ensures var s := Run(job, cfg, s0, steps);
            multiset(s.ledger.Of(job.id))
            == multiset(SettleLog(job, s0.ledger, Succeeded(s.legs)) + ReverseLog(job, s0.ledger, RolledBackLegs(s)))
  {
    InvHolds(job, cfg, s0, steps);
    FinalLog(job, s0.ledger, Run(job, cfg, s0, steps));
  }

  // ---- net positions ------------------------------------------------------------------

  /** The leg's settlement and its reversal were both new, or both recorded before. */
  predicate Matched(job: Job, l0: L.State, leg: SplitLeg) {
    SettleKey(job.key, leg.sourceID) in l0.entries <==> ReversalKey(job.key, leg.sourceID) in l0.entries
  }

  function LegNet(job: Job, l0: L.State, leg: SplitLeg, account: UUID): int {
    Net(SettleOf(job, l0, leg), account) + Net(ReverseOf(job, l0, leg), account)
  }

  /** What a leg's settlement credits to an account, net of what it debits. */
  function LegMove(leg: SplitLeg, account: UUID): int {
    (if account == leg.sourceID then leg.amount else 0) - (if account == CLEARING then leg.amount else 0)
  }

  lemma {:induction false} EntriesMove(job: Job, leg: SplitLeg, account: UUID)
    ensures Net(SettleEntries(job, leg), account) == LegMove(leg, account)
    ensures Net(ReversalEntries(job, leg), account) == 0 - LegMove(leg, account)
  {
    PairTotals(SettleEntries(job, leg), account);
    PairTotals(ReversalEntries(job, leg), account);
  }

  lemma LegNetCases(job: Job, l0: L.State, leg: SplitLeg, account: UUID)
    ensures Matched(job, l0, leg) ==> LegNet(job, l0, leg, account) == 0
    ensures account != leg.sourceID && account != CLEARING ==> LegNet(job, l0, leg, account) == 0
    ensures !Matched(job, l0, leg) && account == leg.sourceID && account != CLEARING && leg.amount != 0
            ==> LegNet(job, l0, leg, account) != 0
  {
    EntriesMove(job, leg, account);
  }

  function LegNets(job: Job, l0: L.State, legs: seq<SplitLeg>, account: UUID): seq<int> {
    seq(|legs|, i requires 0 <= i < |legs| => LegNet(job, l0, legs[i], account))
  }

  function LogNet(job: Job, l0: L.State, legs: seq<SplitLeg>, account: UUID): int {
    Sum(LegNets(job, l0, legs, account))
  }

  lemma LogNetNext(job: Job, l0: L.State, legs: seq<SplitLeg>, account: UUID)
    requires legs != []
    ensures LogNet(job, l0, legs, account)
         == LogNet(job, l0, legs[..|legs| - 1], account) + LegNet(job, l0, legs[|legs| - 1], account)
  {
    assert LegNets(job, l0, legs, account)[..|legs| - 1] == LegNets(job, l0, legs[..|legs| - 1], account);
  }

  lemma {:induction false} NetOfLogs(job: Job, l0: L.State, legs: seq<SplitLeg>, account: UUID)
    ensures Net(SettleLog(job, l0, legs), account) + Net(ReverseLog(job, l0, legs), account) == LogNet(job, l0, legs, account)
  {
    if legs != [] {
      var before, last := legs[..|legs| - 1], legs[|legs| - 1];
      NetOfLogs(job, l0, before, account);
      NetConcat(SettleLog(job, l0, before), SettleOf(job, l0, last), account);
      NetConcat(ReverseLog(job, l0, before), ReverseOf(job, l0, last), account);
      LogNetNext(job, l0, legs, account);
    }
  }

  lemma AllMatchedNets(job: Job, l0: L.State, legs: seq<SplitLeg>, account: UUID)
    requires forall j :: 0 <= j < |legs| ==> Matched(job, l0, legs[j])
    ensures LogNet(job, l0, legs, account) == 0
  {
    forall j | 0 <= j < |legs| ensures LegNets(job, l0, legs, account)[j] == 0 {
      LegNetCases(job, l0, legs[j], account);
    }
    SumZero(LegNets(job, l0, legs, account));
  }

  /** With distinct sources, only leg `k` moves its own source. */
  lemma OneLegNets(job: Job, l0: L.State, legs: seq<SplitLeg>, k: nat, account: UUID)
    requires DistinctSources(legs) && k < |legs| && account == legs[k].sourceID && account != CLEARING
    ensures LogNet(job, l0, legs, account) == LegNet(job, l0, legs[k], account)
  {
    forall j | 0 <= j < |legs| && j != k ensures LegNets(job, l0, legs, account)[j] == 0 {
      LegNetCases(job, l0, legs[j], account);
    }
    SumOnly(LegNets(job, l0, legs, account), k);
  }

  lemma {:induction false} NetOfLogged(job: Job, l0: L.State, es: seq<LedgerEntry>, legs: seq<SplitLeg>, account: UUID)
    requires multiset(es) == multiset(SettleLog(job, l0, legs) + ReverseLog(job, l0, legs))
    ensures Net(es, account) == LogNet(job, l0, legs, account)
  {
    var a, b := SettleLog(job, l0, legs), ReverseLog(job, l0, legs);
    NetPermutation(es, a + b, account);
    NetConcat(a, b, account);
    NetOfLogs(job, l0, legs, account);
  }

  /** Net position of an account over the finished transaction, when the payment did not go through. */
  lemma {:induction false} FinalNet(job: Job, l0: L.State, s: State, account: UUID)
    requires Inv(job, l0, s) && s.status in {RolledBack, Status.Failed}
    ensures Net(s.ledger.Of(job.id), account) == LogNet(job, l0, Succeeded(s.legs), account)
  {
    FinalLog(job, l0, s);
    NetOfLogged(job, l0, s.ledger.Of(job.id), Succeeded(s.legs), account);
  }

  ghost predicate NetsToZero(job: Job, s: State) {
    forall account: UUID :: Net(s.ledger.Of(job.id), account) == 0
  }

  lemma FinalNetsToZero(job: Job, l0: L.State, s: State)
    requires Inv(job, l0, s) && s.status in {RolledBack, Status.Failed}
    requires forall j :: 0 <= j < |Succeeded(s.legs)| ==> Matched(job, l0, Succeeded(s.legs)[j])
    ensures NetsToZero(job, s)
  {
    forall account: UUID ensures Net(s.ledger.Of(job.id), account) == 0 {
      FinalNet(job, l0, s, account);
      AllMatchedNets(job, l0, Succeeded(s.legs), account);
    }
  }

  lemma FinalNetNonzero(job: Job, l0: L.State, s: State, k: nat)
    requires Inv(job, l0, s) && s.status in {RolledBack, Status.Failed}
    requires k < |Succeeded(s.legs)| && !Matched(job, l0, Succeeded(s.legs)[k])
    requires forall i :: 0 <= i < |job.plan| ==> job.plan[i].amount > 0 && job.plan[i].sourceID != CLEARING
    ensures Net(s.ledger.Of(job.id), Succeeded(s.legs)[k].sourceID) != 0
  {
    var legs := Succeeded(s.legs);
    PlanDistinct(job, s.legs);
    var i := SucceededAmong(s.legs, k);
    LegSources(job, s.legs);
    FinalNet(job, l0, s, legs[k].sourceID);
    OneLegNets(job, l0, legs, k, legs[k].sourceID);
    LegNetCases(job, l0, legs[k], legs[k].sourceID);
  }

  /** A payment that returns an error nets to zero on every account, exactly when each of its succeeded legs had its
      settlement key and its reversal key in the ledger beforehand either both or neither. */
  lemma {:induction false} ErrorNetsToZero(job: Job, cfg: B.Config, s0: State, steps: seq<Step>)
    requires Init(job, s0) && Valid(job, cfg, s0, steps)
    requires Run(job, cfg, s0, steps).status in {RolledBack, Status.Failed}
    requires forall i :: 0 <= i < |job.plan| ==> job.plan[i].amount > 0 && job.plan[i].sourceID != CLEARING
    ensures var s := Run(job, cfg, s0, steps);
            NetsToZero(job, s)
            <==> (forall j :: 0 <= j < |Succeeded(s.legs)| ==> Matched(job, s0.ledger, Succeeded(s.legs)[j]))
  {
    var s, l0 := Run(job, cfg, s0, steps), s0.ledger;
    InvHolds(job, cfg, s0, steps);
    if k :| 0 <= k < |Succeeded(s.legs)| && !Matched(job, l0, Succeeded(s.legs)[k]) {
      FinalNetNonzero(job, l0, s, k);
    } else {
      FinalNetsToZero(job, l0, s);
    }
  }

  /** No key of the transaction is in the ledger yet. */
  ghost predicate FreshKeys(job: Job, l0: L.State) {
    forall src: UUID :: SettleKey(job.key, src) !in l0.entries && ReversalKey(job.key, src) !in l0.entries
  }

  /** In particular, under a key not used before, every failed payment nets to zero on every account. */
  lemma {:induction false} FreshErrorNetsToZero(job: Job, cfg: B.Config, s0: State, steps: seq<Step>)
    requires Init(job, s0) && Valid(job, cfg, s0, steps) && FreshKeys(job, s0.ledger)
    requires Run(job, cfg, s0, steps).error.Some?
    ensures NetsToZero(job, Run(job, cfg, s0, steps))
  {
    InvHolds(job, cfg, s0, steps);
    FinalNetsToZero(job, s0.ledger, Run(job, cfg, s0, steps));
  }

  // ---- what is outstanding at the banks -----------------------------------------------------

  lemma {:induction false} FailureAmong(cs: seq<Comp>, k: nat) returns (j: nat)
    requires k < |Failures(cs)|
    ensures j < |cs| && cs[j].err.Some? && Failures(cs)[k] == (cs[j].leg.sourceID, cs[j].err.value)
  {
    var n := |cs| - 1;
    if k < |Failures(cs[..n])| {
      j := FailureAmong(cs[..n], k);
    } else {
      j := n;
    }
  }

  lemma {:induction false} FailureContains(cs: seq<Comp>, j: nat) returns (k: nat)
    requires j < |cs| && cs[j].err.Some?
    ensures k < |Failures(cs)| && Failures(cs)[k] == (cs[j].leg.sourceID, cs[j].err.value)
  {
    var n := |cs| - 1;
    if j < n {
      k := FailureContains(cs[..n], j);
    } else {
      k := |Failures(cs[..n])|;
    }
  }

  /** The sources named in the list of failed reversals. */
  ghost function FailedSources(failures: seq<(UUID, CompFault)>): set<UUID> {
    set k | 0 <= k < |failures| :: failures[k].0
  }

  lemma PaidAreSucceeded(job: Job, s: State)
    requires Shape(job, s) && s.status in {RollingBack, RolledBack, Status.Failed} && CompsDone(s.comps)
    ensures forall x :: x in PaidSources(s.legs) <==> exists j :: 0 <= j < |s.comps| && s.comps[j].leg.sourceID == x
  {
    forall x ensures x in PaidSources(s.legs) <==> exists j :: 0 <= j < |s.comps| && s.comps[j].leg.sourceID == x {
      if x in PaidSources(s.legs) {
        var i :| 0 <= i < |s.legs| && Paid(s.legs[i]) && s.legs[i].leg.sourceID == x;
        var j := SucceededContains(s.legs, i);
        assert CompOk(Succeeded(s.legs)[j], s.comps[j]);
      }
      if j :| 0 <= j < |s.comps| && s.comps[j].leg.sourceID == x {
        assert CompOk(Succeeded(s.legs)[j], s.comps[j]);
        var i := SucceededAmong(s.legs, j);
        assert Paid(s.legs[i]);
      }
    }
  }

  /** After the compensations, exactly the paid sources named among the failures are still outstanding at the banks. */
  lemma OutstandingAreFailures(job: Job, s: State)
    requires Shape(job, s) && BankOk(s) && s.status in {RollingBack, RolledBack, Status.Failed} && CompsDone(s.comps)
    ensures s.reversed <= s.paid
    ensures s.paid - s.reversed == FailedSources(Failures(s.comps))
  {
    PaidAreSucceeded(job, s);
    PlanDistinct(job, s.legs);
    forall x ensures x in s.paid - s.reversed <==> x in FailedSources(Failures(s.comps)) {
      if x in s.paid - s.reversed {
        var j :| 0 <= j < |s.comps| && s.comps[j].leg.sourceID == x;
        assert !Reversed(s.comps[j]);
        var k := FailureContains(s.comps, j);
      }
      if x in FailedSources(Failures(s.comps)) {
        var k :| 0 <= k < |Failures(s.comps)| && Failures(s.comps)[k].0 == x;
        var j := FailureAmong(s.comps, k);
        if x in s.reversed {
          OneCompPerSource(job, s, j, x);
        }
      }
    }
  }

  lemma CompSourcesDistinct(job: Job, s: State, j: nat, k: nat)
    requires Shape(job, s) && s.status in {RollingBack, RolledBack, Status.Failed}
    requires j < |s.comps| && k < |s.comps| && s.comps[j].leg.sourceID == s.comps[k].leg.sourceID
    ensures j == k
  {
    PlanDistinct(job, s.legs);
    var todo := Succeeded(s.legs);
    assert CompOk(todo[k], s.comps[k]) && CompOk(todo[j], s.comps[j]);
    assert todo[k].sourceID == todo[j].sourceID;
  }

  lemma OneCompPerSource(job: Job, s: State, j: nat, x: UUID)
    requires Shape(job, s) && s.status in {RollingBack, RolledBack, Status.Failed}
    requires j < |s.comps| && s.comps[j].leg.sourceID == x && x in ReversedSources(s.comps)
    ensures Reversed(s.comps[j])
  {
    var k :| 0 <= k < |s.comps| && Reversed(s.comps[k]) && s.comps[k].leg.sourceID == x;
    CompSourcesDistinct(job, s, j, k);
  }

  /** Rolled back: every successful payment was reversed. Failed: exactly the legs reported in the returned error stay
      outstanding at their banks, and there is at least one. */
  ghost predicate BanksAgree(s: State) {
    && (s.status == RolledBack ==> s.paid == s.reversed)
    && (s.status == Status.Failed ==>
          && s.error.Some? && s.error.value.CompensationFailed?
          && s.error.value.failures != []
          && s.reversed <= s.paid
          && s.paid - s.reversed == FailedSources(s.error.value.failures))
  }

  lemma ShapeBanksAgree(job: Job, s: State)
    requires Shape(job, s) && BankOk(s)
    ensures BanksAgree(s)
  {
    if s.status == RolledBack {
      OutstandingAreFailures(job, s);
      assert FailedSources(Failures(s.comps)) == {};
      forall x | x in s.paid ensures x in s.reversed {
        assert x !in s.paid - s.reversed;
      }
    } else if s.status == Status.Failed {
      OutstandingAreFailures(job, s);
    }
  }

  lemma {:induction false} BanksAfterError(job: Job, cfg: B.Config, s0: State, steps: seq<Step>)
    requires Init(job, s0) && Valid(job, cfg, s0, steps)
    ensures BanksAgree(Run(job, cfg, s0, steps))
  {
    InvHolds(job, cfg, s0, steps);
    ShapeBanksAgree(job, Run(job, cfg, s0, steps));
  }

  /** Registrations are never withdrawn, so a compensation always finds the provider its settlement used: the only error a
      compensation can end with is the bank's refusal. */
  lemma {:induction false} ReversalsFindTheirProvider(job: Job, cfg: B.Config, s0: State, steps: seq<Step>, j: nat)
    requires Init(job, s0) && Valid(job, cfg, s0, steps)
    requires j < |Run(job, cfg, s0, steps).comps|
    ensures var c := Run(job, cfg, s0, steps).comps[j];
            c.leg.provider in Run(job, cfg, s0, steps).providers && (c.err.Some? ==> c.err.value.NotReversed?)
  {
    InvHolds(job, cfg, s0, steps);
    var s := Run(job, cfg, s0, steps);
    assert CompOk(Succeeded(s.legs)[j], s.comps[j]);
  }

  // ---- approval -------------------------------------------------------------------------------

  /** Every leg of the plan is settled and paid, none is reversed, and each has exactly one event, which is not published yet. */
  ghost predicate SettledAll(job: Job, s: State) {
    && s.error == None && s.reversed == {} && |s.plan| == |job.plan|
    && forall i :: 0 <= i < |s.plan| ==>
         && s.plan[i] == job.plan[i].(externalRef := s.plan[i].externalRef, status := Settled)
         && s.plan[i].sourceID in s.paid
         && |EventsFor(job, s.outbox, s.plan[i].sourceID)| == 1
         && forall id :: id in EventsFor(job, s.outbox, s.plan[i].sourceID) ==> s.outbox[id] == L.OutboxEvent(job.id, s.plan[i], false)
  }

  lemma ApprovedSettles(job: Job, l0: L.State, s: State)
    requires Inv(job, l0, s) && FreshKeys(job, l0) && s.status == Approved
    ensures SettledAll(job, s)
  {
    FirstFaultIff(s.legs);
    assert ReversedSources(s.comps) == {};
    forall i | 0 <= i < |s.plan|
      ensures s.plan[i] == SettledLeg(job.plan[i], s.plan[i].externalRef)
      ensures s.plan[i].sourceID in s.paid && |EventsFor(job, s.outbox, s.plan[i].sourceID)| == 1
      ensures forall id :: id in EventsFor(job, s.outbox, s.plan[i].sourceID) ==> s.outbox[id] == L.OutboxEvent(job.id, s.plan[i], false)
    {
      assert LegOk(job.plan[i], s.legs[i]);
      assert Paid(s.legs[i]);
      assert EventOk(job, l0, s, i);
    }
  }

  lemma {:induction false} ApprovedLog(job: Job, l0: L.State, s: State)
    requires Inv(job, l0, s) && s.status == Approved
    ensures multiset(s.ledger.Of(job.id)) == multiset(SettleLog(job, l0, s.plan))
  {
    FirstFaultIff(s.legs);
    AllSucceeded(s.legs);
    FinalLog(job, l0, s);
    var log := SettleLog(job, l0, s.plan);
    assert log + ReverseLog(job, l0, []) == log;
  }

  /** An approved payment has settled all of its plan, and under a fresh key its entry list is a permutation of one
      settlement batch per leg. */
  lemma {:induction false} ApprovedSettlesAll(job: Job, cfg: B.Config, s0: State, steps: seq<Step>)
    requires Init(job, s0) && Valid(job, cfg, s0, steps) && FreshKeys(job, s0.ledger)
    requires Run(job, cfg, s0, steps).status == Approved
    ensures var s := Run(job, cfg, s0, steps);
            && SettledAll(job, s)
            && multiset(s.ledger.Of(job.id)) == multiset(SettleLog(job, s0.ledger, s.plan))
  {
    InvHolds(job, cfg, s0, steps);
    ApprovedSettles(job, s0.ledger, Run(job, cfg, s0, steps));
    ApprovedLog(job, s0.ledger, Run(job, cfg, s0, steps));
  }

  lemma {:induction false} AllSucceeded(ls: seq<Leg>)
    requires forall i :: 0 <= i < |ls| ==> ls[i].err.None?
    ensures Succeeded(ls) == LegsOf(ls)
  {
    if ls != [] {
      AllSucceeded(ls[..|ls| - 1]);
    }
  }

  /** Under a fresh key the settlement log debits clearing, and credits the sources, by the legs' total amount. */
  lemma {:induction false} SettleLogTotals(job: Job, l0: L.State, legs: seq<SplitLeg>)
    requires FreshKeys(job, l0)
    requires forall i :: 0 <= i < |legs| ==> legs[i].sourceID != CLEARING
    ensures Net(SettleLog(job, l0, legs), CLEARING) == -Amount(legs)
    ensures Total(Debit, SettleLog(job, l0, legs)) == Amount(legs) == Total(Credit, SettleLog(job, l0, legs))
    ensures forall e :: e in SettleLog(job, l0, legs) ==> (e.kind == Debit <==> e.account == CLEARING)
  {
    if legs != [] {
      var before, last := legs[..|legs| - 1], legs[|legs| - 1];
      var log, es := SettleLog(job, l0, before), SettleEntries(job, last);
      SettleLogTotals(job, l0, before);
      PairTotals(es, CLEARING);
      NetConcat(log, es, CLEARING);
      TotalConcat(Debit, log, es);
      TotalConcat(Credit, log, es);
    }
  }
}
