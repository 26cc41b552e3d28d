/** The two indexes of the shared ledger while checks and saves of different goroutines interleave. */
module SagaIndexes {
  import opened Common
  import opened Uuid
  import opened Domain
  import opened IdempotencyKeys
  import opened Saga
  import opened SagaInvariant
  import opened SagaLedger
  import L = Ledger
  import B = CircuitBreaker

  /** Each keyed entry occurs exactly once in its transaction's list, and base keys come with their credit keys. */
  ghost predicate Agree(l: L.State) {
    L.Consistent(l) && L.Paired(l)
  }

  /** Another transaction saves only under a key that it found missing, as this one does. */
  predicate Checked(s: State, step: Step) {
    step.Other? && step.o.OtherSave? ==> Key(step.o.form, step.o.key, step.o.leg.sourceID) !in s.ledger.entries
  }

  predicate AllChecked(job: Job, cfg: B.Config, s0: State, steps: seq<Step>)
    requires Valid(job, cfg, s0, steps)
  {
    steps == [] ||
    var before := steps[..|steps| - 1];
    AllChecked(job, cfg, s0, before) && Checked(Run(job, cfg, s0, before), steps[|steps| - 1])
  }

  lemma SettlementAgrees(l: L.State, tx: UUID, leg: SplitLeg, k: string, src: UUID)
    requires Agree(l) && SettleKey(k, src) !in l.entries
    ensures Agree(L.Save(l, tx, L.SettlementBatch(tx, leg, SettleKey(k, src))))
  {
    var b, c := L.Books(l, map[]), L.Call.RecordSplitSettlement(tx, leg, SettleKey(k, src), tx);
    assert L.WellKeyed(c);
    L.ApplyKeepsAgreement(b, c);
  }

  lemma ReversalAgrees(l: L.State, tx: UUID, leg: SplitLeg, k: string, src: UUID)
    requires Agree(l) && ReversalKey(k, src) !in l.entries
    ensures Agree(L.Save(l, tx, L.CompensationBatch(tx, leg, ReversalKey(k, src))))
  {
    var b, c := L.Books(l, map[]), L.Call.RecordCompensation(tx, leg, ReversalKey(k, src));
    assert L.WellKeyed(c);
    L.ApplyKeepsAgreement(b, c);
  }

  /** A goroutine that found its key missing still finds it missing when it saves, whatever ran in between. */
  lemma SaveIsNew(job: Job, cfg: B.Config, l0: L.State, s: State, i: nat)
    requires Shape(job, s) && KeysOk(job, l0, s) && Enabled(job, s, LegStep(i, SaveBatch))
    ensures SettleKey(job.key, s.legs[i].leg.sourceID) !in s.ledger.entries
  {
    LegStepWrites(job, cfg, l0, s, i, SaveBatch);
    OwnSource(job, l0, s.legs, i);
  }

  lemma ReversalIsNew(job: Job, l0: L.State, s: State, j: nat)
    requires Shape(job, s) && KeysOk(job, l0, s) && Enabled(job, s, CompStep(j, SaveReversal))
    ensures ReversalKey(job.key, s.comps[j].leg.sourceID) !in s.ledger.entries
  {
    CompStepWrites(job, l0, s, j, SaveReversal);
    OwnCompensation(job, l0, s, j);
  }

  lemma SettlementOrReversalAgrees(l: L.State, o: OtherAct)
    requires Agree(l) && o.OtherSave? && o.form in {Settlement, Reversal} && Key(o.form, o.key, o.leg.sourceID) !in l.entries
    ensures Agree(L.Save(l, o.tx, OtherBatch(o)))
  {
    if o.form == Settlement {
      SettlementAgrees(l, o.tx, o.leg, o.key, o.leg.sourceID);
    } else {
      ReversalAgrees(l, o.tx, o.leg, o.key, o.leg.sourceID);
    }
  }

  lemma LegStepAgrees(job: Job, cfg: B.Config, l0: L.State, s: State, i: nat, a: LegAct)
    requires Shape(job, s) && KeysOk(job, l0, s) && Enabled(job, s, LegStep(i, a)) && Agree(s.ledger)
    ensures Agree(NewLedger(job, s, s.legs[i], a))
  {
    if a.SaveBatch? {
      SaveIsNew(job, cfg, l0, s, i);
      SettlementAgrees(s.ledger, job.id, s.legs[i].leg, job.key, s.legs[i].leg.sourceID);
    }
  }

  lemma CompStepAgrees(job: Job, l0: L.State, s: State, j: nat, a: CompAct)
    requires Shape(job, s) && KeysOk(job, l0, s) && Enabled(job, s, CompStep(j, a)) && Agree(s.ledger)
    ensures Agree(AfterComp(job, s, j, a).ledger)
  {
    if a.SaveReversal? {
      ReversalIsNew(job, l0, s, j);
      ReversalAgrees(s.ledger, job.id, s.comps[j].leg, job.key, s.comps[j].leg.sourceID);
    }
  }

  lemma OtherAgrees(job: Job, s: State, o: OtherAct)
    requires Enabled(job, s, Other(o)) && Checked(s, Other(o)) && Agree(s.ledger)
    ensures Agree(AfterOther(s, o).ledger)
  {
    if o.OtherSave? {
      SettlementOrReversalAgrees(s.ledger, o);
    }
  }

  lemma NextAgrees(job: Job, cfg: B.Config, l0: L.State, s: State, step: Step)
    requires Shape(job, s) && KeysOk(job, l0, s) && Enabled(job, s, step) && Checked(s, step) && Agree(s.ledger)
    ensures Agree(Next(job, cfg, s, step).ledger)
  {
    match step
    case LegStep(i, a) => LegStepAgrees(job, cfg, l0, s, i, a);
    case CompStep(j, a) => CompStepAgrees(job, l0, s, j, a);
    case Other(o) => OtherAgrees(job, s, o);
    case _ =>
  }

  /** In every state of every run the two indexes agree, although checking for a key and saving under it are separate steps. */
  lemma {:induction false} IndexesAgreeThroughout(job: Job, cfg: B.Config, s0: State, steps: seq<Step>)
    requires Init(job, s0) && Agree(s0.ledger)
    requires Valid(job, cfg, s0, steps) && AllChecked(job, cfg, s0, steps)
    ensures Agree(Run(job, cfg, s0, steps).ledger)
  {
    if steps != [] {
      var before := steps[..|steps| - 1];
      IndexesAgreeThroughout(job, cfg, s0, before);
      InvHolds(job, cfg, s0, before);
      NextAgrees(job, cfg, s0.ledger, Run(job, cfg, s0, before), steps[|steps| - 1]);
    }
  }
}
