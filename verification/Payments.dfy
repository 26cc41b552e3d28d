/** Authorising a payment end to end: fetch the assets, plan the split, run the saga. */
module Payments {
  import opened Common
  import opened Uuid
  import opened Domain
  import opened Planner
  import opened Saga
  import opened SagaInvariant
  import opened SagaLedger
  import opened SagaSafety
  import L = Ledger
  import B = CircuitBreaker

  /** The shared state a payment finds when its goroutines start. */
  datatype World = World(ledger: L.State, outbox: L.Outbox, breaker: B.State, providers: set<string>, refs: set<UUID>)

  function Start(job: Job, w: World): State {
    State(Authorizing, job.plan, seq(|job.plan|, i requires 0 <= i < |job.plan| => Leg(AtBreaker, job.plan[i], None)),
          [], None, w.ledger, w.outbox, w.breaker, w.providers, w.refs, {}, {})
  }

  /** The generated transaction identifier occurs nowhere yet. */
  ghost predicate FreshId(id: UUID, w: World) {
    w.ledger.Of(id) == [] && forall e :: e in w.outbox ==> w.outbox[e].txID != id
  }

  /** A complete execution of a planned payment. */
  ghost predicate Complete(job: Job, cfg: B.Config, w: World, steps: seq<Step>) {
    Valid(job, cfg, Start(job, w), steps) && Final(Run(job, cfg, Start(job, w), steps).status)
  }

  datatype Failure = AssetsUnavailable(message: string) | NotPlanned(why: PlanError) | NotExecuted(error: ExecError)

  class Transaction {
    const id: UUID
    const key: string
    const total: int64
    var status: Status
    var plan: seq<SplitLeg>
    var failure: Option<Failure>

    constructor (id: UUID, total: int64, key: string)
      ensures this.id == id && this.total == total && this.key == key
      ensures status == Initiated && plan == [] && failure == None
    {
      this.id, this.total, this.key := id, total, key;
      status, plan, failure := Initiated, [], None;
    }

    /** Carries the transaction through its life cycle. `execution` is whatever the scheduler, the banks and the rest of the
        program make of the plan once there is one. */
    method Authorize(assets: Result<seq<UserAsset>, string>, cfg: B.Config, w: World, execution: seq<Step>)
      returns (end: Option<State>)
      requires assets.Ok? && Plan(assets.value, total).Ok? ==> Complete(Job(id, key, Plan(assets.value, total).value), cfg, w, execution)
      modifies this
      ensures assets.Err? ==> end == None && status == Status.Failed && plan == old(plan)
                              && failure == Some(AssetsUnavailable(assets.error))
      ensures assets.Ok? && Plan(assets.value, total).Err? ==> end == None && status == Status.Failed && plan == old(plan)
                                                               && failure == Some(NotPlanned(Plan(assets.value, total).error))
      ensures assets.Ok? && Plan(assets.value, total).Ok? ==>
                var job := Job(id, key, Plan(assets.value, total).value);
                end == Some(Run(job, cfg, Start(job, w), execution))
      ensures end.Some? ==> status == end.value.status && plan == end.value.plan && Final(status)
                            && (end.value.error.Some? ==> failure == Some(NotExecuted(end.value.error.value)))
                            && (end.value.error.None? ==> failure == old(failure))
    {
      end := None;
      if assets.Err? {
        status := Status.Failed;
        failure := Some(AssetsUnavailable(assets.error));
        return;
      }
      status := Planning;
      var r := BuildPlan(assets.value, total);
      if r.Err? {
        status := Status.Failed;
        failure := Some(NotPlanned(r.error));
        return;
      }
      plan := r.value;
      var job := Job(id, key, plan);
      var s := Run(job, cfg, Start(job, w), execution);
      status, plan := s.status, s.plan;
      if s.error.Some? {
        failure := Some(NotExecuted(s.error.value));
      }
      end := Some(s);
    }
  }

  // ---- end to end ------------------------------------------------------------------

  /** The hypotheses under which a planned payment starts: distinct assets, none of them the clearing account, and a
      generated transaction identifier. */
  ghost predicate Starts(assets: seq<UserAsset>, amount: int, job: Job, w: World) {
    && DistinctIds(assets)
    && (forall i :: 0 <= i < |assets| ==> assets[i].id != CLEARING)
    && Plan(assets, amount) == Ok(job.plan)
    && FreshId(job.id, w)
  }

  lemma PlanLegs(assets: seq<UserAsset>, amount: int, job: Job, w: World)
    requires Starts(assets, amount, job, w)
    ensures Init(job, Start(job, w)) && Amount(job.plan) == amount
    ensures forall i :: 0 <= i < |job.plan| ==> job.plan[i].amount > 0 && job.plan[i].sourceID != CLEARING
  {
    PlanSourcesDistinct(assets, amount);
    var at := PlanIsExact(assets, amount);
    var sorted := ByPriority(assets);
    forall i | 0 <= i < |job.plan| ensures job.plan[i].amount > 0 && job.plan[i].sourceID != CLEARING {
      assert sorted[at[i]] in multiset(assets);
    }
  }

  lemma {:induction false} SettledAmount(plan: seq<SplitLeg>, settled: seq<SplitLeg>)
    requires |plan| == |settled| && forall i :: 0 <= i < |plan| ==> settled[i].amount == plan[i].amount
    ensures Amount(settled) == Amount(plan)
  {
    if plan != [] {
      SettledAmount(plan[..|plan| - 1], settled[..|plan| - 1]);
    }
  }

  /** The transaction's entries take exactly `amount` from clearing and give exactly `amount` to the sources. */
  ghost predicate PaysExactly(es: seq<LedgerEntry>, amount: int) {
    && Total(Debit, es) == amount && Total(Credit, es) == amount
    && Net(es, CLEARING) == -amount
    && forall e :: e in es ==> (e.kind == Debit <==> e.account == CLEARING)
  }

  lemma PermutedPaysExactly(es: seq<LedgerEntry>, log: seq<LedgerEntry>, amount: int)
    requires multiset(es) == multiset(log) && PaysExactly(log, amount)
    ensures PaysExactly(es, amount)
  {
    TotalPermutation(Debit, es, log);
    TotalPermutation(Credit, es, log);
    NetPermutation(es, log, CLEARING);
    forall e | e in es ensures e.kind == Debit <==> e.account == CLEARING {
      assert e in multiset(log);
    }
  }

  /** Under a key not used before, an approved payment has every leg settled with one batch and one event each, and has moved
      exactly the requested amount from clearing to the sources. */
  lemma {:induction false} ApprovedPaysExactly(assets: seq<UserAsset>, amount: int, job: Job, cfg: B.Config, w: World, steps: seq<Step>)
    requires Starts(assets, amount, job, w) && FreshKeys(job, w.ledger)
    requires Complete(job, cfg, w, steps) && Run(job, cfg, Start(job, w), steps).status == Approved
    ensures var s := Run(job, cfg, Start(job, w), steps);
            && SettledAll(job, s)
            && multiset(s.ledger.Of(job.id)) == multiset(SettleLog(job, w.ledger, s.plan))
            && PaysExactly(s.ledger.Of(job.id), amount)
  {
    PlanLegs(assets, amount, job, w);
    ApprovedSettlesAll(job, cfg, Start(job, w), steps);
    var s := Run(job, cfg, Start(job, w), steps);
    SettledAmount(job.plan, s.plan);
    SettleLogTotals(job, w.ledger, s.plan);
    PermutedPaysExactly(s.ledger.Of(job.id), SettleLog(job, w.ledger, s.plan), amount);
  }

  /** Under a key not used before, a payment that ends otherwise leaves every account at zero, and the banks hold exactly
      the payments whose reversal it reports as failed. */
  lemma {:induction false} ErrorLeavesNothing(assets: seq<UserAsset>, amount: int, job: Job, cfg: B.Config, w: World, steps: seq<Step>)
    requires Starts(assets, amount, job, w) && FreshKeys(job, w.ledger)
    requires Complete(job, cfg, w, steps) && Run(job, cfg, Start(job, w), steps).status != Approved
    ensures var s := Run(job, cfg, Start(job, w), steps);
            s.error.Some? && NetsToZero(job, s) && BanksAgree(s)
  {
    PlanLegs(assets, amount, job, w);
    InvHolds(job, cfg, Start(job, w), steps);
    FreshErrorNetsToZero(job, cfg, Start(job, w), steps);
    BanksAfterError(job, cfg, Start(job, w), steps);
  }
}
