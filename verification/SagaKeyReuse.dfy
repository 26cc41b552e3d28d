/** A client key used for two payments: a concrete run that leaves money moved although the payment fails. */
module SagaKeyReuse {
  import opened Common
  import opened Uuid
  import opened Domain
  import opened IdempotencyKeys
  import opened Saga
  import opened SagaLedger
  import opened SagaSafety
  import opened SagaOracles
  import L = Ledger
  import B = CircuitBreaker

  const SOURCE_A: UUID := [1, 1, 1, 1, 1, 1, 1, 1, 1, 1, 1, 1, 1, 1, 1, 1]
  const SOURCE_B: UUID := [2, 2, 2, 2, 2, 2, 2, 2, 2, 2, 2, 2, 2, 2, 2, 2]
  const EARLIER_TX: UUID := [3, 3, 3, 3, 3, 3, 3, 3, 3, 3, 3, 3, 3, 3, 3, 3]
  const LATER_TX: UUID := [4, 4, 4, 4, 4, 4, 4, 4, 4, 4, 4, 4, 4, 4, 4, 4]

  function PlannedLeg(source: UUID): SplitLeg {
    SplitLeg(source, "bank", CurrentAccount, 100, "", Pending, None)
  }

  /** A second payment under the key of an earlier one, from the same first source. */
  const SECOND := Job(LATER_TX, "key", [PlannedLeg(SOURCE_A), PlannedLeg(SOURCE_B)])

  /** What the approved earlier payment left in the ledger: the settlement of its only leg. */
  function EarlierLedger(): L.State {
    L.Save(L.EMPTY, EARLIER_TX, L.SettlementBatch(EARLIER_TX, SettledLeg(PlannedLeg(SOURCE_A), "ref"), SettleKey("key", SOURCE_A)))
  }

  function SecondStart(): State {
    State(Authorizing, SECOND.plan, seq(2, i requires 0 <= i < 2 => Leg(AtBreaker, SECOND.plan[i], None)), [], None,
          EarlierLedger(), map[], B.FRESH, {}, {}, {}, {})
  }

  lemma WitnessIds()
    ensures SOURCE_A != SOURCE_B && EARLIER_TX != LATER_TX && SOURCE_A != CLEARING && SOURCE_B != CLEARING
  {
    assert SOURCE_A[0] != SOURCE_B[0] && EARLIER_TX[0] != LATER_TX[0] && SOURCE_A[0] != CLEARING[0] && SOURCE_B[0] != CLEARING[0];
  }

  lemma EarlierKeys()
    ensures EarlierLedger().Of(LATER_TX) == [] && !Matched(SECOND, EarlierLedger(), SECOND.plan[0])
  {
    WitnessIds();
    var es := L.SettlementBatch(EARLIER_TX, SettledLeg(PlannedLeg(SOURCE_A), "ref"), SettleKey("key", SOURCE_A));
    L.SavePair(L.EMPTY, EARLIER_TX, es);
    SavedKeys(L.EMPTY, EARLIER_TX, es, Settlement, "key", SOURCE_A, Settlement, "key", SOURCE_A);
    SavedKeys(L.EMPTY, EARLIER_TX, es, Settlement, "key", SOURCE_A, Reversal, "key", SOURCE_A);
  }

  lemma SecondPlan()
    ensures DistinctSources(SECOND.plan) && |SECOND.plan| == 2
    ensures forall i :: 0 <= i < |SECOND.plan| ==> SECOND.plan[i].amount > 0 && SECOND.plan[i].sourceID != CLEARING
  {
    WitnessIds();
  }

  lemma SecondCanStart()
    ensures Init(SECOND, SecondStart())
  {
    SecondPlan();
    EarlierKeys();
    assert SecondStart().legs == seq(|SECOND.plan|, i requires 0 <= i < |SECOND.plan| => Leg(AtBreaker, SECOND.plan[i], None));
  }

  lemma SecondIds()
    ensures FreshIds(SECOND, SecondStart(), [SOURCE_A, SOURCE_B])
  {
    WitnessIds();
    assert Distinct([SOURCE_A, SOURCE_B]);
  }

  /** Some run of the second payment, with its first leg accepted and its second refused, takes the first leg's settlement for
      one already recorded, records its reversal, and does not net to zero. */
  lemma ReusedKeyLeavesMoney(cfg: B.Config) returns (steps: seq<Step>)
    ensures Init(SECOND, SecondStart())
    ensures EndsInError(SECOND, cfg, SecondStart(), steps) && !NetsToZero(SECOND, Run(SECOND, cfg, SecondStart(), steps))
  {
    SecondCanStart();
    SecondPlan();
    SecondIds();
    EarlierKeys();
    steps := UnmatchedLeavesMoney(SECOND, cfg, SecondStart(), [SOURCE_A, SOURCE_B], 0);
  }
}
