/** What a running payment has put into the shared ledger and outbox, at every point of every interleaving. */
module SagaLedger {
  import opened Common
  import opened Uuid
  import opened Domain
  import opened IdempotencyKeys
  import opened Saga
  import opened SagaInvariant
  import L = Ledger
  import B = CircuitBreaker

  // ---- who has written what -----------------------------------------------------

  /** This leg's goroutine has saved a settlement batch; it does so unless its key was there before the run. */
  predicate SettleWritten(job: Job, l0: L.State, l: Leg) {
    Paid(l) && l.pc in {AtOutbox, AtReport, Done} && SettleKey(job.key, l.leg.sourceID) !in l0.entries
  }

  predicate CompWritten(job: Job, l0: L.State, c: Comp) {
    c.pc == CompDone && ReversalKey(job.key, c.leg.sourceID) !in l0.entries
  }

  ghost function SettledSources(job: Job, l0: L.State, ls: seq<Leg>): set<UUID> {
    set i | 0 <= i < |ls| && SettleWritten(job, l0, ls[i]) :: ls[i].leg.sourceID
  }

  ghost function CompensatedSources(job: Job, l0: L.State, cs: seq<Comp>): set<UUID> {
    set j | 0 <= j < |cs| && CompWritten(job, l0, cs[j]) :: cs[j].leg.sourceID
  }

  function SettlePart(job: Job, l0: L.State, l: Leg): seq<LedgerEntry> {
    if SettleWritten(job, l0, l) then SettleEntries(job, l.leg) else []
  }

  function CompPart(job: Job, l0: L.State, c: Comp): seq<LedgerEntry> {
    if CompWritten(job, l0, c) then ReversalEntries(job, c.leg) else []
  }

  /** The settlement batches written so far, in plan order. */
  function SettleParts(job: Job, l0: L.State, ls: seq<Leg>): seq<seq<LedgerEntry>> {
    seq(|ls|, i requires 0 <= i < |ls| => SettlePart(job, l0, ls[i]))
  }

  function CompParts(job: Job, l0: L.State, cs: seq<Comp>): seq<seq<LedgerEntry>> {
    seq(|cs|, j requires 0 <= j < |cs| => CompPart(job, l0, cs[j]))
  }

  function Settlements(job: Job, l0: L.State, ls: seq<Leg>): seq<LedgerEntry> {
    Concat(SettleParts(job, l0, ls))
  }

  function Compensations(job: Job, l0: L.State, cs: seq<Comp>): seq<LedgerEntry> {
    Concat(CompParts(job, l0, cs))
  }

  // ---- the invariant ------------------------------------------------------------------

  ghost predicate KeysOk(job: Job, l0: L.State, s: State) {
    && (forall src: UUID :: SettleKey(job.key, src) in s.ledger.entries
                            <==> SettleKey(job.key, src) in l0.entries || src in SettledSources(job, l0, s.legs))
    && (forall src: UUID :: ReversalKey(job.key, src) in s.ledger.entries
                            <==> ReversalKey(job.key, src) in l0.entries || src in CompensatedSources(job, l0, s.comps))
    && (forall i :: 0 <= i < |s.legs| && s.legs[i].pc in {AtSave, AtOutbox} ==> SettleKey(job.key, s.legs[i].leg.sourceID) !in l0.entries)
    && (forall j :: 0 <= j < |s.comps| && s.comps[j].pc == AtCompSave ==> ReversalKey(job.key, s.comps[j].leg.sourceID) !in l0.entries)
  }

  /** The transaction's entry list is a permutation of the batches its goroutines have saved, in plan order. */
  ghost predicate ListOk(job: Job, l0: L.State, s: State) {
    multiset(s.ledger.Of(job.id)) == multiset(Settlements(job, l0, s.legs)) + multiset(Compensations(job, l0, s.comps))
  }

  lemma InitLedger(job: Job, s: State)
    requires Init(job, s)
    ensures KeysOk(job, s.ledger, s) && ListOk(job, s.ledger, s)
  {
    assert SettledSources(job, s.ledger, s.legs) == {};
    assert CompensatedSources(job, s.ledger, s.comps) == {};
    ConcatEmpty(SettleParts(job, s.ledger, s.legs));
  }

  lemma NoCompensationYet(job: Job, l0: L.State, cs: seq<Comp>)
    requires forall j :: 0 <= j < |cs| ==> cs[j].pc == AtResolve
    ensures Compensations(job, l0, cs) == [] && CompensatedSources(job, l0, cs) == {}
  {
    ConcatEmpty(CompParts(job, l0, cs));
  }

  // ---- effect of one changed goroutine ---------------------------------------------------

  lemma SettledUpdate(job: Job, l0: L.State, ls: seq<Leg>, i: nat, l: Leg)
    requires i < |ls| && l.leg.sourceID == ls[i].leg.sourceID
    requires SettleWritten(job, l0, ls[i]) ==> SettleWritten(job, l0, l)
    ensures SettledSources(job, l0, ls[i := l])
            == SettledSources(job, l0, ls) + (if SettleWritten(job, l0, l) then {l.leg.sourceID} else {})
  {
    var ms := ls[i := l];
    var more := if SettleWritten(job, l0, l) then {l.leg.sourceID} else {};
    forall x ensures x in SettledSources(job, l0, ms) <==> x in SettledSources(job, l0, ls) + more {
      if x in SettledSources(job, l0, ls) {
        var k :| 0 <= k < |ls| && SettleWritten(job, l0, ls[k]) && ls[k].leg.sourceID == x;
        assert SettleWritten(job, l0, ms[k]) && ms[k].leg.sourceID == x;
      }
      if x in SettledSources(job, l0, ms) {
        var k :| 0 <= k < |ms| && SettleWritten(job, l0, ms[k]) && ms[k].leg.sourceID == x;
        assert k != i ==> SettleWritten(job, l0, ls[k]) && ls[k].leg.sourceID == x;
      }
      if x in more {
        assert SettleWritten(job, l0, ms[i]) && ms[i].leg.sourceID == x;
      }
    }
  }

  lemma CompensatedUpdate(job: Job, l0: L.State, cs: seq<Comp>, j: nat, c: Comp)
    requires j < |cs| && c.leg == cs[j].leg
    requires CompWritten(job, l0, cs[j]) ==> CompWritten(job, l0, c)
    ensures CompensatedSources(job, l0, cs[j := c])
            == CompensatedSources(job, l0, cs) + (if CompWritten(job, l0, c) then {c.leg.sourceID} else {})
  {
    var ds := cs[j := c];
    var more := if CompWritten(job, l0, c) then {c.leg.sourceID} else {};
    forall x ensures x in CompensatedSources(job, l0, ds) <==> x in CompensatedSources(job, l0, cs) + more {
      if x in CompensatedSources(job, l0, cs) {
        var k :| 0 <= k < |cs| && CompWritten(job, l0, cs[k]) && cs[k].leg.sourceID == x;
        assert CompWritten(job, l0, ds[k]) && ds[k].leg.sourceID == x;
      }
      if x in CompensatedSources(job, l0, ds) {
        var k :| 0 <= k < |ds| && CompWritten(job, l0, ds[k]) && ds[k].leg.sourceID == x;
        assert k != j ==> CompWritten(job, l0, cs[k]) && cs[k].leg.sourceID == x;
      }
      if x in more {
        assert CompWritten(job, l0, ds[j]) && ds[j].leg.sourceID == x;
      }
    }
  }

  lemma SettlePartsUpdate(job: Job, l0: L.State, ls: seq<Leg>, i: nat, l: Leg)
    requires i < |ls|
    ensures SettleParts(job, l0, ls[i := l]) == SettleParts(job, l0, ls)[i := SettlePart(job, l0, l)]
  {
  }

  lemma CompPartsUpdate(job: Job, l0: L.State, cs: seq<Comp>, j: nat, c: Comp)
    requires j < |cs|
    ensures CompParts(job, l0, cs[j := c]) == CompParts(job, l0, cs)[j := CompPart(job, l0, c)]
  {
  }

  /** Saving a batch under a base key adds that base key, and of all other base keys none. */
  lemma SavedKeys(l: L.State, tx: UUID, es: seq<LedgerEntry>, f: Form, k: string, src: UUID, g: Form, k': string, src': UUID)
    requires f in {Settlement, Reversal} && g in {Settlement, Reversal}
    requires |es| == 2 && es[0].key == Key(f, k, src) && es[1].key == CreditKey(es[0].key)
    ensures Key(g, k', src') in L.Save(l, tx, es).entries
            <==> Key(g, k', src') in l.entries || (g == f && k' == k && src' == src)
  {
    L.SavePair(l, tx, es);
    L.NewKey(f, k, src, g, k', src');
    if Key(f, k, src) == Key(g, k', src') {
      KeysNeverCollide(f, k, src, g, k', src');
    }
  }

  // ---- leg steps -----------------------------------------------------------------------------

  /** With distinct sources, a source is settled only by its own leg. */
  lemma OwnSource(job: Job, l0: L.State, ls: seq<Leg>, i: nat)
    requires LegsOk(job, ls) && DistinctSources(job.plan) && i < |ls|
    ensures ls[i].leg.sourceID in SettledSources(job, l0, ls) <==> SettleWritten(job, l0, ls[i])
  {
    LegSources(job, ls);
    if ls[i].leg.sourceID in SettledSources(job, l0, ls) {
      var k :| 0 <= k < |ls| && SettleWritten(job, l0, ls[k]) && ls[k].leg.sourceID == ls[i].leg.sourceID;
      assert job.plan[k].sourceID == job.plan[i].sourceID;
      assert k == i;
    }
  }

  lemma OwnCompensation(job: Job, l0: L.State, s: State, j: nat)
    requires Shape(job, s) && s.status == RollingBack && j < |s.comps|
    ensures s.comps[j].leg.sourceID in CompensatedSources(job, l0, s.comps) <==> CompWritten(job, l0, s.comps[j])
  {
    PlanDistinct(job, s.legs);
    var todo := Succeeded(s.legs);
    assert CompOk(todo[j], s.comps[j]);
    if s.comps[j].leg.sourceID in CompensatedSources(job, l0, s.comps) {
      var k :| 0 <= k < |s.comps| && CompWritten(job, l0, s.comps[k]) && s.comps[k].leg.sourceID == s.comps[j].leg.sourceID;
      assert CompOk(todo[k], s.comps[k]);
      assert todo[k].sourceID == todo[j].sourceID;
      assert k == j;
    }
  }

  /** How a leg step changes what that leg has written. */
  lemma LegStepWrites(job: Job, cfg: B.Config, l0: L.State, s: State, i: nat, a: LegAct)
    requires Shape(job, s) && KeysOk(job, l0, s) && Enabled(job, s, LegStep(i, a))
    ensures var l := s.legs[i];
            var m := NewLeg(job, cfg, s, l, a);
            && m.leg.sourceID == l.leg.sourceID
            && (SettleWritten(job, l0, m) <==> SettleWritten(job, l0, l) || a.SaveBatch?)
            && (SettleWritten(job, l0, l) ==> m.leg == l.leg)
            && (a.SaveBatch? ==> !SettleWritten(job, l0, l) && m.leg == l.leg)
            && (m.pc in {AtSave, AtOutbox} ==> SettleKey(job.key, m.leg.sourceID) !in l0.entries)
  {
    assert LegOk(job.plan[i], s.legs[i]);
    OwnSource(job, l0, s.legs, i);
    assert SettleKey(job.key, s.legs[i].leg.sourceID) in s.ledger.entries
      <==> SettleKey(job.key, s.legs[i].leg.sourceID) in l0.entries || s.legs[i].leg.sourceID in SettledSources(job, l0, s.legs);
  }

  lemma LegStepKeys(job: Job, cfg: B.Config, l0: L.State, s: State, i: nat, a: LegAct)
    requires Shape(job, s) && KeysOk(job, l0, s) && Enabled(job, s, LegStep(i, a))
    ensures KeysOk(job, l0, AfterLeg(job, cfg, s, i, a))
  {
    var l := s.legs[i];
    var m := NewLeg(job, cfg, s, l, a);
    var t := AfterLeg(job, cfg, s, i, a);
    LegStepWrites(job, cfg, l0, s, i, a);
    SettledUpdate(job, l0, s.legs, i, m);
    if a.SaveBatch? {
      var es := SettleEntries(job, l.leg);
      forall src: UUID
        ensures SettleKey(job.key, src) in t.ledger.entries
                <==> SettleKey(job.key, src) in l0.entries || src in SettledSources(job, l0, t.legs)
        ensures ReversalKey(job.key, src) in t.ledger.entries <==> ReversalKey(job.key, src) in s.ledger.entries
      {
        SavedKeys(s.ledger, job.id, es, Settlement, job.key, l.leg.sourceID, Settlement, job.key, src);
        SavedKeys(s.ledger, job.id, es, Settlement, job.key, l.leg.sourceID, Reversal, job.key, src);
      }
    } else if SettleWritten(job, l0, l) {
      assert l.leg.sourceID in SettledSources(job, l0, s.legs);
    }
  }

  lemma LegStepList(job: Job, cfg: B.Config, l0: L.State, s: State, i: nat, a: LegAct)
    requires Shape(job, s) && KeysOk(job, l0, s) && ListOk(job, l0, s) && Enabled(job, s, LegStep(i, a))
    ensures ListOk(job, l0, AfterLeg(job, cfg, s, i, a))
  {
    var l := s.legs[i];
    var m := NewLeg(job, cfg, s, l, a);
    var parts := SettleParts(job, l0, s.legs);
    LegStepWrites(job, cfg, l0, s, i, a);
    SettlePartsUpdate(job, l0, s.legs, i, m);
    if a.SaveBatch? {
      LegSaveList(job, l0, s, i, m);
    } else {
      assert SettlePart(job, l0, m) == parts[i];
      assert parts[i := parts[i]] == parts;
    }
  }

  lemma LegSaveList(job: Job, l0: L.State, s: State, i: nat, m: Leg)
    requires ListOk(job, l0, s) && i < |s.legs|
    requires SettlePart(job, l0, s.legs[i]) == [] && SettlePart(job, l0, m) == SettleEntries(job, m.leg)
    ensures multiset(L.Save(s.ledger, job.id, SettleEntries(job, m.leg)).Of(job.id))
            == multiset(Settlements(job, l0, s.legs[i := m])) + multiset(Compensations(job, l0, s.comps))
  {
    var es := SettleEntries(job, m.leg);
    L.SavePair(s.ledger, job.id, es);
    SettlePartsUpdate(job, l0, s.legs, i, m);
    ConcatFill(SettleParts(job, l0, s.legs), i, es);
    assert L.Save(s.ledger, job.id, es).Of(job.id) == s.ledger.Of(job.id) + es;
  }

  // ---- compensation steps ------------------------------------------------------------------

  lemma CompStepWrites(job: Job, l0: L.State, s: State, j: nat, a: CompAct)
    requires Shape(job, s) && KeysOk(job, l0, s) && Enabled(job, s, CompStep(j, a))
    ensures var c := s.comps[j];
            var d := NewComp(job, s, c, a);
            && d.leg == c.leg
            && !CompWritten(job, l0, c)
            && (CompWritten(job, l0, d) <==> a.SaveReversal?)
            && (d.pc == AtCompSave ==> ReversalKey(job.key, d.leg.sourceID) !in l0.entries)
  {
    assert CompOk(Succeeded(s.legs)[j], s.comps[j]);
    assert s.comps[j].leg.provider in s.providers;
    OwnCompensation(job, l0, s, j);
    assert ReversalKey(job.key, s.comps[j].leg.sourceID) in s.ledger.entries
      <==> ReversalKey(job.key, s.comps[j].leg.sourceID) in l0.entries || s.comps[j].leg.sourceID in CompensatedSources(job, l0, s.comps);
  }

  lemma CompStepKeys(job: Job, l0: L.State, s: State, j: nat, a: CompAct)
    requires Shape(job, s) && KeysOk(job, l0, s) && Enabled(job, s, CompStep(j, a))
    ensures KeysOk(job, l0, AfterComp(job, s, j, a))
  {
    var c := s.comps[j];
    var t := AfterComp(job, s, j, a);
    CompStepWrites(job, l0, s, j, a);
    CompensatedUpdate(job, l0, s.comps, j, NewComp(job, s, c, a));
    if a.SaveReversal? {
      var es := ReversalEntries(job, c.leg);
      forall src: UUID
        ensures ReversalKey(job.key, src) in t.ledger.entries
                <==> ReversalKey(job.key, src) in l0.entries || src in CompensatedSources(job, l0, t.comps)
        ensures SettleKey(job.key, src) in t.ledger.entries <==> SettleKey(job.key, src) in s.ledger.entries
      {
        SavedKeys(s.ledger, job.id, es, Reversal, job.key, c.leg.sourceID, Reversal, job.key, src);
        SavedKeys(s.ledger, job.id, es, Reversal, job.key, c.leg.sourceID, Settlement, job.key, src);
      }
    }
  }

  lemma CompStepList(job: Job, l0: L.State, s: State, j: nat, a: CompAct)
    requires Shape(job, s) && KeysOk(job, l0, s) && ListOk(job, l0, s) && Enabled(job, s, CompStep(j, a))
    ensures ListOk(job, l0, AfterComp(job, s, j, a))
  {
    var c := s.comps[j];
    var d := NewComp(job, s, c, a);
    var parts := CompParts(job, l0, s.comps);
    CompStepWrites(job, l0, s, j, a);
    CompPartsUpdate(job, l0, s.comps, j, d);
    if a.SaveReversal? {
      CompSaveList(job, l0, s, j, d);
    } else {
      assert CompPart(job, l0, d) == parts[j];
      assert parts[j := parts[j]] == parts;
    }
  }

  lemma CompSaveList(job: Job, l0: L.State, s: State, j: nat, d: Comp)
    requires ListOk(job, l0, s) && j < |s.comps|
    requires CompPart(job, l0, s.comps[j]) == [] && CompPart(job, l0, d) == ReversalEntries(job, d.leg)
    ensures multiset(L.Save(s.ledger, job.id, ReversalEntries(job, d.leg)).Of(job.id))
            == multiset(Settlements(job, l0, s.legs)) + multiset(Compensations(job, l0, s.comps[j := d]))
  {
    var es := ReversalEntries(job, d.leg);
    L.SavePair(s.ledger, job.id, es);
    CompPartsUpdate(job, l0, s.comps, j, d);
    ConcatFill(CompParts(job, l0, s.comps), j, es);
    assert L.Save(s.ledger, job.id, es).Of(job.id) == s.ledger.Of(job.id) + es;
  }

  // ---- other transactions -------------------------------------------------------------------

  /** Writes of other transactions under other keys leave this transaction's keys and entry list alone. */
  lemma OtherLedger(job: Job, l0: L.State, s: State, o: OtherAct)
    requires KeysOk(job, l0, s) && ListOk(job, l0, s) && Enabled(job, s, Other(o))
    ensures KeysOk(job, l0, AfterOther(s, o)) && ListOk(job, l0, AfterOther(s, o))
  {
    if o.OtherSave? {
      var es := OtherBatch(o);
      L.SavePair(s.ledger, o.tx, es);
      forall src: UUID
        ensures SettleKey(job.key, src) in AfterOther(s, o).ledger.entries <==> SettleKey(job.key, src) in s.ledger.entries
        ensures ReversalKey(job.key, src) in AfterOther(s, o).ledger.entries <==> ReversalKey(job.key, src) in s.ledger.entries
      {
        SavedKeys(s.ledger, o.tx, es, o.form, o.key, o.leg.sourceID, Settlement, job.key, src);
        SavedKeys(s.ledger, o.tx, es, o.form, o.key, o.leg.sourceID, Reversal, job.key, src);
      }
    }
  }

  lemma JoinLedger(job: Job, l0: L.State, s: State)
    requires Shape(job, s) && KeysOk(job, l0, s) && ListOk(job, l0, s) && Enabled(job, s, Join)
    ensures KeysOk(job, l0, AfterJoin(s)) && ListOk(job, l0, AfterJoin(s))
  {
    NoCompensationYet(job, l0, AfterJoin(s).comps);
    NoCompensationYet(job, l0, []);
  }

  lemma NextLedger(job: Job, cfg: B.Config, l0: L.State, s: State, step: Step)
    requires Shape(job, s) && KeysOk(job, l0, s) && ListOk(job, l0, s) && Enabled(job, s, step)
    ensures KeysOk(job, l0, Next(job, cfg, s, step)) && ListOk(job, l0, Next(job, cfg, s, step))
  {
    match step
    case LegStep(i, a) =>
      LegStepKeys(job, cfg, l0, s, i, a);
      LegStepList(job, cfg, l0, s, i, a);
    case CompStep(j, a) =>
      CompStepKeys(job, l0, s, j, a);
      CompStepList(job, l0, s, j, a);
    case Join => JoinLedger(job, l0, s);
    case Conclude =>
    case Other(o) => OtherLedger(job, l0, s, o);
  }

  // ---- the outbox -------------------------------------------------------------------------------

  predicate Announced(job: Job, l0: L.State, l: Leg) {
    SettleWritten(job, l0, l) && l.pc in {AtReport, Done}
  }

  ghost function EventsFor(job: Job, box: L.Outbox, src: UUID): set<UUID> {
    set id | id in box && box[id].txID == job.id && box[id].leg.sourceID == src
  }

  /** One event for each leg whose settlement was written, and no others for this transaction. */
  ghost predicate OutboxOk(job: Job, l0: L.State, s: State) {
    && (forall i :: 0 <= i < |s.legs| ==> EventOk(job, l0, s, i))
    && (forall id :: id in s.outbox && s.outbox[id].txID == job.id ==> exists i :: 0 <= i < |job.plan| && job.plan[i].sourceID == s.outbox[id].leg.sourceID)
  }

  ghost predicate EventOk(job: Job, l0: L.State, s: State, i: nat)
    requires i < |s.legs|
  {
    var ids := EventsFor(job, s.outbox, s.legs[i].leg.sourceID);
    && |ids| == (if Announced(job, l0, s.legs[i]) then 1 else 0)
    && forall id :: id in ids ==> s.outbox[id] == L.OutboxEvent(job.id, s.legs[i].leg, false)
  }

  lemma InitOutbox(job: Job, s: State)
    requires Init(job, s)
    ensures OutboxOk(job, s.ledger, s)
  {
    forall i | 0 <= i < |s.legs| ensures EventOk(job, s.ledger, s, i) {
      assert EventsFor(job, s.outbox, s.legs[i].leg.sourceID) == {};
    }
  }

  lemma LegStepOutbox(job: Job, cfg: B.Config, l0: L.State, s: State, i: nat, a: LegAct)
    requires Shape(job, s) && KeysOk(job, l0, s) && OutboxOk(job, l0, s) && Enabled(job, s, LegStep(i, a))
    ensures OutboxOk(job, l0, AfterLeg(job, cfg, s, i, a))
  {
    var t := AfterLeg(job, cfg, s, i, a);
    LegStepWrites(job, cfg, l0, s, i, a);
    assert LegOk(job.plan[i], s.legs[i]);
    LegSources(job, s.legs);
    forall k | 0 <= k < |t.legs| ensures EventOk(job, l0, t, k) {
      LegStepEvent(job, cfg, l0, s, i, a, k);
    }
  }

  /** How a leg step changes what that leg has announced. */
  lemma LegStepAnnounces(job: Job, cfg: B.Config, l0: L.State, s: State, i: nat, a: LegAct)
    requires Shape(job, s) && KeysOk(job, l0, s) && Enabled(job, s, LegStep(i, a))
    ensures var l := s.legs[i];
            var m := NewLeg(job, cfg, s, l, a);
            && (Announced(job, l0, m) <==> Announced(job, l0, l) || a.Enqueue?)
            && (Announced(job, l0, m) ==> m.leg == l.leg)
            && (a.Enqueue? ==> !Announced(job, l0, l))
  {
    LegStepWrites(job, cfg, l0, s, i, a);
    assert LegOk(job.plan[i], s.legs[i]);
  }

  lemma LegStepEvent(job: Job, cfg: B.Config, l0: L.State, s: State, i: nat, a: LegAct, k: nat)
    requires Shape(job, s) && KeysOk(job, l0, s) && OutboxOk(job, l0, s) && Enabled(job, s, LegStep(i, a)) && k < |s.legs|
    ensures EventOk(job, l0, AfterLeg(job, cfg, s, i, a), k)
  {
    var t := AfterLeg(job, cfg, s, i, a);
    var src := s.legs[k].leg.sourceID;
    assert EventOk(job, l0, s, k);
    assert t.legs[k].leg.sourceID == src by {
      LegStepWrites(job, cfg, l0, s, i, a);
    }
    var was, now := EventsFor(job, s.outbox, src), EventsFor(job, t.outbox, src);
    if a.Enqueue? {
      EnqueueEvent(job, l0, s, i, a, k);
    }
    if k == i {
      LegStepAnnounces(job, cfg, l0, s, i, a);
      if !Announced(job, l0, s.legs[k]) {
        assert was == {};
      }
    }
  }

  lemma EnqueueEvent(job: Job, l0: L.State, s: State, i: nat, a: LegAct, k: nat)
    requires DistinctSources(job.plan) && LegsOk(job, s.legs) && i < |s.legs| && k < |s.legs|
    requires a.Enqueue? && a.id !in s.outbox
    ensures var src := s.legs[k].leg.sourceID;
            EventsFor(job, NewOutbox(job, s, s.legs[i], a), src)
            == EventsFor(job, s.outbox, src) + (if k == i then {a.id} else {})
  {
    LegSources(job, s.legs);
    assert k != i ==> job.plan[i].sourceID != job.plan[k].sourceID;
  }

  lemma OtherOutbox(job: Job, l0: L.State, s: State, o: OtherAct)
    requires OutboxOk(job, l0, s) && Enabled(job, s, Other(o))
    ensures OutboxOk(job, l0, AfterOther(s, o))
  {
    var t := AfterOther(s, o);
    forall i | 0 <= i < |t.legs| ensures EventOk(job, l0, t, i) {
      assert EventOk(job, l0, s, i);
      assert EventsFor(job, t.outbox, s.legs[i].leg.sourceID) == EventsFor(job, s.outbox, s.legs[i].leg.sourceID);
    }
  }

  lemma NextOutbox(job: Job, cfg: B.Config, l0: L.State, s: State, step: Step)
    requires Shape(job, s) && KeysOk(job, l0, s) && OutboxOk(job, l0, s) && Enabled(job, s, step)
    ensures OutboxOk(job, l0, Next(job, cfg, s, step))
  {
    match step
    case LegStep(i, a) => LegStepOutbox(job, cfg, l0, s, i, a);
    case Other(o) => OtherOutbox(job, l0, s, o);
    case _ =>
      var t := Next(job, cfg, s, step);
      forall i | 0 <= i < |t.legs| ensures EventOk(job, l0, t, i) {
        assert EventOk(job, l0, s, i);
      }
  }

  // ---- every reachable state -----------------------------------------------------------------

  ghost predicate Inv(job: Job, l0: L.State, s: State) {
    Shape(job, s) && BankOk(s) && KeysOk(job, l0, s) && ListOk(job, l0, s) && OutboxOk(job, l0, s)
  }

  /** Every state of every run satisfies the invariant. */
  lemma {:induction false} InvHolds(job: Job, cfg: B.Config, s0: State, steps: seq<Step>)
    requires Init(job, s0) && Valid(job, cfg, s0, steps)
    ensures Inv(job, s0.ledger, Run(job, cfg, s0, steps))
  {
    if steps == [] {
      InitShape(job, s0);
      InitBank(job, s0);
      InitLedger(job, s0);
      InitOutbox(job, s0);
    } else {
      var before, step := steps[..|steps| - 1], steps[|steps| - 1];
      InvHolds(job, cfg, s0, before);
      var s := Run(job, cfg, s0, before);
      NextShape(job, cfg, s, step);
      NextBank(job, cfg, s, step);
      NextLedger(job, cfg, s0.ledger, s, step);
      NextOutbox(job, cfg, s0.ledger, s, step);
    }
  }
}
