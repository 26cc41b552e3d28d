/** The concurrent run of one payment: a step system over the goroutines of the executor and of the rollback handler.
    Each mutex-protected call is one atomic step; the scheduler, the bank and other transactions are arbitrary. */
module Saga {
  import opened Common
  import opened Uuid
  import opened Domain
  import opened IdempotencyKeys
  import L = Ledger
  import B = CircuitBreaker

  /** One call of Execute: the transaction's identifier, its client-chosen key and its plan. */
  datatype Job = Job(id: UUID, key: string, plan: seq<SplitLeg>)

  // ---- one leg --------------------------------------------------------------

  datatype LegPc = AtBreaker | AtProvider | AtAccountRef | AtBank | AtCheck | AtSave | AtOutbox | AtReport | Done

  /** A leg goroutine: where it is, its copy of the leg, and the error it will return. */
  datatype Leg = Leg(pc: LegPc, leg: SplitLeg, err: Option<Fault>)

  datatype LegAct =
    | AskBreaker(now: int)
    | FindProvider
    | FindAccountRef
    | Initiate(reply: Result<string, string>)
    | CheckLedger
    | SaveBatch
    | Enqueue(id: UUID)
    | ReportResult(now: int, latency: int)

  function PcOf(a: LegAct): LegPc {
    match a
    case AskBreaker(_) => AtBreaker
    case FindProvider => AtProvider
    case FindAccountRef => AtAccountRef
    case Initiate(_) => AtBank
    case CheckLedger => AtCheck
    case SaveBatch => AtSave
    case Enqueue(_) => AtOutbox
    case ReportResult(_, _) => AtReport
  }

  function SettledLeg(p: SplitLeg, ref: string): SplitLeg {
    p.(externalRef := ref, status := Settled)
  }

  function FailedLeg(p: SplitLeg, f: Fault): SplitLeg {
    p.(status := SplitStatus.Failed, error := Some(f))
  }

  function Stop(l: Leg, f: Fault, pc: LegPc): Leg {
    Leg(pc, FailedLeg(l.leg, f), Some(f))
  }

  // ---- one compensation ---------------------------------------------------------

  datatype CompPc = AtResolve | AtReverse | AtCompCheck | AtCompSave | CompDone

  datatype CompFault = Unresolved(provider: string) | NotReversed(provider: string, message: string)

  datatype Comp = Comp(pc: CompPc, leg: SplitLeg, err: Option<CompFault>)

  /** The bank's answer to a reversal is None when it accepts. */
  datatype CompAct = Resolve | Reverse(reply: Option<string>) | CheckReversal | SaveReversal

  function CompPcOf(a: CompAct): CompPc {
    match a
    case Resolve => AtResolve
    case Reverse(_) => AtReverse
    case CheckReversal => AtCompCheck
    case SaveReversal => AtCompSave
  }

  // ---- the whole ---------------------------------------------------------------

  datatype Status = Initiated | Planning | Authorizing | Approved | RollingBack | RolledBack | Failed

  datatype ExecError =
    | LegFailed(fault: Fault)
    | CompensationFailed(failures: seq<(UUID, CompFault)>, attempted: nat)

  /** `paid` and `reversed` are the sources whose payment, respectively reversal, the banks have carried out. */
  datatype State = State(
    status: Status,
    plan: seq<SplitLeg>,
    legs: seq<Leg>,
    comps: seq<Comp>,
    error: Option<ExecError>,
    ledger: L.State,
    outbox: L.Outbox,
    breaker: B.State,
    providers: set<string>,
    refs: set<UUID>,
    paid: set<UUID>,
    reversed: set<UUID>)

  /** What the rest of the program may do meanwhile: other transactions, under other keys, write to the same
      ledger, outbox and breaker, and providers and account references get registered. */
  datatype OtherAct =
    | OtherSave(tx: UUID, form: Form, key: string, leg: SplitLeg)
    | OtherEvent(id: UUID, event: L.OutboxEvent)
    | OtherBreaker(breaker: B.State)
    | RegisterProvider(name: string)
    | RegisterAccountRef(source: UUID)

  datatype Step =
    | LegStep(i: nat, a: LegAct)
    | Join
    | CompStep(j: nat, c: CompAct)
    | Conclude
    | Other(o: OtherAct)

  predicate Final(st: Status) {
    st == Approved || st == RolledBack || st == Status.Failed
  }

  // ---- effects of a leg step ----------------------------------------------------

  function NewLeg(job: Job, cfg: B.Config, s: State, l: Leg, a: LegAct): Leg {
    match a
    case AskBreaker(now) =>
      if B.Allows(cfg, s.breaker, l.leg.provider, now) then l.(pc := AtProvider)
      else Stop(l, CircuitOpen(l.leg.provider), Done)
    case FindProvider =>
      if l.leg.provider in s.providers then l.(pc := AtAccountRef)
      else Stop(l, NoConnection(l.leg.provider), Done)
    case FindAccountRef =>
      if l.leg.sourceID in s.refs then l.(pc := AtBank)
      else Stop(l, NoAccountRef(l.leg.sourceID), Done)
    case Initiate(Ok(ref)) => Leg(AtCheck, SettledLeg(l.leg, ref), l.err)
    case Initiate(Err(message)) => Stop(l, BankError(message), AtReport)
    case CheckLedger =>
      if SettleKey(job.key, l.leg.sourceID) in s.ledger.entries then l.(pc := AtReport) else l.(pc := AtSave)
    case SaveBatch => l.(pc := AtOutbox)
    case Enqueue(_) => l.(pc := AtReport)
    case ReportResult(_, _) => l.(pc := Done)
  }

  function SettleEntries(job: Job, leg: SplitLeg): seq<LedgerEntry> {
    L.SettlementBatch(job.id, leg, SettleKey(job.key, leg.sourceID))
  }

  function ReversalEntries(job: Job, leg: SplitLeg): seq<LedgerEntry> {
    L.CompensationBatch(job.id, leg, ReversalKey(job.key, leg.sourceID))
  }

  function NewLedger(job: Job, s: State, l: Leg, a: LegAct): L.State {
    if a.SaveBatch? then L.Save(s.ledger, job.id, SettleEntries(job, l.leg)) else s.ledger
  }

  function NewOutbox(job: Job, s: State, l: Leg, a: LegAct): L.Outbox {
    if a.Enqueue? then s.outbox[a.id := L.OutboxEvent(job.id, l.leg, false)] else s.outbox
  }

  function NewBreaker(cfg: B.Config, s: State, l: Leg, a: LegAct): B.State {
    match a
    case AskBreaker(now) => B.AfterAllow(cfg, s.breaker, l.leg.provider, now)
    case ReportResult(now, latency) => B.AfterResult(cfg, s.breaker, l.leg.provider, l.err.Some?, latency, now)
    case _ => s.breaker
  }

  function NewPaid(s: State, l: Leg, a: LegAct): set<UUID> {
    if a.Initiate? && a.reply.Ok? then s.paid + {l.leg.sourceID} else s.paid
  }

  function AfterLeg(job: Job, cfg: B.Config, s: State, i: nat, a: LegAct): State
    requires i < |s.legs|
  {
    var l := s.legs[i];
    s.(legs := s.legs[i := NewLeg(job, cfg, s, l, a)],
       ledger := NewLedger(job, s, l, a),
       outbox := NewOutbox(job, s, l, a),
       breaker := NewBreaker(cfg, s, l, a),
       paid := NewPaid(s, l, a))
  }

  // ---- effects of a compensation step ---------------------------------------------

  function NewComp(job: Job, s: State, c: Comp, a: CompAct): Comp {
    match a
    case Resolve =>
      if c.leg.provider in s.providers then c.(pc := AtReverse)
      else Comp(CompDone, c.leg, Some(Unresolved(c.leg.provider)))
    case Reverse(None) => c.(pc := AtCompCheck)
    case Reverse(Some(message)) => Comp(AtCompCheck, c.leg, Some(NotReversed(c.leg.provider, message)))
    case CheckReversal =>
      if ReversalKey(job.key, c.leg.sourceID) in s.ledger.entries then c.(pc := CompDone) else c.(pc := AtCompSave)
    case SaveReversal => c.(pc := CompDone)
  }

  function AfterComp(job: Job, s: State, j: nat, a: CompAct): State
    requires j < |s.comps|
  {
    var c := s.comps[j];
    s.(comps := s.comps[j := NewComp(job, s, c, a)],
       ledger := if a.SaveReversal? then L.Save(s.ledger, job.id, ReversalEntries(job, c.leg)) else s.ledger,
       reversed := if a == Reverse(None) then s.reversed + {c.leg.sourceID} else s.reversed)
  }

  // ---- join and conclusion ----------------------------------------------------------

  function LegsOf(ls: seq<Leg>): (plan: seq<SplitLeg>)
    ensures |plan| == |ls| && forall i :: 0 <= i < |ls| ==> plan[i] == ls[i].leg
  {
    seq(|ls|, i requires 0 <= i < |ls| => ls[i].leg)
  }

  /** The legs without an error, in plan order. */
  function Succeeded(ls: seq<Leg>): seq<SplitLeg> {
    if ls == [] then []
    else Succeeded(ls[..|ls| - 1]) + (if ls[|ls| - 1].err.None? then [ls[|ls| - 1].leg] else [])
  }

  /** The error of the first failed leg in plan order. */
  function FirstFault(ls: seq<Leg>): Option<Fault> {
    if ls == [] then None else if ls[0].err.Some? then ls[0].err else FirstFault(ls[1..])
  }

  function Failures(cs: seq<Comp>): seq<(UUID, CompFault)> {
    if cs == [] then []
    else Failures(cs[..|cs| - 1]) + (if cs[|cs| - 1].err.Some? then [(cs[|cs| - 1].leg.sourceID, cs[|cs| - 1].err.value)] else [])
  }

  function AfterJoin(s: State): State {
    var t := s.(plan := LegsOf(s.legs));
    if FirstFault(s.legs).None? then t.(status := Approved)
    else
      var todo := Succeeded(s.legs);
      t.(status := RollingBack, comps := seq(|todo|, j requires 0 <= j < |todo| => Comp(AtResolve, todo[j], None)))
  }

  function AfterConclude(s: State): State {
    var failures := Failures(s.comps);
    if failures != [] then s.(status := Status.Failed, error := Some(CompensationFailed(failures, |s.comps|)))
    else
      match FirstFault(s.legs)
      case Some(f) => s.(status := RolledBack, error := Some(LegFailed(f)))
      case None => s.(status := RolledBack)
  }

  function OtherBatch(o: OtherAct): seq<LedgerEntry>
    requires o.OtherSave?
  {
    var key := Key(o.form, o.key, o.leg.sourceID);
    if o.form == Settlement then L.SettlementBatch(o.tx, o.leg, key) else L.CompensationBatch(o.tx, o.leg, key)
  }

  function AfterOther(s: State, o: OtherAct): State {
    match o
    case OtherSave(tx, _, _, _) => s.(ledger := L.Save(s.ledger, tx, OtherBatch(o)))
    case OtherEvent(id, event) => s.(outbox := s.outbox[id := event])
    case OtherBreaker(breaker) => s.(breaker := breaker)
    case RegisterProvider(name) => s.(providers := s.providers + {name})
    case RegisterAccountRef(source) => s.(refs := s.refs + {source})
  }

  // ---- runs ---------------------------------------------------------------------------

  predicate Enabled(job: Job, s: State, step: Step) {
    match step
    case LegStep(i, a) =>
      && s.status == Authorizing && i < |s.legs| && s.legs[i].pc == PcOf(a)
      && (a.Enqueue? ==> a.id !in s.outbox)
    case Join => s.status == Authorizing && forall i :: 0 <= i < |s.legs| ==> s.legs[i].pc == Done
    case CompStep(j, a) => s.status == RollingBack && j < |s.comps| && s.comps[j].pc == CompPcOf(a)
    case Conclude => s.status == RollingBack && forall j :: 0 <= j < |s.comps| ==> s.comps[j].pc == CompDone
    case Other(OtherSave(tx, form, key, _)) => tx != job.id && key != job.key && form in {Settlement, Reversal}
    case Other(OtherEvent(id, event)) => id !in s.outbox && event.txID != job.id
    case Other(_) => true
  }

  function Next(job: Job, cfg: B.Config, s: State, step: Step): State
    requires Enabled(job, s, step)
  {
    match step
    case LegStep(i, a) => AfterLeg(job, cfg, s, i, a)
    case Join => AfterJoin(s)
    case CompStep(j, a) => AfterComp(job, s, j, a)
    case Conclude => AfterConclude(s)
    case Other(o) => AfterOther(s, o)
  }

  /** Steps of an execution, each enabled where it is taken. */
  predicate Valid(job: Job, cfg: B.Config, s0: State, steps: seq<Step>)
    decreases steps, 0
  {
    steps == [] ||
    var before := steps[..|steps| - 1];
    Valid(job, cfg, s0, before) && Enabled(job, Run(job, cfg, s0, before), steps[|steps| - 1])
  }

  function Run(job: Job, cfg: B.Config, s0: State, steps: seq<Step>): State
    requires Valid(job, cfg, s0, steps)
    decreases steps, 1
  {
    if steps == [] then s0
    else Next(job, cfg, Run(job, cfg, s0, steps[..|steps| - 1]), steps[|steps| - 1])
  }

  // ---- start ----------------------------------------------------------------------------

  predicate DistinctSources(plan: seq<SplitLeg>) {
    forall i, j :: 0 <= i < j < |plan| ==> plan[i].sourceID != plan[j].sourceID
  }

  /** The state in which the goroutines start: a freshly generated transaction identifier, an otherwise arbitrary world. */
  predicate Init(job: Job, s: State) {
    && DistinctSources(job.plan)
    && s.status == Authorizing && s.plan == job.plan && s.comps == [] && s.error == None
    && s.legs == seq(|job.plan|, i requires 0 <= i < |job.plan| => Leg(AtBreaker, job.plan[i], None))
    && s.paid == {} && s.reversed == {}
    && s.ledger.Of(job.id) == []
    && forall id :: id in s.outbox ==> s.outbox[id].txID != job.id
  }
}
