/** Any number of service calls in progress at once, each reading the store at several moments and then executing one
    atomic transfer: conservation, no overdraft, replay of the audit log, and 64-bit range. */
module TransferRuns {
  import opened Common
  import opened Uuid
  import opened Accounts
  import opened Distribution
  import opened AccountService
  import opened StoreRefinement
  import opened Domain
  import M = MemoryStore
  import P = PostgresStore

  datatype Request =
    | OwnRequest(user: UUID, from: UUID, to: UUID, amount: int, key: string)
    | P2PRequest(user: UUID, from: UUID, amount: int, note: string, key: string)
    | DistributeRequest(user: UUID, amount: int, key: string)

  /** A call in progress, with the account tables it has read from so far. */
  datatype Call = Call(req: Request, seen: seq<Table>)

  datatype State = State(store: M.Store, calls: map<nat, Call>)

  /** What a call's reads leave open: the user a recipient query finds, and the order of a listing. */
  datatype Choice = Choice(recipient: Result<User, Error>, listed: seq<Account>)

  datatype Step =
    | Begin(c: nat, req: Request)
    | Read(c: nat)
    | Finish(c: nat, choice: Choice, g: Generated)

  function ReadsOf(req: Request): nat {
    if req.DistributeRequest? then 1 else 2
  }

  function OpOf(c: Call, choice: Choice): Result<TransferOp, Error>
    requires |c.seen| >= ReadsOf(c.req)
  {
    match c.req
    case OwnRequest(user, from, to, amount, key) =>
      OwnOp(user, from, to, amount, key, Lookup(c.seen[0], from), Lookup(c.seen[1], to))
    case P2PRequest(user, from, amount, note, key) =>
      P2POp(user, Lookup(c.seen[0], from), choice.recipient, choice.listed, amount, note, key)
    case DistributeRequest(user, amount, key) =>
      DistributeOp(user, choice.listed, amount, key)
  }

  ghost predicate Possible(c: Call, choice: Choice)
    requires |c.seen| >= ReadsOf(c.req)
  {
    match c.req
    case OwnRequest(_, _, _, _, _) => true
    case P2PRequest(user, _, _, _, _) => choice.recipient.Ok? ==> M.IsListing(c.seen[1], choice.recipient.value.id, choice.listed)
    case DistributeRequest(user, _, _) => M.IsListing(c.seen[0], user, choice.listed)
  }

  ghost predicate Enabled(s: State, step: Step) {
    match step
    case Begin(c, _) => c !in s.calls
    case Read(c) => c in s.calls
    case Finish(c, choice, _) => c in s.calls && |s.calls[c].seen| >= ReadsOf(s.calls[c].req) && Possible(s.calls[c], choice)
  }

  function Next(s: State, step: Step): State {
    match step
    case Begin(c, req) => s.(calls := s.calls[c := Call(req, [])])
    case Read(c) => if c in s.calls then s.(calls := s.calls[c := s.calls[c].(seen := s.calls[c].seen + [s.store.accounts])]) else s
    case Finish(c, choice, g) =>
      if c in s.calls && |s.calls[c].seen| >= ReadsOf(s.calls[c].req) then
        match OpOf(s.calls[c], choice)
        case Err(_) => s.(calls := s.calls - {c})
        case Ok(op) => State(M.Execute(s.store, op, g), s.calls - {c})
      else s
  }

  ghost predicate Valid(s0: State, steps: seq<Step>)
    decreases steps
  {
    steps == [] ||
    var before := steps[..|steps| - 1];
    Valid(s0, before) && Enabled(Run(s0, before), steps[|steps| - 1])
  }

  function Run(s0: State, steps: seq<Step>): State {
    if steps == [] then s0 else Next(Run(s0, steps[..|steps| - 1]), steps[|steps| - 1])
  }

  /** No call in progress, no transfers recorded, accounts under their own identifiers with the clearing account among them,
      and no account overdrawn. */
  ghost predicate Init(s: State) {
    && s.calls == map[] && s.store.transfers == []
    && KeyedById(s.store.accounts) && CLEARING in s.store.accounts && NoOverdraft(s.store.accounts)
  }

  // ---- what one record says --------------------------------------------------------

  function SplitOn(splits: seq<Split>, id: UUID): int {
    if splits == [] then 0
    else SplitOn(splits[..|splits| - 1], id) + (if splits[|splits| - 1].account == id then splits[|splits| - 1].amount else 0)
  }

  /** The movement of one account that a transfer record stands for. */
  function Effect(t: Transfer, id: UUID): int {
    if t.kind == Distribute then SplitOn(t.splits, id) - (if id == CLEARING then t.amount else 0)
    else (if t.to == Some(id) then t.amount else 0) - (if t.from == Some(id) then t.amount else 0)
  }

  /** Replaying the audit log: the movement of one account over a list of records. */
  function Replayed(ts: seq<Transfer>, id: UUID): int {
    if ts == [] then 0 else Replayed(ts[..|ts| - 1], id) + Effect(ts[|ts| - 1], id)
  }

  lemma {:induction false} SplitLegsMove(splits: seq<Split>, id: UUID)
    ensures Moved(SplitLegs(splits), id) == SplitOn(splits, id)
    ensures DeltaSum(SplitLegs(splits)) == SplitTotal(splits)
  {
    if splits != [] {
      SplitLegsMove(splits[..|splits| - 1], id);
      assert SplitLegs(splits)[..|splits| - 1] == SplitLegs(splits[..|splits| - 1]);
    }
  }

  lemma {:induction false} SpreadMoves(t: Table, op: TransferOp, g: Generated, id: UUID)
    requires ServiceOp(t, op) && op.kind == Distribute
    ensures Moved(op.legs, id) == Effect(TransferOf(op, g), id) && DeltaSum(op.legs) == 0
  {
    var head := [Leg(CLEARING, -op.amount)];
    MovedConcat(head, SplitLegs(op.splits), id);
    SplitLegsMove(op.splits, id);
    assert head[..0] == [];
  }

  /** The legs of a service operation are balanced and move what its record says. */
  lemma {:induction false} ServiceOpMoves(t: Table, op: TransferOp, g: Generated, id: UUID)
    requires ServiceOp(t, op)
    ensures Moved(op.legs, id) == Effect(TransferOf(op, g), id) && DeltaSum(op.legs) == 0
  {
    if op.kind == Distribute {
      SpreadMoves(t, op, g, id);
    } else {
      MovedPair(op.legs[0], op.legs[1], id);
    }
  }

  /** Service operations meet the conditions under which the two stores agree. */
  lemma ServiceOpLands(t: Table, op: TransferOp)
    requires ServiceOp(t, op)
    ensures DistinctLegs(op.legs) && CreditsLand(t, op.legs)
    ensures |op.legs| > 0 && op.legs[0].delta < 0 && forall i :: 1 <= i < |op.legs| ==> op.legs[i].delta > 0
  {
    if op.kind == Distribute {
      forall i | 1 <= i < |op.legs|
        ensures op.legs[i].delta > 0 && op.legs[i].account in t && t[op.legs[i].account].isActive && op.legs[i].account != CLEARING
      {
        assert op.legs[i] == SplitLegs(op.splits)[i - 1];
        assert Landing(t, op.splits[i - 1].account);
      }
      forall i, j | 0 <= i < j < |op.legs| ensures op.legs[i].account != op.legs[j].account {
        assert op.legs[j] == SplitLegs(op.splits)[j - 1];
        if i > 0 {
          assert op.legs[i] == SplitLegs(op.splits)[i - 1];
        }
      }
    }
  }

  /** On what the service emits the two stores give the same answer and reach the same balances, unless the database finds the
      generated reference taken. */
  lemma ServiceStoresAgree(s: M.Store, p: P.Tables, op: TransferOp, g: Generated)
    requires s.accounts == p.accounts && P.WellKeyed(p.entries) && P.FreshTx(p, g.txID)
    requires ServiceOp(s.accounts, op) && NoOverdraft(s.accounts)
    ensures P.Outcome(p, op, g) == M.Outcome(s.accounts, op)
            <==> M.Outcome(s.accounts, op).Some? || !P.HasReference(p.transfers, g.reference)
    ensures P.Outcome(p, op, g) == M.Outcome(s.accounts, op) ==> P.Execute(p, op, g).accounts == M.Execute(s, op, g).accounts
    ensures P.Outcome(p, op, g).Some? ==> P.Execute(p, op, g) == p
    ensures M.Outcome(s.accounts, op).Some? ==> M.Execute(s, op, g) == s
  {
    ServiceOpLands(s.accounts, op);
    SameEffect(s, p, op, g);
    StoresAgreeOnDistinctLegs(s, p, op, g);
  }

  /** The inputs on which the stores differ repeat an account; the service emits no such operation. */
  lemma RepeatedAccountsAreNotEmitted(t: Table, op: TransferOp)
    requires !DistinctLegs(op.legs)
    ensures !ServiceOp(t, op)
  {
    if ServiceOp(t, op) {
      ServiceOpLands(t, op);
    }
  }

  /** Over every run of operations the service emits, the database's transactions, transfer rows and outbox rows are in
      bijection. */
  lemma {:induction false} ServiceRowsInBijection(t: Table, p: P.Tables, calls: seq<P.Call>)
    requires P.Consistent(p) && P.AllPosted(p) && P.FreshCalls(p, calls)
    requires forall i :: 0 <= i < |calls| ==> ServiceOp(t, calls[i].op)
    ensures P.RowsMatch(P.Run(p, calls)) && P.AllPosted(P.Run(p, calls))
  {
    forall i | 0 <= i < |calls| ensures calls[i].op.legs != [] {
      ServiceOpLands(t, calls[i].op);
    }
    P.RowsInBijection(p, calls);
  }

  lemma {:induction false} ServiceAmounts(t: Table, op: TransferOp, es: seq<P.Entry>, tx: UUID)
    requires ServiceOp(t, op) && P.Records(es, op.legs, op.currency, tx)
    ensures |es| > 1 && P.SideTotal(Debit, es) == op.amount
    ensures forall i :: 0 <= i < |es| ==> es[i].amount > 0 && (es[i].kind == Debit <==> i == 0)
  {
    ServiceOpLands(t, op);
    ServiceOpHead(t, op);
    FirstIsDebit(es, |es|);
  }

  lemma ServiceOpHead(t: Table, op: TransferOp)
    requires ServiceOp(t, op)
    ensures |op.legs| > 1 && op.legs[0].delta == 0 - op.amount
  {
    if op.kind == Distribute {
      assert op.splits != [];
    }
  }

  lemma {:induction false} FirstIsDebit(es: seq<P.Entry>, n: nat)
    requires n <= |es| && forall i :: 0 <= i < |es| ==> (es[i].kind == Debit <==> i == 0)
    ensures P.SideTotal(Debit, es[..n]) == if n == 0 then 0 else es[0].amount
    ensures es[..|es|] == es
  {
    if n > 0 {
      FirstIsDebit(es, n - 1);
      assert es[..n][..n - 1] == es[..n - 1];
    }
  }

  /** Over every run of operations the service emits: each committed one is recorded by a single debit of its amount and by
      credits of positive amounts that add up to it. */
  lemma {:induction false} ServiceEntries(t: Table, p: P.Tables, calls: seq<P.Call>, i: nat)
    requires P.Consistent(p) && P.FreshCalls(p, calls) && i < |calls| && ServiceOp(t, calls[i].op)
    requires P.Outcome(P.Run(p, calls[..i]), calls[i].op, calls[i].g).None?
    ensures var es := P.OfTx(P.Run(p, calls).entries, calls[i].g.txID);
            && P.Records(es, calls[i].op.legs, calls[i].op.currency, calls[i].g.txID) && |es| > 1
            && (forall k :: 0 <= k < |es| ==> es[k].amount > 0 && (es[k].kind == Debit <==> k == 0))
            && P.SideTotal(Debit, es) == calls[i].op.amount == P.SideTotal(Credit, es)
  {
    P.LedgerRecordsTheLegs(p, calls, i);
    ServiceAmounts(t, calls[i].op, P.OfTx(P.Run(p, calls).entries, calls[i].g.txID), calls[i].g.txID);
  }

  // ---- effect of an accepted operation -------------------------------------------------

  lemma {:induction false} DebitCovered(t: Table, legs: seq<Leg>, i: nat)
    requires i < |legs| && legs[i].delta < 0 && M.FirstDebitError(t, legs).None?
    ensures M.DebitError(t, legs[i]).None?
  {
    if i < |legs| - 1 {
      DebitCovered(t, legs[..|legs| - 1], i);
    }
  }

  lemma AcceptedAccounts(t: Table, op: TransferOp)
    requires ServiceOp(t, op) && M.Outcome(t, op).None?
    ensures forall l :: l in op.legs ==> l.account in t
  {
    ServiceOpLands(t, op);
    DebitCovered(t, op.legs, 0);
    forall i | 0 <= i < |op.legs| ensures op.legs[i].account in t {
      if i > 0 {
        assert op.legs[i] in op.legs;
      }
    }
  }

  lemma {:induction false} MovedAlone(legs: seq<Leg>, i: nat)
    requires DistinctLegs(legs) && i < |legs|
    ensures Moved(legs, legs[i].account) == legs[i].delta
  {
    var n := |legs| - 1;
    if i < n {
      MovedAlone(legs[..n], i);
    } else {
      NotMoved(legs[..n], legs[n].account);
    }
  }

  /** An accepted service operation overdraws no account but clearing. */
  lemma {:induction false} AcceptedNoOverdraft(t: Table, op: TransferOp, now: int)
    requires ServiceOp(t, op) && M.Outcome(t, op).None? && NoOverdraft(t)
    ensures NoOverdraft(ApplyLegs(t, op.legs, now))
  {
    var u := ApplyLegs(t, op.legs, now);
    ServiceOpLands(t, op);
    AcceptedAccounts(t, op);
    AppliedHolders(t, op.legs, now);
    forall id | id in u && id != CLEARING ensures u[id].balance >= 0 {
      AppliedBalance(t, op.legs, now, id);
      if i :| 0 <= i < |op.legs| && op.legs[i].account == id {
        MovedAlone(op.legs, i);
        if i == 0 {
          DebitCovered(t, op.legs, 0);
        }
      } else {
        NotMoved(op.legs, id);
      }
    }
  }

  // ---- the invariant ----------------------------------------------------------------------

  ghost predicate SeenOk(t0: Table, s: State) {
    forall c, i :: c in s.calls && 0 <= i < |s.calls[c].seen| ==> SameAccounts(t0, s.calls[c].seen[i])
  }

  ghost predicate ReplayOk(t0: Table, s: State) {
    forall id :: BalanceOf(s.store.accounts, id) == BalanceOf(t0, id) + Replayed(s.store.transfers, id)
  }

  ghost predicate Inv(t0: Table, s: State) {
    && KeyedById(t0) && SameAccounts(t0, s.store.accounts) && SeenOk(t0, s)
    && NoOverdraft(s.store.accounts)
    && TotalOver(s.store.accounts, t0.Keys) == TotalOver(t0, t0.Keys)
    && ReplayOk(t0, s)
    && ClearingOk(t0, s)
  }

  /** Amounts taken from, and put into, the clearing account. */
  function Drawn(ts: seq<Transfer>): int {
    if ts == [] then 0
    else
      var t := ts[|ts| - 1];
      Drawn(ts[..|ts| - 1]) + (if t.kind == Distribute || t.from == Some(CLEARING) then t.amount else 0)
  }

  function Returned(ts: seq<Transfer>): int {
    if ts == [] then 0
    else
      var t := ts[|ts| - 1];
      Returned(ts[..|ts| - 1]) + (if t.kind != Distribute && t.to == Some(CLEARING) then t.amount else 0)
  }

  ghost predicate ClearingOk(t0: Table, s: State) {
    && BalanceOf(s.store.accounts, CLEARING) == BalanceOf(t0, CLEARING) - Drawn(s.store.transfers) + Returned(s.store.transfers)
    && Drawn(s.store.transfers) >= 0 && Returned(s.store.transfers) >= 0
  }

  lemma OpEmitted(t0: Table, s: State, c: nat, choice: Choice)
    requires KeyedById(t0) && SeenOk(t0, s)
    requires c in s.calls && |s.calls[c].seen| >= ReadsOf(s.calls[c].req) && Possible(s.calls[c], choice)
    requires OpOf(s.calls[c], choice).Ok?
    ensures ServiceOp(t0, OpOf(s.calls[c], choice).value)
  {
    var call := s.calls[c];
    assert SameAccounts(t0, call.seen[0]);
    match call.req
    case OwnRequest(user, from, to, amount, key) =>
      assert SameAccounts(t0, call.seen[1]);
      OwnEmits(t0, call.seen[0], call.seen[1], user, from, to, amount, key);
    case P2PRequest(user, from, amount, note, key) =>
      assert SameAccounts(t0, call.seen[1]);
      P2PEmits(t0, call.seen[0], call.seen[1], user, from, choice.recipient, choice.listed, amount, note, key);
    case DistributeRequest(user, amount, key) =>
      DistributeEmits(t0, call.seen[0], user, choice.listed, amount, key);
  }

  /** What was emitted for the accounts then is an operation on the same accounts now, whatever their balances have become. */
  lemma StillServiceOp(t: Table, u: Table, op: TransferOp)
    requires SameAccounts(t, u) && ServiceOp(t, op)
    ensures ServiceOp(u, op)
  {
    forall id | Landing(t, id) ensures Landing(u, id) {
      assert SameHolder(t[id], u[id]);
    }
    if op.kind == Distribute {
      forall i | 0 <= i < |op.splits|
        ensures op.splits[i].amount > 0 && op.splits[i].account != CLEARING && Landing(u, op.splits[i].account)
      {
        assert Landing(t, op.splits[i].account);
      }
    }
  }

  lemma {:induction false} SpreadAvoidsClearing(splits: seq<Split>)
    requires forall i :: 0 <= i < |splits| ==> splits[i].account != CLEARING
    ensures SplitOn(splits, CLEARING) == 0
  {
    if splits != [] {
      SpreadAvoidsClearing(splits[..|splits| - 1]);
    }
  }

  lemma {:induction false} ExecuteKeepsTables(t0: Table, s: State, op: TransferOp, g: Generated)
    requires Inv(t0, s) && ServiceOp(s.store.accounts, op) && M.Outcome(s.store.accounts, op).None?
    ensures var u := ApplyLegs(s.store.accounts, op.legs, g.now);
            && SameAccounts(t0, u) && NoOverdraft(u) && TotalOver(u, t0.Keys) == TotalOver(t0, t0.Keys)
  {
    var t := s.store.accounts;
    AcceptedAccounts(t, op);
    AppliedHolders(t, op.legs, g.now);
    AcceptedNoOverdraft(t, op, g.now);
    ServiceOpMoves(t, op, g, CLEARING);
    TotalApplied(t, op.legs, g.now, t0.Keys);
    var u := ApplyLegs(t, op.legs, g.now);
    forall id | id in t0 ensures SameHolder(t0[id], u[id]) {
      assert SameHolder(t0[id], t[id]) && SameHolder(t[id], u[id]);
    }
  }

  lemma {:induction false} ExecuteReplays(t0: Table, s: State, op: TransferOp, g: Generated, id: UUID)
    requires ReplayOk(t0, s) && ServiceOp(s.store.accounts, op)
    ensures BalanceOf(ApplyLegs(s.store.accounts, op.legs, g.now), id)
         == BalanceOf(t0, id) + Replayed(s.store.transfers + [TransferOf(op, g)], id)
  {
    var ts := s.store.transfers;
    assert (ts + [TransferOf(op, g)])[..|ts|] == ts;
    AppliedBalance(s.store.accounts, op.legs, g.now, id);
    ServiceOpMoves(s.store.accounts, op, g, id);
  }

  lemma {:induction false} ClearingNext(ts: seq<Transfer>, r: Transfer)
    requires r.amount >= 0 && (r.kind == Distribute ==> SplitOn(r.splits, CLEARING) == 0)
    ensures Returned(ts + [r]) - Drawn(ts + [r]) == Returned(ts) - Drawn(ts) + Effect(r, CLEARING)
    ensures Drawn(ts + [r]) >= Drawn(ts) && Returned(ts + [r]) >= Returned(ts)
  {
    assert (ts + [r])[..|ts|] == ts;
  }

  lemma ExecuteKeepsLog(t0: Table, s: State, op: TransferOp, g: Generated)
    requires Inv(t0, s) && ServiceOp(s.store.accounts, op) && M.Outcome(s.store.accounts, op).None?
    ensures var u := s.(store := M.Execute(s.store, op, g));
            ReplayOk(t0, u) && ClearingOk(t0, u)
  {
    var t, ts := s.store.accounts, s.store.transfers;
    forall id ensures BalanceOf(ApplyLegs(t, op.legs, g.now), id)
                   == BalanceOf(t0, id) + Replayed(ts + [TransferOf(op, g)], id) {
      ExecuteReplays(t0, s, op, g, id);
    }
    if op.kind == Distribute {
      SpreadAvoidsClearing(op.splits);
    }
    AppliedBalance(t, op.legs, g.now, CLEARING);
    ServiceOpMoves(t, op, g, CLEARING);
    ClearingNext(ts, TransferOf(op, g));
  }

  lemma FinishKeeps(t0: Table, s: State, c: nat, choice: Choice, g: Generated)
    requires Inv(t0, s) && Enabled(s, Finish(c, choice, g))
    ensures Inv(t0, Next(s, Finish(c, choice, g)))
  {
    var r := OpOf(s.calls[c], choice);
    if r.Ok? {
      OpEmitted(t0, s, c, choice);
      StillServiceOp(t0, s.store.accounts, r.value);
      if M.Outcome(s.store.accounts, r.value).None? {
        ExecuteKeepsTables(t0, s, r.value, g);
        ExecuteKeepsLog(t0, s, r.value, g);
      }
    }
  }

  lemma NextKeeps(t0: Table, s: State, step: Step)
    requires Inv(t0, s) && Enabled(s, step)
    ensures Inv(t0, Next(s, step))
  {
    match step
    case Begin(c, req) =>
    case Read(c) =>
    case Finish(c, choice, g) => FinishKeeps(t0, s, c, choice, g);
  }

  lemma {:induction false} InvHolds(s0: State, steps: seq<Step>)
    requires Init(s0) && Valid(s0, steps)
    ensures Inv(s0.store.accounts, Run(s0, steps))
  {
    if steps != [] {
      var before := steps[..|steps| - 1];
      InvHolds(s0, before);
      NextKeeps(s0.store.accounts, Run(s0, before), steps[|steps| - 1]);
    }
  }

  // ---- main results -------------------------------------------------------------------------

  /** Whatever calls interleave, money is conserved, no account but clearing is ever overdrawn, and accounts keep their holders. */
  lemma {:induction false} MoneyIsConserved(s0: State, steps: seq<Step>)
    requires Init(s0) && Valid(s0, steps)
    ensures var t0 := s0.store.accounts;
            var t := Run(s0, steps).store.accounts;
            TotalOver(t, t.Keys) == TotalOver(t0, t0.Keys) && NoOverdraft(t) && SameAccounts(t0, t)
  {
    InvHolds(s0, steps);
  }

  /** Replaying the stored records from the initial balances gives exactly the current balances. */
  lemma {:induction false} AuditLogReplays(s0: State, steps: seq<Step>, id: UUID)
    requires Init(s0) && Valid(s0, steps)
    ensures var s := Run(s0, steps);
            BalanceOf(s.store.accounts, id) == BalanceOf(s0.store.accounts, id) + Replayed(s.store.transfers, id)
  {
    InvHolds(s0, steps);
  }

  lemma FinishDraws(t0: Table, s: State, c: nat, choice: Choice, g: Generated)
    requires Inv(t0, s) && Enabled(s, Finish(c, choice, g))
    ensures Drawn(Next(s, Finish(c, choice, g)).store.transfers) >= Drawn(s.store.transfers)
  {
    var r := OpOf(s.calls[c], choice);
    if r.Ok? {
      OpEmitted(t0, s, c, choice);
      var ts, record := s.store.transfers, TransferOf(r.value, g);
      assert (ts + [record])[..|ts|] == ts;
    }
  }

  lemma NextDraws(t0: Table, s: State, step: Step)
    requires Inv(t0, s) && Enabled(s, step)
    ensures Drawn(Next(s, step).store.transfers) >= Drawn(s.store.transfers)
  {
    match step
    case Begin(c, req) =>
    case Read(c) =>
    case Finish(c, choice, g) => FinishDraws(t0, s, c, choice, g);
  }

  /** Every prefix of a run is a run, and what has been drawn from clearing only grows. */
  lemma {:induction false} DrawnGrows(s0: State, steps: seq<Step>, k: nat)
    requires Init(s0) && Valid(s0, steps) && k <= |steps|
    ensures Valid(s0, steps[..k])
    ensures Drawn(Run(s0, steps[..k]).store.transfers) <= Drawn(Run(s0, steps).store.transfers)
    decreases |steps|
  {
    if k == |steps| {
      assert steps[..k] == steps;
    } else {
      var before := steps[..|steps| - 1];
      DrawnGrows(s0, before, k);
      assert before[..k] == steps[..k];
      InvHolds(s0, before);
      NextDraws(s0.store.accounts, Run(s0, before), steps[|steps| - 1]);
    }
  }

  /** Room for everything drawn from clearing on top of the initial balances. */
  ghost predicate RoomFor(t0: Table, drawn: int) {
    && TotalOver(t0, t0.Keys - {CLEARING}) + drawn <= MAX_INT64
    && TotalOver(t0, t0.Keys) <= MAX_INT64
    && BalanceOf(t0, CLEARING) - drawn >= MIN_INT64
  }

  lemma {:induction false} BalanceInRange(s0: State, steps: seq<Step>, id: UUID)
    requires Init(s0) && Valid(s0, steps)
    requires RoomFor(s0.store.accounts, Drawn(Run(s0, steps).store.transfers))
    ensures FitsInt64(BalanceOf(Run(s0, steps).store.accounts, id))
  {
    InvHolds(s0, steps);
    var t0, s := s0.store.accounts, Run(s0, steps);
    var t := s.store.accounts;
    var others := t0.Keys - {CLEARING};
    TotalPick(t0, t0.Keys, CLEARING);
    TotalPick(t, t0.Keys, CLEARING);
    TotalBounds(t, others, id);
    if id != CLEARING && id in t {
      assert id in others;
    }
  }

  /** No balance leaves the 64-bit range at any point of a run, while the initial total plus all amounts drawn from clearing
      over the whole run fits in it. */
  lemma {:induction false} BalancesStayInRange(s0: State, steps: seq<Step>, k: nat, id: UUID)
    requires Init(s0) && Valid(s0, steps) && k <= |steps|
    requires RoomFor(s0.store.accounts, Drawn(Run(s0, steps).store.transfers))
    ensures FitsInt64(BalanceOf(Run(s0, steps[..k]).store.accounts, id))
  {
    DrawnGrows(s0, steps, k);
    BalanceInRange(s0, steps[..k], id);
  }
}
