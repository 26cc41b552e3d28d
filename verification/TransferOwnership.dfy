/** Whose money moves: over every interleaving, calls debit only the requesting user's accounts, or clearing in a distribution,
    and credit only the accounts the request is meant for. */
module TransferOwnership {
  import opened Common
  import opened Uuid
  import opened Accounts
  import opened Distribution
  import opened AccountService
  import opened StoreRefinement
  import opened TransferRuns
  import M = MemoryStore

  ghost predicate Owns(t: Table, user: UUID, id: UUID) {
    id in t && t[id].userID == user
  }

  /** From `t` to `u` exactly this amount has moved between these two accounts. */
  ghost predicate Paid(t: Table, u: Table, from: UUID, to: UUID, amount: int) {
    && amount > 0 && from != to
    && forall id :: BalanceOf(u, id) == BalanceOf(t, id) + (if id == to then amount else if id == from then -amount else 0)
  }

  /** From `t` to `u` clearing has given up this amount, and only accounts of the user have gained. */
  ghost predicate PaidOut(t0: Table, t: Table, u: Table, user: UUID, amount: int) {
    && amount > 0
    && BalanceOf(u, CLEARING) == BalanceOf(t, CLEARING) - amount
    && forall id :: id != CLEARING ==> BalanceOf(u, id) >= BalanceOf(t, id) && (BalanceOf(u, id) > BalanceOf(t, id) ==> Owns(t0, user, id))
  }

  /** What a request may do to the balances. */
  ghost predicate Rightful(t0: Table, t: Table, u: Table, req: Request, recipient: Result<User, Error>) {
    match req
    case OwnRequest(user, from, to, amount, _) => Owns(t0, user, from) && Owns(t0, user, to) && Paid(t, u, from, to, amount)
    case P2PRequest(user, from, amount, _, _) =>
      && Owns(t0, user, from) && recipient.Ok? && recipient.value.id != user
      && exists to :: Owns(t0, recipient.value.id, to) && Paid(t, u, from, to, amount)
    case DistributeRequest(user, amount, _) => PaidOut(t0, t, u, user, amount)
  }

  lemma {:induction false} PairPays(t: Table, legs: seq<Leg>, now: int, from: UUID, to: UUID, amount: int)
    requires legs == [Leg(from, -amount), Leg(to, amount)] && from != to && amount > 0
    ensures Paid(t, ApplyLegs(t, legs, now), from, to, amount)
  {
    forall id ensures BalanceOf(ApplyLegs(t, legs, now), id) == BalanceOf(t, id) + (if id == to then amount else if id == from then -amount else 0) {
      AppliedBalance(t, legs, now, id);
      MovedPair(legs[0], legs[1], id);
    }
  }

  lemma {:induction false} SplitOnBounds(splits: seq<Split>, id: UUID)
    requires forall i :: 0 <= i < |splits| ==> splits[i].amount > 0
    ensures SplitOn(splits, id) >= 0
    ensures SplitOn(splits, id) > 0 ==> exists i :: 0 <= i < |splits| && splits[i].account == id
  {
    if splits != [] {
      SplitOnBounds(splits[..|splits| - 1], id);
    }
  }

  lemma {:induction false} OwnIsRightful(t0: Table, seen: Table, later: Table, t: Table, user: UUID, from: UUID, to: UUID, amount: int, key: string, now: int)
    requires KeyedById(t0) && SameAccounts(t0, seen) && SameAccounts(t0, later)
    requires OwnOp(user, from, to, amount, key, Lookup(seen, from), Lookup(later, to)).Ok?
    ensures Owns(t0, user, from) && Owns(t0, user, to)
    ensures Paid(t, ApplyLegs(t, OwnOp(user, from, to, amount, key, Lookup(seen, from), Lookup(later, to)).value.legs, now), from, to, amount)
  {
    OwnAnswers(user, from, to, amount, key, Lookup(seen, from), Lookup(later, to));
    assert SameHolder(t0[from], seen[from]) && SameHolder(t0[to], later[to]);
    PairPays(t, OwnOp(user, from, to, amount, key, Lookup(seen, from), Lookup(later, to)).value.legs, now, from, to, amount);
  }

  lemma P2PIsRightful(t0: Table, seen: Table, later: Table, t: Table, user: UUID, from: UUID, recipient: Result<User, Error>, listed: seq<Account>,
                      amount: int, note: string, key: string, now: int) returns (to: UUID)
    requires KeyedById(t0) && SameAccounts(t0, seen) && SameAccounts(t0, later)
    requires recipient.Ok? ==> M.IsListing(later, recipient.value.id, listed)
    requires P2POp(user, Lookup(seen, from), recipient, listed, amount, note, key).Ok?
    ensures Owns(t0, user, from) && recipient.Ok? && recipient.value.id != user && Owns(t0, recipient.value.id, to)
    ensures Paid(t, ApplyLegs(t, P2POp(user, Lookup(seen, from), recipient, listed, amount, note, key).value.legs, now), from, to, amount)
  {
    var op := P2POp(user, Lookup(seen, from), recipient, listed, amount, note, key).value;
    P2PAnswers(user, Lookup(seen, from), recipient, listed, amount, note, key);
    ListedAccounts(t0, later, recipient.value.id, listed);
    assert SameHolder(t0[from], seen[from]);
    to := op.to.value;
    PairPays(t, op.legs, now, from, to, amount);
  }

  lemma ShareIsOwned(t0: Table, seen: Table, user: UUID, listed: seq<Account>, amount: int, splits: seq<Split>, i: nat)
    requires KeyedById(t0) && SameAccounts(t0, seen) && M.IsListing(seen, user, listed)
    requires amount > 0 && Distributed(listed, amount) == Ok(splits) && i < |splits|
    ensures Owns(t0, user, splits[i].account)
  {
    ListedAccounts(t0, seen, user, listed);
    DistributionIsExact(listed, amount);
    assert Recipients(listed)[i] in listed;
  }

  lemma {:induction false} DistributeIsRightful(t0: Table, seen: Table, t: Table, user: UUID, listed: seq<Account>, amount: int, key: string, g: Generated)
    requires KeyedById(t0) && SameAccounts(t0, seen) && SameAccounts(t0, t) && M.IsListing(seen, user, listed)
    requires DistributeOp(user, listed, amount, key).Ok?
    ensures PaidOut(t0, t, ApplyLegs(t, DistributeOp(user, listed, amount, key).value.legs, g.now), user, amount)
  {
    var op := DistributeOp(user, listed, amount, key).value;
    DistributeAnswers(user, listed, amount, key);
    DistributeEmits(t0, seen, user, listed, amount, key);
    SpreadAvoidsClearing(op.splits);
    var u := ApplyLegs(t, op.legs, g.now);
    forall id ensures BalanceOf(u, id) == BalanceOf(t, id) + SplitOn(op.splits, id) - (if id == CLEARING then amount else 0) {
      AppliedBalance(t, op.legs, g.now, id);
      ServiceOpMoves(t0, op, g, id);
    }
    forall id | id != CLEARING ensures BalanceOf(u, id) >= BalanceOf(t, id) && (BalanceOf(u, id) > BalanceOf(t, id) ==> Owns(t0, user, id)) {
      SplitOnBounds(op.splits, id);
      if i: nat :| 0 <= i < |op.splits| && op.splits[i].account == id {
        ShareIsOwned(t0, seen, user, listed, amount, op.splits, i);
      }
    }
  }

  lemma FinishIsRightful(t0: Table, s: State, c: nat, choice: Choice, g: Generated)
    requires Inv(t0, s) && Enabled(s, Finish(c, choice, g)) && OpOf(s.calls[c], choice).Ok?
    ensures Rightful(t0, s.store.accounts, ApplyLegs(s.store.accounts, OpOf(s.calls[c], choice).value.legs, g.now), s.calls[c].req, choice.recipient)
  {
    var call, t := s.calls[c], s.store.accounts;
    assert SameAccounts(t0, call.seen[0]);
    match call.req
    case OwnRequest(user, from, to, amount, key) =>
      assert SameAccounts(t0, call.seen[1]);
      OwnIsRightful(t0, call.seen[0], call.seen[1], t, user, from, to, amount, key, g.now);
    case P2PRequest(user, from, amount, note, key) =>
      assert SameAccounts(t0, call.seen[1]);
      var to := P2PIsRightful(t0, call.seen[0], call.seen[1], t, user, from, choice.recipient, choice.listed, amount, note, key, g.now);
    case DistributeRequest(user, amount, key) =>
      DistributeIsRightful(t0, call.seen[0], t, user, choice.listed, amount, key, g);
  }

  lemma NextIsRightful(t0: Table, s: State, step: Step)
    requires Inv(t0, s) && Enabled(s, step)
    ensures var t := Next(s, step);
            t.store == s.store
            || (step.Finish? && step.c in s.calls
                && Rightful(t0, s.store.accounts, t.store.accounts, s.calls[step.c].req, step.choice.recipient))
  {
    if step.Finish? && OpOf(s.calls[step.c], step.choice).Ok? {
      FinishIsRightful(t0, s, step.c, step.choice, step.g);
    }
  }

  /** At any point of any run, a step leaves the store as it is, or ends a call and moves what that call's request says, out of
      accounts of the requesting user, or out of clearing for a distribution, and into accounts of the user or of the recipient. */
  lemma EveryStepIsRightful(s0: State, steps: seq<Step>, k: nat)
    requires Init(s0) && Valid(s0, steps) && k < |steps|
    ensures var s, t, step := Run(s0, steps[..k]), Run(s0, steps[..k + 1]), steps[k];
            t.store == s.store
            || (step.Finish? && step.c in s.calls
                && Rightful(s0.store.accounts, s.store.accounts, t.store.accounts, s.calls[step.c].req, step.choice.recipient))
  {
    DrawnGrows(s0, steps, k + 1);
    var now := steps[..k + 1];
    assert now[..|now| - 1] == steps[..k] && now[|now| - 1] == steps[k];
    InvHolds(s0, steps[..k]);
    NextIsRightful(s0.store.accounts, Run(s0, steps[..k]), steps[k]);
  }

  // ---- the record -----------------------------------------------------------------

  /** The record of a request: the fields it asked for, and what was generated. */
  ghost predicate RecordOf(r: Transfer, req: Request, recipient: Result<User, Error>, g: Generated) {
    && r.id == g.id && r.txID == g.txID && r.reference == g.reference && r.createdAt == g.now
    && r.userID == req.user && r.amount == req.amount
    && match req
       case OwnRequest(_, from, to, _, _) =>
         r.kind == Own && r.from == Some(from) && r.to == Some(to) && r.counterparty == "" && r.note == "" && r.splits == []
       case P2PRequest(_, from, _, note, _) =>
         r.kind == P2P && r.from == Some(from) && r.to.Some? && recipient.Ok? && r.counterparty == recipient.value.fullName && r.note == note && r.splits == []
       case DistributeRequest(_, _, _) =>
         r.kind == Distribute && r.from == None && r.to == None && r.counterparty == "" && r.note == "" && r.currency == "SAR"
  }

  lemma FinishIsRecorded(t0: Table, s: State, c: nat, choice: Choice, g: Generated)
    requires Inv(t0, s) && Enabled(s, Finish(c, choice, g)) && OpOf(s.calls[c], choice).Ok?
    ensures RecordOf(TransferOf(OpOf(s.calls[c], choice).value, g), s.calls[c].req, choice.recipient, g)
  {
    var call := s.calls[c];
    assert SameAccounts(t0, call.seen[0]);
    match call.req
    case OwnRequest(user, from, to, amount, key) =>
      assert SameAccounts(t0, call.seen[1]);
      OwnAnswers(user, from, to, amount, key, Lookup(call.seen[0], from), Lookup(call.seen[1], to));
      assert SameHolder(t0[from], call.seen[0][from]) && SameHolder(t0[to], call.seen[1][to]);
    case P2PRequest(user, from, amount, note, key) =>
      P2PAnswers(user, Lookup(call.seen[0], from), choice.recipient, choice.listed, amount, note, key);
      assert SameHolder(t0[from], call.seen[0][from]);
    case DistributeRequest(user, amount, key) =>
      DistributeAnswers(user, choice.listed, amount, key);
  }

  /** A step that changes the store appends one record of its call's request, which then comes first in the user's list. */
  lemma NextIsRecorded(t0: Table, s: State, step: Step)
    requires Inv(t0, s) && Enabled(s, step)
    ensures var t := Next(s, step);
            t.store == s.store
            || exists r :: step.Finish? && step.c in s.calls && RecordOf(r, s.calls[step.c].req, step.choice.recipient, step.g)
                           && t.store.transfers == s.store.transfers + [r]
                           && M.Newest(t.store.transfers, s.calls[step.c].req.user) == [r] + M.Newest(s.store.transfers, s.calls[step.c].req.user)
  {
    if step.Finish? && OpOf(s.calls[step.c], step.choice).Ok? {
      var r := TransferOf(OpOf(s.calls[step.c], step.choice).value, step.g);
      FinishIsRecorded(t0, s, step.c, step.choice, step.g);
      M.AppendedIsFirst(s.store.transfers, r);
    }
  }

  /** At any point of any run, a step leaves the store as it is, or ends a call and puts one record of its request on the log and
      at the head of the requesting user's list. */
  lemma {:induction false} EveryStepIsRecorded(s0: State, steps: seq<Step>, k: nat)
    requires Init(s0) && Valid(s0, steps) && k < |steps|
    ensures var s, t, step := Run(s0, steps[..k]), Run(s0, steps[..k + 1]), steps[k];
            t.store == s.store
            || exists r :: step.Finish? && step.c in s.calls && RecordOf(r, s.calls[step.c].req, step.choice.recipient, step.g)
                           && t.store.transfers == s.store.transfers + [r]
                           && M.Newest(t.store.transfers, s.calls[step.c].req.user) == [r] + M.Newest(s.store.transfers, s.calls[step.c].req.user)
  {
    DrawnGrows(s0, steps, k + 1);
    var now := steps[..k + 1];
    assert now[..|now| - 1] == steps[..k] && now[|now| - 1] == steps[k];
    InvHolds(s0, steps[..k]);
    NextIsRecorded(s0.store.accounts, Run(s0, steps[..k]), steps[k]);
  }

  // ---- when a call is carried out ---------------------------------------------------

  /** The account is there, belongs to the user and is active. */
  ghost predicate Usable(t0: Table, user: UUID, id: UUID) {
    id in t0 && t0[id].userID == user && t0[id].isActive
  }

  ghost predicate Covers(t: Table, id: UUID, amount: int) {
    id == CLEARING || BalanceOf(t, id) >= amount
  }

  /** When a request is carried out on the balances of `t`. */
  ghost predicate Honoured(t0: Table, t: Table, req: Request, recipient: Result<User, Error>) {
    && req.amount > 0
    && match req
       case OwnRequest(user, from, to, amount, _) =>
         && from != to && Usable(t0, user, from) && Usable(t0, user, to) && t0[from].currency == t0[to].currency
         && Covers(t, from, amount)
       case P2PRequest(user, from, amount, _, _) =>
         && Usable(t0, user, from) && recipient.Ok? && recipient.value.id != user && (exists to :: Usable(t0, recipient.value.id, to))
         && Covers(t, from, amount)
       case DistributeRequest(user, _, _) =>
         Landing(t0, CLEARING) && exists id :: id != CLEARING && Usable(t0, user, id)
  }

  /** An operation whose first leg is its only debit is accepted when that leg's account can bear it. */
  lemma AcceptedIff(t: Table, op: TransferOp, g: Generated)
    requires ServiceOp(t, op)
    ensures op.legs != [] && op.legs[0].delta == -op.amount
    ensures M.Outcome(t, op).None? <==> Landing(t, op.legs[0].account) && Covers(t, op.legs[0].account, op.amount)
  {
    ServiceOpHead(t, op);
    ServiceOpLands(t, op);
    ServiceOpMoves(t, op, g, CLEARING);
    AllCoveredIff(t, op.legs);
    assert Covered(t, op.legs[0]) <==> Landing(t, op.legs[0].account) && Covers(t, op.legs[0].account, op.amount);
    assert forall i :: 1 <= i < |op.legs| ==> Covered(t, op.legs[i]);
  }

  lemma ListingShows(t0: Table, seen: Table, user: UUID, listed: seq<Account>, id: UUID) returns (a: Account)
    requires KeyedById(t0) && SameAccounts(t0, seen) && M.IsListing(seen, user, listed) && Usable(t0, user, id)
    ensures a in listed && a.isActive && a.id == id
  {
    var ids: seq<UUID> :| M.ListedBy(seen, user, listed, ids);
    M.ListingIsComplete(seen, user, listed, ids);
    a := seen[id];
    assert SameHolder(t0[id], seen[id]);
  }

  lemma OwnBuilt(t0: Table, seen: Table, later: Table, user: UUID, from: UUID, to: UUID, amount: int, key: string)
    requires KeyedById(t0) && SameAccounts(t0, seen) && SameAccounts(t0, later)
    ensures var r := OwnOp(user, from, to, amount, key, Lookup(seen, from), Lookup(later, to));
            && (r.Ok? <==> amount > 0 && from != to && Usable(t0, user, from) && Usable(t0, user, to) && t0[from].currency == t0[to].currency)
            && (r.Ok? ==> r.value.legs == [Leg(from, -amount), Leg(to, amount)])
  {
    OwnAnswers(user, from, to, amount, key, Lookup(seen, from), Lookup(later, to));
    assert from in t0 ==> SameHolder(t0[from], seen[from]);
    assert to in t0 ==> SameHolder(t0[to], later[to]);
  }

  lemma P2PBuilt(t0: Table, seen: Table, later: Table, user: UUID, from: UUID, recipient: Result<User, Error>, listed: seq<Account>,
                 amount: int, note: string, key: string)
    requires KeyedById(t0) && SameAccounts(t0, seen) && SameAccounts(t0, later)
    requires recipient.Ok? ==> M.IsListing(later, recipient.value.id, listed)
    ensures var r := P2POp(user, Lookup(seen, from), recipient, listed, amount, note, key);
            && (r.Ok? <==> amount > 0 && Usable(t0, user, from) && recipient.Ok? && recipient.value.id != user
                           && exists to :: Usable(t0, recipient.value.id, to))
            && (r.Ok? ==> r.value.legs != [] && r.value.legs[0] == Leg(from, -amount))
  {
    P2PAnswers(user, Lookup(seen, from), recipient, listed, amount, note, key);
    assert from in t0 ==> SameHolder(t0[from], seen[from]);
    if recipient.Ok? {
      ListedAccounts(t0, later, recipient.value.id, listed);
      if a :| a in listed && a.isActive {
        assert Usable(t0, recipient.value.id, a.id);
      }
      if to :| Usable(t0, recipient.value.id, to) {
        var a := ListingShows(t0, later, recipient.value.id, listed, to);
      }
    }
  }

  lemma DistributeBuilt(t0: Table, seen: Table, user: UUID, listed: seq<Account>, amount: int, key: string)
    requires KeyedById(t0) && SameAccounts(t0, seen) && M.IsListing(seen, user, listed)
    ensures var r := DistributeOp(user, listed, amount, key);
            && (r.Ok? <==> amount > 0 && exists id :: id != CLEARING && Usable(t0, user, id))
            && (r.Ok? ==> r.value.legs != [] && r.value.legs[0] == Leg(CLEARING, -amount))
  {
    DistributeAnswers(user, listed, amount, key);
    DistributionFails(listed, amount);
    ListedAccounts(t0, seen, user, listed);
    if a :| a in listed && a.isActive && a.id != CLEARING {
      assert Usable(t0, user, a.id);
    }
    if id :| id != CLEARING && Usable(t0, user, id) {
      var a := ListingShows(t0, seen, user, listed, id);
    }
  }

  lemma SameLanding(t0: Table, t: Table, id: UUID)
    requires SameAccounts(t0, t)
    ensures Landing(t, id) <==> Landing(t0, id)
  {
    assert id in t0 ==> SameHolder(t0[id], t[id]);
  }

  /** The operation was built, and its first leg's account can bear it. */
  ghost predicate Payable(t: Table, r: Result<TransferOp, Error>, amount: int) {
    r.Ok? && r.value.legs != [] && Landing(t, r.value.legs[0].account) && Covers(t, r.value.legs[0].account, amount)
  }

  lemma PayableIff(t0: Table, s: State, c: nat, choice: Choice)
    requires Inv(t0, s) && c in s.calls && |s.calls[c].seen| >= ReadsOf(s.calls[c].req) && Possible(s.calls[c], choice)
    ensures Honoured(t0, s.store.accounts, s.calls[c].req, choice.recipient)
            <==> Payable(s.store.accounts, OpOf(s.calls[c], choice), s.calls[c].req.amount)
  {
    var call, t := s.calls[c], s.store.accounts;
    assert SameAccounts(t0, call.seen[0]);
    match call.req
    case OwnRequest(user, from, to, amount, key) =>
      assert SameAccounts(t0, call.seen[1]);
      OwnBuilt(t0, call.seen[0], call.seen[1], user, from, to, amount, key);
      SameLanding(t0, t, from);
    case P2PRequest(user, from, amount, note, key) =>
      assert SameAccounts(t0, call.seen[1]);
      P2PBuilt(t0, call.seen[0], call.seen[1], user, from, choice.recipient, choice.listed, amount, note, key);
      SameLanding(t0, t, from);
    case DistributeRequest(user, amount, key) =>
      DistributeBuilt(t0, call.seen[0], user, choice.listed, amount, key);
      SameLanding(t0, t, CLEARING);
  }

  lemma StoreChangesIff(s: State, c: nat, choice: Choice, g: Generated)
    requires Enabled(s, Finish(c, choice, g))
    ensures Next(s, Finish(c, choice, g)).store != s.store
            <==> OpOf(s.calls[c], choice).Ok? && M.Outcome(s.store.accounts, OpOf(s.calls[c], choice).value).None?
  {
    var r := OpOf(s.calls[c], choice);
    if r.Ok? && M.Outcome(s.store.accounts, r.value).None? {
      assert |M.Execute(s.store, r.value, g).transfers| == |s.store.transfers| + 1;
    }
  }

  lemma FinishExecutesIff(t0: Table, s: State, c: nat, choice: Choice, g: Generated)
    requires Inv(t0, s) && Enabled(s, Finish(c, choice, g))
    ensures Next(s, Finish(c, choice, g)).store != s.store <==> Honoured(t0, s.store.accounts, s.calls[c].req, choice.recipient)
  {
    var r := OpOf(s.calls[c], choice);
    StoreChangesIff(s, c, choice, g);
    PayableIff(t0, s, c, choice);
    if r.Ok? {
      FinishIsRecorded(t0, s, c, choice, g);
      OpEmitted(t0, s, c, choice);
      StillServiceOp(t0, s.store.accounts, r.value);
      AcceptedIff(s.store.accounts, r.value, g);
    }
  }

  /** At any point of any run, a step changes the store exactly when it ends a call whose request can be honoured: a positive
      amount, the user's own active source, able to pay at that moment, and an active account to pay into. */
  lemma EveryRequestIsHonoured(s0: State, steps: seq<Step>, k: nat)
    requires Init(s0) && Valid(s0, steps) && k < |steps|
    ensures var s, t, step := Run(s0, steps[..k]), Run(s0, steps[..k + 1]), steps[k];
            t.store != s.store
            <==> step.Finish? && step.c in s.calls && Honoured(s0.store.accounts, s.store.accounts, s.calls[step.c].req, step.choice.recipient)
  {
    DrawnGrows(s0, steps, k + 1);
    var now := steps[..k + 1];
    assert now[..|now| - 1] == steps[..k] && now[|now| - 1] == steps[k];
    InvHolds(s0, steps[..k]);
    match steps[k]
    case Finish(c, choice, g) => FinishExecutesIff(s0.store.accounts, Run(s0, steps[..k]), c, choice, g);
    case _ =>
  }
}
