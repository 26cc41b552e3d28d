/** The transfer operations of the account service: which legs each of them emits from what it has read. */
module AccountService {
  import opened Common
  import opened Uuid
  import opened Accounts
  import opened Distribution
  import Domain
  import M = MemoryStore

  function Lookup(t: Table, id: UUID): Option<Account> {
    if id in t then Some(t[id]) else None
  }

  function OwnedActive(read: Option<Account>, user: UUID): Result<Account, Error> {
    match read
    case None => Err(AccountNotFound)
    case Some(a) =>
      if a.userID != user then Err(AccountNotOwned)
      else if !a.isActive then Err(AccountInactive)
      else Ok(a)
  }

  function TwoLegs(kind: TransferType, user: UUID, from: Account, to: Account, counterparty: string, note: string, amount: int, key: string): TransferOp {
    TransferOp(user, kind, [Leg(from.id, -amount), Leg(to.id, amount)], Some(from.id), Some(to.id), counterparty, note, amount,
               from.currency, key, [])
  }

  /** Between two accounts of one user. */
  function OwnOp(user: UUID, from: UUID, to: UUID, amount: int, key: string, fromRead: Option<Account>, toRead: Option<Account>): Result<TransferOp, Error> {
    if amount <= 0 then Err(InvalidAmount)
    else if from == to then Err(SameAccount)
    else
      match (OwnedActive(fromRead, user), OwnedActive(toRead, user))
      case (Err(e), _) => Err(e)
      case (Ok(_), Err(e)) => Err(e)
      case (Ok(f), Ok(t)) =>
        if f.currency != t.currency then Err(CrossCurrency(f.currency, t.currency))
        else Ok(TwoLegs(Own, user, f, t, "", "", amount, key))
  }

  function FirstActive(listed: seq<Account>): (r: Option<Account>)
    ensures r.Some? ==> r.value in listed && r.value.isActive
    ensures r.None? ==> forall a :: a in listed ==> !a.isActive
  {
    if listed == [] then None
    else if listed[0].isActive then Some(listed[0])
    else FirstActive(listed[1..])
  }

  /** To another user, into the first active of that user's accounts. */
  function P2POp(user: UUID, fromRead: Option<Account>, recipient: Result<User, Error>, listed: seq<Account>, amount: int, note: string, key: string): Result<TransferOp, Error> {
    if amount <= 0 then Err(InvalidAmount)
    else
      match (OwnedActive(fromRead, user), recipient)
      case (Err(e), _) => Err(e)
      case (Ok(_), Err(e)) => Err(e)
      case (Ok(f), Ok(u)) =>
        if u.id == user then Err(SelfTransfer)
        else
          match FirstActive(listed)
          case None => Err(RecipientHasNoAccount)
          case Some(t) => Ok(TwoLegs(P2P, user, f, t, u.fullName, note, amount, key))
  }

  /** The answer to an own transfer, from the two accounts as they were read: the first check that fails decides the error. */
  lemma OwnAnswers(user: UUID, from: UUID, to: UUID, amount: int, key: string, fromRead: Option<Account>, toRead: Option<Account>)
    ensures OwnOp(user, from, to, amount, key, fromRead, toRead)
         == if amount <= 0 then Err(InvalidAmount)
            else if from == to then Err(SameAccount)
            else if fromRead.None? then Err(AccountNotFound)
            else if fromRead.value.userID != user then Err(AccountNotOwned)
            else if !fromRead.value.isActive then Err(AccountInactive)
            else if toRead.None? then Err(AccountNotFound)
            else if toRead.value.userID != user then Err(AccountNotOwned)
            else if !toRead.value.isActive then Err(AccountInactive)
            else if fromRead.value.currency != toRead.value.currency then Err(CrossCurrency(fromRead.value.currency, toRead.value.currency))
            else Ok(TransferOp(user, Own, [Leg(fromRead.value.id, -amount), Leg(toRead.value.id, amount)], Some(fromRead.value.id),
                               Some(toRead.value.id), "", "", amount, fromRead.value.currency, key, []))
  {
  }

  /** The answer to a transfer to another user, apart from the choice among the recipient's active accounts. */
  lemma P2PAnswers(user: UUID, fromRead: Option<Account>, recipient: Result<User, Error>, listed: seq<Account>, amount: int, note: string, key: string)
    ensures var r := P2POp(user, fromRead, recipient, listed, amount, note, key);
            if amount <= 0 then r == Err(InvalidAmount)
            else if fromRead.None? then r == Err(AccountNotFound)
            else if fromRead.value.userID != user then r == Err(AccountNotOwned)
            else if !fromRead.value.isActive then r == Err(AccountInactive)
            else if recipient.Err? then r == Err(recipient.error)
            else if recipient.value.id == user then r == Err(SelfTransfer)
            else if forall a :: a in listed ==> !a.isActive then r == Err(RecipientHasNoAccount)
            else exists to :: to in listed && to.isActive
                              && r == Ok(TransferOp(user, P2P, [Leg(fromRead.value.id, -amount), Leg(to.id, amount)], Some(fromRead.value.id),
                                                    Some(to.id), recipient.value.fullName, note, amount, fromRead.value.currency, key, []))
  {
  }

  function SplitLegs(splits: seq<Split>): seq<Leg> {
    seq(|splits|, i requires 0 <= i < |splits| => Leg(splits[i].account, splits[i].amount))
  }

  /** From clearing over the user's eligible accounts. */
  function DistributeOp(user: UUID, listed: seq<Account>, amount: int, key: string): Result<TransferOp, Error> {
    if amount <= 0 then Err(InvalidAmount)
    else
      match Distributed(listed, amount)
      case Err(e) => Err(e)
      case Ok(splits) =>
        Ok(TransferOp(user, Distribute, [Leg(CLEARING, -amount)] + SplitLegs(splits), None, None, "", "", amount, "SAR", key, splits))
  }

  /** The answer to a distribution: the whole amount from clearing, one credit for each share, in order. */
  lemma DistributeAnswers(user: UUID, listed: seq<Account>, amount: int, key: string)
    ensures var r := DistributeOp(user, listed, amount, key);
            if amount <= 0 then r == Err(InvalidAmount)
            else match Distributed(listed, amount)
                 case Err(e) => r == Err(e)
                 case Ok(splits) =>
                   && r.Ok? && |r.value.legs| == |splits| + 1 && r.value.legs[0] == Leg(CLEARING, -amount)
                   && (forall i :: 0 <= i < |splits| ==> r.value.legs[i + 1] == Leg(splits[i].account, splits[i].amount))
                   && r.value == TransferOp(user, Distribute, r.value.legs, None, None, "", "", amount, "SAR", key, splits)
  {
  }

  /** The effect on a store of an operation that could be built, or of one that could not. */
  ghost predicate Carried(before: M.Store, after: M.Store, op: Result<TransferOp, Error>, g: Generated, r: Result<Transfer, Error>) {
    match op
    case Err(e) => r == Err(e) && after == before
    case Ok(o) => r == M.ResultOf(before.accounts, o, g) && after == M.Execute(before, o, g)
  }

  /** A rejected operation leaves the store alone; an accepted one comes first in its user's list, with the operation's own fields. */
  lemma CarriedIsListed(before: M.Store, after: M.Store, op: Result<TransferOp, Error>, g: Generated, r: Result<Transfer, Error>)
    requires Carried(before, after, op, g, r)
    ensures r.Err? ==> after == before
    ensures r.Ok? ==>
              && op.Ok?
              && M.Newest(after.transfers, op.value.userID) == [r.value] + M.Newest(before.transfers, op.value.userID)
              && r.value == Transfer(g.id, g.txID, op.value.userID, op.value.kind, op.value.from, op.value.to, op.value.counterparty,
                                     op.value.note, op.value.amount, op.value.currency, g.reference, g.now, op.value.splits)
  {
    if r.Ok? {
      M.AppendedIsFirst(before.transfers, r.value);
    }
  }

  /** What the user sees of an accepted own transfer. */
  lemma {:induction false} OwnIsListed(before: M.Store, after: M.Store, user: UUID, from: UUID, to: UUID, amount: int, key: string, g: Generated, r: Result<Transfer, Error>)
    requires KeyedById(before.accounts)
    requires Carried(before, after, OwnOp(user, from, to, amount, key, Lookup(before.accounts, from), Lookup(before.accounts, to)), g, r)
    ensures r.Err? ==> after == before
    ensures r.Ok? ==>
              && M.Newest(after.transfers, user) == [r.value] + M.Newest(before.transfers, user)
              && from in before.accounts
              && r.value == Transfer(g.id, g.txID, user, Own, Some(from), Some(to), "", "", amount, before.accounts[from].currency,
                                     g.reference, g.now, [])
  {
    OwnAnswers(user, from, to, amount, key, Lookup(before.accounts, from), Lookup(before.accounts, to));
    CarriedIsListed(before, after, OwnOp(user, from, to, amount, key, Lookup(before.accounts, from), Lookup(before.accounts, to)), g, r);
  }

  /** What the user sees of an accepted transfer to another user: it went to the first active account listed for the recipient. */
  lemma {:induction false} P2PIsListed(before: M.Store, after: M.Store, user: UUID, from: UUID, recipient: Result<User, Error>, listed: seq<Account>, amount: int,
                    note: string, key: string, g: Generated, r: Result<Transfer, Error>)
    requires KeyedById(before.accounts)
    requires recipient.Ok? && recipient.value.id != user ==> M.IsListing(before.accounts, recipient.value.id, listed)
    requires Carried(before, after, P2POp(user, Lookup(before.accounts, from), recipient, listed, amount, note, key), g, r)
    ensures r.Err? ==> after == before
    ensures r.Ok? ==>
              && M.Newest(after.transfers, user) == [r.value] + M.Newest(before.transfers, user)
              && from in before.accounts && recipient.Ok? && recipient.value.id != user && r.value.to.Some?
              && r.value == Transfer(g.id, g.txID, user, P2P, Some(from), r.value.to, recipient.value.fullName, note, amount,
                                     before.accounts[from].currency, g.reference, g.now, [])
    ensures r.Ok? ==>
              && r.value.to.Some? && recipient.Ok? && r.value.to.value in before.accounts
              && before.accounts[r.value.to.value].userID == recipient.value.id && before.accounts[r.value.to.value].isActive
              && exists j :: 0 <= j < |listed| && listed[j].id == r.value.to.value && listed[j].isActive && (forall i :: 0 <= i < j ==> !listed[i].isActive)
  {
    var op := P2POp(user, Lookup(before.accounts, from), recipient, listed, amount, note, key);
    P2PAnswers(user, Lookup(before.accounts, from), recipient, listed, amount, note, key);
    CarriedIsListed(before, after, op, g, r);
    if r.Ok? {
      SameAccountsSelf(before.accounts);
      ListedAccounts(before.accounts, before.accounts, recipient.value.id, listed);
      FirstActiveIsFirst(listed);
    }
  }

  lemma SameAccountsSelf(t: Table)
    ensures SameAccounts(t, t)
  {
  }

  lemma {:induction false} FirstActiveIsFirst(listed: seq<Account>)
    ensures FirstActive(listed).Some? ==>
              exists j :: 0 <= j < |listed| && FirstActive(listed) == Some(listed[j]) && (forall i :: 0 <= i < j ==> !listed[i].isActive)
  {
    if listed != [] && !listed[0].isActive {
      FirstActiveIsFirst(listed[1..]);
      if j :| 0 <= j < |listed[1..]| && FirstActive(listed[1..]) == Some(listed[1..][j]) && (forall i :: 0 <= i < j ==> !listed[1..][i].isActive) {
        assert listed[j + 1] == listed[1..][j];
        assert forall i :: 1 <= i < j + 1 ==> listed[i] == listed[1..][i - 1];
      }
    }
  }

  /** The running total, wrapping around at each addition. */
  function RunningTotal(accs: seq<Account>): int64 {
    if accs == [] then 0
    else
      var before, last := RunningTotal(accs[..|accs| - 1]), accs[|accs| - 1];
      if last.isActive then Wrap64(before + last.balance) else before
  }

  lemma {:induction false} RunningTotalIs(accs: seq<Account>)
    ensures RunningTotal(accs) == Wrap64(ActiveTotal(accs))
  {
    if accs != [] {
      var before, last := accs[..|accs| - 1], accs[|accs| - 1];
      RunningTotalIs(before);
      Domain.WrapAdd(ActiveTotal(before), last.balance);
    }
  }

  method AddActive(accs: seq<Account>) returns (total: int64)
    ensures total == Wrap64(ActiveTotal(accs))
  {
    total := 0;
    for i := 0 to |accs|
      invariant total == RunningTotal(accs[..i])
    {
      assert accs[..i + 1][..i] == accs[..i];
      if accs[i].isActive {
        total := Wrap64(total + accs[i].balance);
      }
    }
    assert accs[..|accs|] == accs;
    RunningTotalIs(accs);
  }

  class Service {
    const store: M.MemoryStore

    constructor (store: M.MemoryStore)
      ensures this.store == store
    {
      this.store := store;
    }

    /** Adds up in 64 bits: the exact total of the active accounts while it fits. */
    method TotalLiquidity(user: UUID) returns (total: int64)
      ensures exists listed :: M.IsListing(store.accounts, user, listed) && total == Wrap64(ActiveTotal(listed))
    {
      var accs := store.ListAccountsByUser(user);
      total := AddActive(accs);
    }

    method MustOwnActiveAccount(user: UUID, id: UUID) returns (r: Result<Account, Error>)
      ensures r == OwnedActive(Lookup(store.accounts, id), user)
    {
      var acc := store.GetAccount(id);
      if acc.Err? {
        return Err(acc.error);
      }
      if acc.value.userID != user {
        return Err(AccountNotOwned);
      }
      if !acc.value.isActive {
        return Err(AccountInactive);
      }
      r := acc;
    }

    method TransferOwn(user: UUID, from: UUID, to: UUID, amount: int, key: string, g: Generated) returns (r: Result<Transfer, Error>)
      modifies store
      ensures amount > 0 && from != to && from in old(store.accounts) && old(store.accounts)[from].userID != user ==> r == Err(AccountNotOwned)
      ensures Carried(old(store.Snapshot()), store.Snapshot(),
                      OwnOp(user, from, to, amount, key, Lookup(old(store.accounts), from), Lookup(old(store.accounts), to)), g, r)
    {
      if amount <= 0 {
        return Err(InvalidAmount);
      }
      if from == to {
        return Err(SameAccount);
      }
      var f := MustOwnActiveAccount(user, from);
      if f.Err? {
        return Err(f.error);
      }
      var t := MustOwnActiveAccount(user, to);
      if t.Err? {
        return Err(t.error);
      }
      if f.value.currency != t.value.currency {
        return Err(CrossCurrency(f.value.currency, t.value.currency));
      }
      r := store.ExecuteTransfer(TwoLegs(Own, user, f.value, t.value, "", "", amount, key), g);
    }

    method TransferP2P(user: UUID, from: UUID, query: string, amount: int, note: string, key: string, g: Generated)
      returns (r: Result<Transfer, Error>, ghost recipient: Result<User, Error>, ghost listed: seq<Account>)
      modifies store
      ensures var q := store.text.trim(store.text.lower(query));
              recipient.Ok? ==> && recipient.value in old(store.users).Values
                                && (store.text.lower(recipient.value.number) == q || store.text.lower(recipient.value.fullName) == q)
      ensures recipient.Ok? && recipient.value.id != user ==> M.IsListing(old(store.accounts), recipient.value.id, listed)
      ensures Carried(old(store.Snapshot()), store.Snapshot(),
                      P2POp(user, Lookup(old(store.accounts), from), recipient, listed, amount, note, key), g, r)
    {
      recipient, listed := Err(RecipientNotFound), [];
      if amount <= 0 {
        return Err(InvalidAmount), recipient, listed;
      }
      var f := MustOwnActiveAccount(user, from);
      if f.Err? {
        return Err(f.error), recipient, listed;
      }
      var u := store.FindUserByQuery(query);
      recipient := u;
      if u.Err? {
        return Err(u.error), recipient, listed;
      }
      if u.value.id == user {
        return Err(SelfTransfer), recipient, listed;
      }
      var accs := store.ListAccountsByUser(u.value.id);
      listed := accs;
      var to := None;
      for i := 0 to |accs|
        invariant to == None && FirstActive(accs) == FirstActive(accs[i..])
      {
        if accs[i].isActive {
          to := Some(accs[i]);
          break;
        }
      }
      if to.None? {
        return Err(RecipientHasNoAccount), recipient, listed;
      }
      r := store.ExecuteTransfer(TwoLegs(P2P, user, f.value, to.value, u.value.fullName, note, amount, key), g);
    }

    method TransferDistribute(user: UUID, amount: int, key: string, g: Generated) returns (r: Result<Transfer, Error>, ghost listed: seq<Account>)
      modifies store
      ensures amount > 0 ==> M.IsListing(old(store.accounts), user, listed)
      ensures Carried(old(store.Snapshot()), store.Snapshot(), DistributeOp(user, listed, amount, key), g, r)
    {
      listed := [];
      if amount <= 0 {
        return Err(InvalidAmount), listed;
      }
      var accs := store.ListAccountsByUser(user);
      listed := accs;
      var splits := ComputeDistribution(accs, amount);
      if splits.Err? {
        return Err(splits.error), listed;
      }
      var legs := DistributionLegs(splits.value, amount);
      r := store.ExecuteTransfer(TransferOp(user, Distribute, legs, None, None, "", "", amount, "SAR", key, splits.value), g);
    }

    method DistributionLegs(splits: seq<Split>, amount: int) returns (legs: seq<Leg>)
      ensures legs == [Leg(CLEARING, -amount)] + SplitLegs(splits)
    {
      legs := [Leg(CLEARING, -amount)];
      for i := 0 to |splits|
        invariant legs == [Leg(CLEARING, -amount)] + SplitLegs(splits[..i])
      {
        legs := legs + [Leg(splits[i].account, splits[i].amount)];
        assert SplitLegs(splits[..i + 1]) == SplitLegs(splits[..i]) + [Leg(splits[i].account, splits[i].amount)];
      }
      assert splits[..|splits|] == splits;
    }
  }

  function ActiveTotal(listed: seq<Account>): int {
    if listed == [] then 0
    else ActiveTotal(listed[..|listed| - 1]) + (if listed[|listed| - 1].isActive then listed[|listed| - 1].balance else 0)
  }

  lemma {:induction false} ActiveTotalIs(listed: seq<Account>)
    ensures ActiveTotal(listed) == Sum(seq(|listed|, i requires 0 <= i < |listed| => if listed[i].isActive then listed[i].balance else 0))
  {
    if listed != [] {
      var n := |listed| - 1;
      ActiveTotalIs(listed[..n]);
      var all := seq(|listed|, i requires 0 <= i < |listed| => if listed[i].isActive then listed[i].balance else 0);
      assert all[..n] == seq(n, i requires 0 <= i < n => if listed[..n][i].isActive then listed[..n][i].balance else 0);
    }
  }

  // ---- what the service emits ---------------------------------------------------

  /** An operation the service may hand to a store whose accounts are those of `t`. */
  ghost predicate ServiceOp(t: Table, op: TransferOp) {
    op.amount > 0 && (if op.kind == Distribute then SpreadOp(t, op) else PairOp(t, op))
  }

  ghost predicate Landing(t: Table, id: UUID) {
    id in t && t[id].isActive
  }

  ghost predicate PairOp(t: Table, op: TransferOp) {
    && op.from.Some? && op.to.Some? && op.from != op.to && op.splits == []
    && op.legs == [Leg(op.from.value, -op.amount), Leg(op.to.value, op.amount)]
    && Landing(t, op.from.value) && Landing(t, op.to.value)
  }

  ghost predicate SpreadOp(t: Table, op: TransferOp) {
    && op.from.None? && op.to.None?
    && op.legs == [Leg(CLEARING, -op.amount)] + SplitLegs(op.splits)
    && SplitTotal(op.splits) == op.amount && DistinctAccounts(op.splits)
    && forall i :: 0 <= i < |op.splits| ==>
         op.splits[i].amount > 0 && op.splits[i].account != CLEARING && Landing(t, op.splits[i].account)
  }

  /** Accounts are stored under their own identifiers. */
  ghost predicate KeyedById(t: Table) {
    forall id :: id in t ==> t[id].id == id
  }

  lemma OwnEmits(t: Table, u: Table, v: Table, user: UUID, from: UUID, to: UUID, amount: int, key: string)
    requires KeyedById(t) && SameAccounts(t, u) && SameAccounts(t, v)
    requires OwnOp(user, from, to, amount, key, Lookup(u, from), Lookup(v, to)).Ok?
    ensures ServiceOp(t, OwnOp(user, from, to, amount, key, Lookup(u, from), Lookup(v, to)).value)
  {
    assert SameHolder(t[from], u[from]) && SameHolder(t[to], v[to]);
  }

  lemma ListedAccounts(t: Table, u: Table, user: UUID, listed: seq<Account>)
    requires KeyedById(t) && SameAccounts(t, u) && M.IsListing(u, user, listed)
    ensures DistinctIds(listed)
    ensures forall a :: a in listed ==> a.id in t && t[a.id].userID == user && t[a.id].isActive == a.isActive
  {
    var ids: seq<UUID> :| M.ListedBy(u, user, listed, ids);
    forall i | 0 <= i < |listed|
      ensures listed[i].id == ids[i] && ids[i] in t && t[ids[i]].userID == user && t[ids[i]].isActive == listed[i].isActive
    {
      assert ids[i] in ids;
      assert SameHolder(t[ids[i]], u[ids[i]]);
    }
  }

  lemma P2PEmits(t: Table, u: Table, v: Table, user: UUID, from: UUID, recipient: Result<User, Error>, listed: seq<Account>, amount: int, note: string, key: string)
    requires KeyedById(t) && SameAccounts(t, u) && SameAccounts(t, v)
    requires recipient.Ok? && recipient.value.id != user ==> M.IsListing(v, recipient.value.id, listed)
    requires P2POp(user, Lookup(u, from), recipient, listed, amount, note, key).Ok?
    ensures ServiceOp(t, P2POp(user, Lookup(u, from), recipient, listed, amount, note, key).value)
  {
    assert SameHolder(t[from], u[from]);
    ListedAccounts(t, v, recipient.value.id, listed);
  }

  lemma DistributeEmits(t: Table, u: Table, user: UUID, listed: seq<Account>, amount: int, key: string)
    requires KeyedById(t) && SameAccounts(t, u) && M.IsListing(u, user, listed)
    requires DistributeOp(user, listed, amount, key).Ok?
    ensures ServiceOp(t, DistributeOp(user, listed, amount, key).value)
  {
    ListedAccounts(t, u, user, listed);
    DistributionIsExact(listed, amount);
    var op := DistributeOp(user, listed, amount, key).value;
    forall i | 0 <= i < |op.splits|
      ensures op.splits[i].amount > 0 && op.splits[i].account != CLEARING && Landing(t, op.splits[i].account)
    {
      assert Recipients(listed)[i] in listed;
    }
  }
}
