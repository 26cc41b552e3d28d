/** The in-process account store: validate every debit, then apply all legs. */
module MemoryStore {
  import opened Common
  import opened Uuid
  import opened Accounts

  datatype Store = Store(users: map<UUID, User>, accounts: Table, transfers: seq<Transfer>)

  /** Why one leg may not be applied; credits are not checked. */
  function DebitError(t: Table, l: Leg): Option<Error> {
    if l.delta >= 0 then None
    else if l.account !in t then Some(AccountNotFound)
    else if !t[l.account].isActive then Some(AccountInactive)
    else if l.account != CLEARING && t[l.account].balance + l.delta < 0 then Some(InsufficientFunds)
    else None
  }

  /** The error of the first debit that cannot be covered. */
  function FirstDebitError(t: Table, legs: seq<Leg>): Option<Error> {
    if legs == [] then None
    else
      match FirstDebitError(t, legs[..|legs| - 1])
      case Some(e) => Some(e)
      case None => DebitError(t, legs[|legs| - 1])
  }

  function Outcome(t: Table, op: TransferOp): Option<Error> {
    if DeltaSum(op.legs) != 0 then Some(UnbalancedLegs(DeltaSum(op.legs))) else FirstDebitError(t, op.legs)
  }

  function Execute(s: Store, op: TransferOp, g: Generated): Store {
    if Outcome(s.accounts, op).Some? then s
    else s.(accounts := ApplyLegs(s.accounts, op.legs, g.now), transfers := s.transfers + [TransferOf(op, g)])
  }

  function ResultOf(t: Table, op: TransferOp, g: Generated): Result<Transfer, Error> {
    match Outcome(t, op)
    case Some(e) => Err(e)
    case None => Ok(TransferOf(op, g))
  }

  lemma {:induction false} ErrorPersists(t: Table, legs: seq<Leg>, i: nat)
    requires i <= |legs| && FirstDebitError(t, legs[..i]).Some?
    ensures FirstDebitError(t, legs) == FirstDebitError(t, legs[..i])
    decreases |legs| - i
  {
    if i == |legs| {
      assert legs[..i] == legs;
    } else {
      assert legs[..i + 1][..i] == legs[..i];
      ErrorPersists(t, legs, i + 1);
    }
  }

  /** A user's accounts, in some order. */
  ghost predicate IsListing(t: Table, user: UUID, listed: seq<Account>) {
    exists ids: seq<UUID> :: ListedBy(t, user, listed, ids)
  }

  ghost predicate ListedBy(t: Table, user: UUID, listed: seq<Account>, ids: seq<UUID>) {
    && Distinct(ids) && |listed| == |ids|
    && (forall id :: id in ids <==> id in t && t[id].userID == user)
    && forall i :: 0 <= i < |ids| ==> listed[i] == Fetch(t, ids[i])
  }

  /** A user's transfers, newest first. */
  function Newest(ts: seq<Transfer>, user: UUID): seq<Transfer> {
    if ts == [] then []
    else (if ts[|ts| - 1].userID == user then [ts[|ts| - 1]] else []) + Newest(ts[..|ts| - 1], user)
  }

  /** A listing holds each of the user's accounts, once, and nothing else. */
  lemma ListingIsComplete(t: Table, user: UUID, listed: seq<Account>, ids: seq<UUID>)
    requires ListedBy(t, user, listed, ids)
    ensures forall a :: a in listed <==> exists id :: id in t && t[id] == a && a.userID == user
    ensures |listed| == |set id | id in t && t[id].userID == user|
  {
    forall a ensures a in listed <==> exists id :: id in t && t[id] == a && a.userID == user {
      if a in listed {
        var i :| 0 <= i < |listed| && listed[i] == a;
        assert ids[i] in ids;
      }
      if id :| id in t && t[id] == a && a.userID == user {
        assert id in ids;
        var i :| 0 <= i < |ids| && ids[i] == id;
        assert listed[i] == a;
      }
    }
    DistinctCount(ids);
    assert (set id | id in t && t[id].userID == user) == set id | id in ids;
  }

  lemma {:induction false} DistinctCount(ids: seq<UUID>)
    requires Distinct(ids)
    ensures |set id | id in ids| == |ids|
  {
    if ids != [] {
      var n := |ids| - 1;
      DistinctCount(ids[..n]);
      assert (set id | id in ids) == (set id | id in ids[..n]) + {ids[n]};
    }
  }

  /** The positions of a user's transfers, latest first. */
  function NewestAt(ts: seq<Transfer>, user: UUID): seq<nat> {
    if ts == [] then []
    else (if ts[|ts| - 1].userID == user then [|ts| - 1] else []) + NewestAt(ts[..|ts| - 1], user)
  }

  lemma {:induction false} NewestAtCovers(ts: seq<Transfer>, user: UUID, k: nat)
    ensures k in NewestAt(ts, user) <==> k < |ts| && ts[k].userID == user
  {
    if ts != [] {
      NewestAtCovers(ts[..|ts| - 1], user, k);
    }
  }

  lemma {:induction false} NewestAtDescends(ts: seq<Transfer>, user: UUID, i: nat, j: nat)
    requires i < j < |NewestAt(ts, user)|
    ensures |ts| > NewestAt(ts, user)[i] > NewestAt(ts, user)[j]
  {
    var n, at := |ts| - 1, NewestAt(ts, user);
    var before := NewestAt(ts[..n], user);
    if ts[n].userID != user {
      NewestAtDescends(ts[..n], user, i, j);
    } else if i > 0 {
      NewestAtDescends(ts[..n], user, i - 1, j - 1);
    } else {
      assert at[j] == before[j - 1];
      NewestAtCovers(ts[..n], user, at[j]);
    }
  }

  /** The list of a user's transfers holds each of them, at strictly falling positions of the log. */
  lemma {:induction false} NewestOrder(ts: seq<Transfer>, user: UUID, i: nat)
    requires i < |Newest(ts, user)|
    ensures i < |NewestAt(ts, user)| == |Newest(ts, user)| && NewestAt(ts, user)[i] < |ts|
    ensures Newest(ts, user)[i] == ts[NewestAt(ts, user)[i]]
  {
    var n := |ts| - 1;
    var before := ts[..n];
    NewestLengths(ts, user);
    NewestLengths(before, user);
    if ts[n].userID != user {
      NewestOrder(before, user, i);
    } else if i > 0 {
      NewestOrder(before, user, i - 1);
    }
  }

  lemma {:induction false} NewestLengths(ts: seq<Transfer>, user: UUID)
    ensures |NewestAt(ts, user)| == |Newest(ts, user)|
  {
    if ts != [] {
      NewestLengths(ts[..|ts| - 1], user);
    }
  }

  /** A record just appended comes first in its user's list. */
  lemma {:induction false} AppendedIsFirst(ts: seq<Transfer>, r: Transfer)
    ensures Newest(ts + [r], r.userID) == [r] + Newest(ts, r.userID)
  {
    assert (ts + [r])[..|ts|] == ts;
  }

  /** The standard library's lower-casing and trimming of Unicode text, whatever they do. */
  datatype TextLibrary = TextLibrary(lower: string -> string, trim: string -> string)

  /** The user goes by this account number or full name, up to case and to blanks around the query. */
  predicate GoesBy(text: TextLibrary, u: User, query: string) {
    var q := text.trim(text.lower(query));
    text.lower(u.number) == q || text.lower(u.fullName) == q
  }

  lemma {:induction false} NewestStep(ts: seq<Transfer>, user: UUID, i: nat)
    requires i < |ts|
    ensures Newest(ts[..i + 1], user) == (if ts[i].userID == user then [ts[i]] else []) + Newest(ts[..i], user)
  {
    assert ts[..i + 1][..i] == ts[..i];
  }

  class MemoryStore {
    const text: TextLibrary
    var users: map<UUID, User>
    var accounts: Table
    var transfers: seq<Transfer>

    function Snapshot(): Store
      reads this
    {
      Store.Store(users, accounts, transfers)
    }

    constructor (text: TextLibrary, users: map<UUID, User>, accounts: Table)
      ensures Snapshot() == Store.Store(users, accounts, []) && this.text == text
    {
      this.text, this.users, this.accounts, this.transfers := text, users, accounts, [];
    }

    method GetAccount(id: UUID) returns (r: Result<Account, Error>)
      ensures id in accounts ==> r == Ok(accounts[id])
      ensures id !in accounts ==> r == Err(AccountNotFound)
    {
      if id !in accounts {
        return Err(AccountNotFound);
      }
      r := Ok(accounts[id]);
    }

    /** Reads the account map in its arbitrary order. */
    method ListAccountsByUser(user: UUID) returns (out: seq<Account>)
      ensures IsListing(accounts, user, out)
      ensures forall a :: a in out <==> exists id :: id in accounts && accounts[id] == a && a.userID == user
      ensures |out| == |set id | id in accounts && accounts[id].userID == user|
    {
      out := [];
      ghost var ids: seq<UUID> := [];
      var todo := accounts.Keys;
      while todo != {}
        invariant todo <= accounts.Keys
        invariant Distinct(ids) && |out| == |ids|
        invariant forall id :: id in ids <==> id in accounts && id !in todo && accounts[id].userID == user
        invariant forall i :: 0 <= i < |ids| ==> out[i] == Fetch(accounts, ids[i])
        decreases todo
      {
        var id :| id in todo;
        todo := todo - {id};
        if accounts[id].userID == user {
          out := out + [accounts[id]];
          ids := ids + [id];
        }
      }
      assert ListedBy(accounts, user, out, ids);
      ListingIsComplete(accounts, user, out, ids);
    }

    method FindUserByQuery(query: string) returns (r: Result<User, Error>)
      ensures var q := text.trim(text.lower(query));
              match r
              case Ok(u) => u in users.Values && (text.lower(u.number) == q || text.lower(u.fullName) == q)
              case Err(e) =>
                e == RecipientNotFound && forall id :: id in users ==> text.lower(users[id].number) != q && text.lower(users[id].fullName) != q
    {
      var todo := users.Keys;
      while todo != {}
        invariant todo <= users.Keys
        invariant forall id :: id in users && id !in todo ==> !GoesBy(text, users[id], query)
        decreases todo
      {
        var id :| id in todo;
        todo := todo - {id};
        if GoesBy(text, users[id], query) {
          return Ok(users[id]);
        }
      }
      r := Err(RecipientNotFound);
    }

    method ListTransfersByUser(user: UUID, limit: int) returns (out: seq<Transfer>)
      ensures out <= Newest(transfers, user)
      ensures limit <= 0 ==> out == Newest(transfers, user)
      ensures limit > 0 ==> |out| == if |Newest(transfers, user)| < limit then |Newest(transfers, user)| else limit
    {
      out := [];
      var i := |transfers| - 1;
      assert transfers[..i + 1] == transfers;
      ghost var rest := Newest(transfers, user);
      assert [] + rest == rest;
      while i >= 0 && (limit <= 0 || |out| < limit)
        invariant -1 <= i < |transfers|
        invariant rest == Newest(transfers[..i + 1], user)
        invariant Newest(transfers, user) == out + rest
        invariant limit > 0 ==> |out| <= limit
      {
        NewestStep(transfers, user, i);
        ghost var later := Newest(transfers[..i], user);
        if transfers[i].userID == user {
          assert out + ([transfers[i]] + later) == (out + [transfers[i]]) + later;
          out := out + [transfers[i]];
        } else {
          assert rest == later;
        }
        rest := later;
        i := i - 1;
      }
      assert i < 0 ==> rest == [];
    }

    /** Rejected operations change nothing; accepted ones apply every leg and append one record. */
    method ExecuteTransfer(op: TransferOp, g: Generated) returns (r: Result<Transfer, Error>)
      modifies this
      ensures r == ResultOf(old(accounts), op, g)
      ensures Snapshot() == Execute(old(Snapshot()), op, g)
    {
      var legs := op.legs;
      var sum := 0;
      for i := 0 to |legs|
        invariant sum == DeltaSum(legs[..i])
      {
        assert legs[..i + 1][..i] == legs[..i];
        sum := sum + legs[i].delta;
      }
      assert legs[..|legs|] == legs;
      if sum != 0 {
        return Err(UnbalancedLegs(sum));
      }
      var found := CheckDebits(legs);
      if found.Some? {
        return Err(found.value);
      }
      for i := 0 to |legs|
        invariant accounts == ApplyLegs(old(accounts), legs[..i], g.now)
        invariant users == old(users) && transfers == old(transfers)
      {
        assert legs[..i + 1][..i] == legs[..i];
        var acc := if legs[i].account in accounts then accounts[legs[i].account] else NO_ACCOUNT;
        accounts := accounts[legs[i].account := acc.(balance := acc.balance + legs[i].delta, updatedAt := g.now)];
      }
      var transfer := TransferOf(op, g);
      transfers := transfers + [transfer];
      r := Ok(transfer);
    }

    method CheckDebits(legs: seq<Leg>) returns (e: Option<Error>)
      ensures e == FirstDebitError(accounts, legs)
    {
      for i := 0 to |legs|
        invariant FirstDebitError(accounts, legs[..i]) == None
      {
        var l := legs[i];
        assert legs[..i + 1][..i] == legs[..i];
        assert FirstDebitError(accounts, legs[..i + 1]) == DebitError(accounts, l);
        if l.delta >= 0 {
          continue;
        }
        e := DebitError(accounts, l);
        if e.Some? {
          ErrorPersists(accounts, legs, i + 1);
          return;
        }
      }
      assert legs[..|legs|] == legs;
      e := None;
    }
  }
}
