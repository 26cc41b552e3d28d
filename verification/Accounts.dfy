/** Accounts, transfers and the effect of transfer legs on balances. Amounts are mathematical integers;
    TransferRuns proves when they stay within 64 bits. */
module Accounts {
  import opened Common
  import opened Uuid

  datatype Account = Account(
    id: UUID,
    userID: UUID,
    currency: string,
    balance: int,
    respectsFloor: bool,
    isActive: bool,
    createdAt: int,
    updatedAt: int)

  /** What reading an absent key of the account map yields: in Go, the zero value of the record. */
  const NO_ACCOUNT := Account(NIL, NIL, "", 0, false, false, 0, 0)

  datatype User = User(id: UUID, fullName: string, number: string)

  datatype TransferType = Own | P2P | Distribute

  /** One balance movement: a negative delta is a debit. */
  datatype Leg = Leg(account: UUID, delta: int)

  datatype Split = Split(account: UUID, amount: int)

  datatype TransferOp = TransferOp(
    userID: UUID,
    kind: TransferType,
    legs: seq<Leg>,
    from: Option<UUID>,
    to: Option<UUID>,
    counterparty: string,
    note: string,
    amount: int,
    currency: string,
    key: string,
    splits: seq<Split>)

  datatype Transfer = Transfer(
    id: UUID,
    txID: UUID,
    userID: UUID,
    kind: TransferType,
    from: Option<UUID>,
    to: Option<UUID>,
    counterparty: string,
    note: string,
    amount: int,
    currency: string,
    reference: string,
    createdAt: int,
    splits: seq<Split>)

  /** What the program generates for one execution: identifiers, a reference and the time. */
  datatype Generated = Generated(id: UUID, txID: UUID, reference: string, now: int)

  datatype Error =
    | UnbalancedLegs(sum: int)
    | AccountNotFound
    | AccountNotOwned
    | AccountInactive
    | InsufficientFunds
    | InvalidAmount
    | SameAccount
    | CrossCurrency(source: string, destination: string)
    | RecipientNotFound
    | SelfTransfer
    | RecipientHasNoAccount
    | NothingToDistribute
    | DuplicateKey
    | DuplicateReference

  type Table = map<UUID, Account>

  function TransferOf(op: TransferOp, g: Generated): Transfer {
    Transfer(g.id, g.txID, op.userID, op.kind, op.from, op.to, op.counterparty, op.note, op.amount, op.currency,
             g.reference, g.now, op.splits)
  }

  // ---- effect of legs -----------------------------------------------------------

  function DeltaSum(legs: seq<Leg>): int {
    if legs == [] then 0 else DeltaSum(legs[..|legs| - 1]) + legs[|legs| - 1].delta
  }

  /** Net movement of one account. */
  function Moved(legs: seq<Leg>, id: UUID): int {
    if legs == [] then 0
    else Moved(legs[..|legs| - 1], id) + (if legs[|legs| - 1].account == id then legs[|legs| - 1].delta else 0)
  }

  function Fetch(t: Table, id: UUID): Account {
    if id in t then t[id] else NO_ACCOUNT
  }

  function BalanceOf(t: Table, id: UUID): int {
    Fetch(t, id).balance
  }

  function Adjust(t: Table, l: Leg, now: int): Table {
    var a := Fetch(t, l.account);
    t[l.account := a.(balance := a.balance + l.delta, updatedAt := now)]
  }

  /** Applies the legs in order. */
  function ApplyLegs(t: Table, legs: seq<Leg>, now: int): Table {
    if legs == [] then t else Adjust(ApplyLegs(t, legs[..|legs| - 1], now), legs[|legs| - 1], now)
  }

  lemma {:induction false} AppliedBalance(t: Table, legs: seq<Leg>, now: int, id: UUID)
    ensures BalanceOf(ApplyLegs(t, legs, now), id) == BalanceOf(t, id) + Moved(legs, id)
  {
    if legs != [] {
      AppliedBalance(t, legs[..|legs| - 1], now, id);
    }
  }

  /** Everything about an account that transfers leave alone. */
  predicate SameHolder(a: Account, b: Account) {
    a.id == b.id && a.userID == b.userID && a.currency == b.currency && a.respectsFloor == b.respectsFloor
    && a.isActive == b.isActive && a.createdAt == b.createdAt
  }

  /** Two tables list the same accounts, differing at most in balances and update times. */
  ghost predicate SameAccounts(t: Table, u: Table) {
    t.Keys == u.Keys && forall id :: id in t ==> SameHolder(t[id], u[id])
  }

  lemma {:induction false} AppliedHolders(t: Table, legs: seq<Leg>, now: int)
    requires forall l :: l in legs ==> l.account in t
    ensures SameAccounts(t, ApplyLegs(t, legs, now))
  {
    if legs != [] {
      var before := legs[..|legs| - 1];
      assert forall l :: l in before ==> l in legs;
      AppliedHolders(t, before, now);
      assert legs[|legs| - 1] in legs;
    }
  }

  lemma {:induction false} NotMoved(legs: seq<Leg>, id: UUID)
    requires forall l :: l in legs ==> l.account != id
    ensures Moved(legs, id) == 0
  {
    if legs != [] {
      var before := legs[..|legs| - 1];
      assert forall l :: l in before ==> l in legs;
      assert legs[|legs| - 1] in legs;
      NotMoved(before, id);
    }
  }

  lemma {:induction false} NotTouched(t: Table, legs: seq<Leg>, now: int, id: UUID)
    requires forall i :: 0 <= i < |legs| ==> legs[i].account != id
    ensures var u := ApplyLegs(t, legs, now); (id in u <==> id in t) && (id in t ==> u[id] == t[id])
  {
    if legs != [] {
      NotTouched(t, legs[..|legs| - 1], now, id);
    }
  }

  /** An account named by some leg changes its balance and update time and nothing else; one that was not there before appears as
      the empty record with what was moved to it. */
  lemma {:induction false} Touched(t: Table, legs: seq<Leg>, now: int, k: nat)
    requires k < |legs|
    ensures var u, id := ApplyLegs(t, legs, now), legs[k].account;
            && id in u
            && u[id] == if id in t then t[id].(balance := t[id].balance + Moved(legs, id), updatedAt := now)
                        else Account(NIL, NIL, "", Moved(legs, id), false, false, 0, now)
  {
    var before, id, n := legs[..|legs| - 1], legs[k].account, |legs| - 1;
    if legs[n].account == id {
      if j :| 0 <= j < n && legs[j].account == id {
        Touched(t, before, now, j);
      } else {
        NotTouched(t, before, now, id);
        NotMoved(before, id);
      }
    } else {
      Touched(t, before, now, k);
    }
  }

  lemma {:induction false} MovedConcat(a: seq<Leg>, b: seq<Leg>, id: UUID)
    ensures Moved(a + b, id) == Moved(a, id) + Moved(b, id)
    ensures DeltaSum(a + b) == DeltaSum(a) + DeltaSum(b)
  {
    if b == [] {
      assert a + b == a;
    } else {
      MovedConcat(a, b[..|b| - 1], id);
      assert (a + b)[..|a + b| - 1] == a + b[..|b| - 1];
    }
  }

  lemma {:induction false} MovedPair(l: Leg, m: Leg, id: UUID)
    ensures Moved([l, m], id) == (if l.account == id then l.delta else 0) + (if m.account == id then m.delta else 0)
    ensures DeltaSum([l, m]) == l.delta + m.delta
  {
    assert [l, m] == [l] + [m];
    MovedConcat([l], [m], id);
    assert [l][..0] == [] && [m][..0] == [];
  }

  // ---- totals --------------------------------------------------------------------------

  /** Sum of the balances of a set of accounts. */
  ghost function TotalOver(t: Table, ids: set<UUID>): int {
    if ids == {} then 0
    else
      var id :| id in ids;
      BalanceOf(t, id) + TotalOver(t, ids - {id})
  }

  lemma {:induction false} TotalPick(t: Table, ids: set<UUID>, id: UUID)
    requires id in ids
    ensures TotalOver(t, ids) == BalanceOf(t, id) + TotalOver(t, ids - {id})
    decreases |ids|
  {
    var first :| first in ids && TotalOver(t, ids) == BalanceOf(t, first) + TotalOver(t, ids - {first});
    if first != id {
      TotalPick(t, ids - {first}, id);
      TotalPick(t, ids - {id}, first);
      assert ids - {first} - {id} == ids - {id} - {first};
    }
  }

  lemma {:induction false} TotalFrame(t: Table, u: Table, ids: set<UUID>)
    requires forall id :: id in ids ==> BalanceOf(t, id) == BalanceOf(u, id)
    ensures TotalOver(t, ids) == TotalOver(u, ids)
    decreases |ids|
  {
    if ids != {} {
      var id :| id in ids;
      TotalFrame(t, u, ids - {id});
      TotalPick(t, ids, id);
      TotalPick(u, ids, id);
    }
  }

  lemma {:induction false} TotalAdjust(t: Table, l: Leg, now: int, ids: set<UUID>)
    ensures TotalOver(Adjust(t, l, now), ids) == TotalOver(t, ids) + (if l.account in ids then l.delta else 0)
  {
    var u := Adjust(t, l, now);
    TotalFrame(t, u, ids - {l.account});
    if l.account in ids {
      TotalPick(t, ids, l.account);
      TotalPick(u, ids, l.account);
    } else {
      assert ids - {l.account} == ids;
    }
  }

  /** Balanced legs on listed accounts leave the total alone. */
  lemma {:induction false} TotalApplied(t: Table, legs: seq<Leg>, now: int, ids: set<UUID>)
    requires forall l :: l in legs ==> l.account in ids
    ensures TotalOver(ApplyLegs(t, legs, now), ids) == TotalOver(t, ids) + DeltaSum(legs)
  {
    if legs != [] {
      var before, last := legs[..|legs| - 1], legs[|legs| - 1];
      assert forall l :: l in before ==> l in legs;
      TotalApplied(t, before, now, ids);
      TotalAdjust(ApplyLegs(t, before, now), last, now, ids);
      assert last in legs;
    }
  }

  /** Non-negative balances bound each other by their total. */
  lemma {:induction false} TotalBounds(t: Table, ids: set<UUID>, id: UUID)
    requires forall x :: x in ids ==> BalanceOf(t, x) >= 0
    ensures TotalOver(t, ids) >= 0
    ensures id in ids ==> BalanceOf(t, id) <= TotalOver(t, ids)
    decreases |ids|
  {
    if ids != {} {
      var x := if id in ids then id else var y :| y in ids; y;
      TotalPick(t, ids, x);
      TotalBounds(t, ids - {x}, x);
    }
  }
}
